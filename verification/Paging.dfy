/** Permission-filtered paging over continuation tokens
    (backend/internal/handler/workflow_handler.go:89-164). */
module Paging {
  import opened Wrappers

  /** One execution of the visibility store; a missing execution is skipped. */
  datatype Entry = Entry(execution: Option<string>, details: string)

  datatype Summary = Summary(workflowId: string, details: string)

  datatype Access = Allowed | Denied | Broken

  /** The visibility store: its matching executions, and where it cuts the page that starts
      at a position; None is a failed call, the flag says that a continuation token comes
      with the page. A token is the position of the next page. */
  datatype Server = Server(raw: seq<Entry>, cut: (nat, nat) -> Option<(nat, bool)>)

  /** Pages hold at most the requested number of executions, a token comes with progress, and
      no token means the end. */
  ghost predicate WellBehaved(s: Server) {
    forall p: nat, size: nat | p <= |s.raw| && 0 < size && s.cut(p, size).Some? ::
      var page := s.cut(p, size).value;
      && p <= page.0 <= p + size && page.0 <= |s.raw|
      && (page.1 ==> p < page.0) && (!page.1 ==> page.0 == |s.raw|)
  }

  lemma PageIsCut(s: Server, p: nat, size: nat)
    requires WellBehaved(s) && p <= |s.raw| && 0 < size && s.cut(p, size).Some?
    ensures var page := s.cut(p, size).value;
            && p <= page.0 <= p + size && page.0 <= |s.raw|
            && (page.1 ==> p < page.0) && (!page.1 ==> page.0 == |s.raw|)
  {
  }

  type Permissions = Option<string -> Access>

  function AccessTo(permissions: Permissions, id: string): Access {
    if permissions.None? then Allowed else permissions.value(id)
  }

  /** What a member may see of a list, in order. */
  function Visible(entries: seq<Entry>, permissions: Permissions): seq<Summary> {
    if entries == [] then []
    else
      var e := entries[|entries| - 1];
      Visible(entries[..|entries| - 1], permissions)
      + (if e.execution.Some? && AccessTo(permissions, e.execution.value).Allowed?
         then [Summary(e.execution.value, e.details)] else [])
  }

  lemma {:induction false} VisibleConcat(a: seq<Entry>, b: seq<Entry>, permissions: Permissions)
    ensures Visible(a + b, permissions) == Visible(a, permissions) + Visible(b, permissions)
  {
    if b == [] {
      assert a + b == a;
    } else {
      assert (a + b)[..|a + b| - 1] == a + b[..|b| - 1];
      VisibleConcat(a, b[..|b| - 1], permissions);
    }
  }

  lemma {:induction false} VisibleShrinks(entries: seq<Entry>, permissions: Permissions)
    ensures |Visible(entries, permissions)| <= |entries|
  {
    if entries != [] {
      VisibleShrinks(entries[..|entries| - 1], permissions);
    }
  }

  lemma NothingVisible(entries: seq<Entry>, permissions: Permissions)
    requires entries == []
    ensures Visible(entries, permissions) == []
  {
  }

  /** What one execution contributes; with VisibleConcat this says what any list contributes. */
  lemma VisibleOne(e: Entry, permissions: Permissions)
    ensures Visible([e], permissions)
            == match e.execution
               case None => []
               case Some(id) =>
                 if permissions.None? || permissions.value(id) == Allowed then [Summary(id, e.details)] else []
  {
    assert [e][..0] == [] && Visible([], permissions) == [];
  }

  datatype Cursor = Invalid | Cursor(position: Option<nat>)

  datatype Listing =
    | BadCursor
    | ListFailed
    | AccessUnavailable
    | Listed(summaries: seq<Summary>, next: Option<nat>)

  function Limit(size: int): (limit: nat)
    ensures 1 <= limit <= 100
    ensures limit == size || (limit == 20 && (size < 1 || 100 < size))
  {
    if size < 1 || size > 100 then 20 else size
  }

  function Start(cursor: Cursor): nat { if cursor.Invalid? || cursor.position.None? then 0 else cursor.position.value }

  /** Where a listing left off. */
  function Stop(s: Server, next: Option<nat>): nat { if next.None? then |s.raw| else next.value }

  const MAX_PAGES := 50

  predicate AnyBroken(page: seq<Entry>, permissions: Permissions) {
    exists i | 0 <= i < |page| :: page[i].execution.Some? && AccessTo(permissions, page[i].execution.value).Broken?
  }

  /** The inner loop: one page of executions. */
  method TakePage(base: seq<Summary>, page: seq<Entry>, permissions: Permissions, limit: nat)
    returns (summaries: seq<Summary>, ok: bool)
    requires |base| < limit && |page| <= limit - |base|
    ensures ok ==> summaries == base + Visible(page, permissions) && |summaries| <= limit
    ensures ok <==> !AnyBroken(page, permissions)
  {
    summaries := base;
    assert base + [] == base;
    for i := 0 to |page|
      invariant summaries == base + Visible(page[..i], permissions) && |summaries| <= |base| + i
      invariant |summaries| < limit
      invariant forall k | 0 <= k < i && page[k].execution.Some? ::
        !AccessTo(permissions, page[k].execution.value).Broken?
    {
      assert page[..i + 1][..i] == page[..i];
      var e := page[i];
      if e.execution.None? {
        continue;
      }
      var access := AccessTo(permissions, e.execution.value);
      if access.Broken? {
        return summaries, false;
      }
      if access.Denied? {
        continue;
      }
      assert summaries + [Summary(e.execution.value, e.details)]
             == base + (Visible(page[..i], permissions) + [Summary(e.execution.value, e.details)]);
      summaries := summaries + [Summary(e.execution.value, e.details)];
      if |summaries| >= limit {
        assert page[..i + 1] == page;
        return summaries, true;
      }
    }
    assert page[..|page|] == page;
    ok := true;
  }

  /** The paging loop as a function, going on when `pages` pages were read, `got` was collected
      and the next page starts at token: the listing, and how many pages were read for it. */
  ghost function Continue(
    s: Server, permissions: Permissions, limit: nat, token: Option<nat>, got: seq<Summary>, pages: nat
  ): (Listing, nat)
    requires WellBehaved(s) && (token.Some? ==> token.value <= |s.raw|)
    decreases MAX_PAGES - pages
  {
    if pages >= MAX_PAGES || |got| >= limit then (Listed(got, token), pages)
    else
      var p := if token.None? then 0 else token.value;
      var answer := s.cut(p, limit - |got|);
      if answer.None? then (ListFailed, pages)
      else
        var page := s.raw[p..answer.value.0];
        if AnyBroken(page, permissions) then (AccessUnavailable, pages + 1)
        else if !answer.value.1 then (Listed(got + Visible(page, permissions), None), pages + 1)
        else Continue(s, permissions, limit, Some(answer.value.0), got + Visible(page, permissions), pages + 1)
  }

  /** One round of the loop. */
  lemma ContinueUnfolds(s: Server, permissions: Permissions, limit: nat,
    token: Option<nat>, got: seq<Summary>, pages: nat)
    requires WellBehaved(s) && (token.Some? ==> token.value <= |s.raw|) && pages < MAX_PAGES && |got| < limit
    ensures var p := if token.None? then 0 else token.value;
            var answer := s.cut(p, limit - |got|);
            var r := Continue(s, permissions, limit, token, got, pages);
            if answer.None? then r.0 == ListFailed
            else
              && p <= answer.value.0 <= |s.raw|
              && var page := s.raw[p..answer.value.0];
                 if AnyBroken(page, permissions) then r.0 == AccessUnavailable
                 else if !answer.value.1 then r.0 == Listed(got + Visible(page, permissions), None)
                 else r == Continue(s, permissions, limit, Some(answer.value.0),
                                    got + Visible(page, permissions), pages + 1)
  {
    hide WellBehaved, Visible, AnyBroken;
    var p := if token.None? then 0 else token.value;
    if s.cut(p, limit - |got|).Some? {
      PageIsCut(s, p, limit - |got|);
    }
  }

  lemma ContinueEnds(s: Server, permissions: Permissions, limit: nat, token: Option<nat>, got: seq<Summary>, pages: nat)
    requires WellBehaved(s) && (token.Some? ==> token.value <= |s.raw|) && (pages >= MAX_PAGES || |got| >= limit)
    ensures Continue(s, permissions, limit, token, got, pages) == (Listed(got, token), pages)
  {
  }

  /** HandleList */
  method HandleList(s: Server, permissions: Permissions, size: int, cursor: Cursor) returns (r: Listing)
    requires WellBehaved(s) && Start(cursor) <= |s.raw|
    ensures r == if cursor.Invalid? then BadCursor else Continue(s, permissions, Limit(size), cursor.position, [], 0).0
  {
    hide WellBehaved, Visible, AccessTo, AnyBroken, Continue;
    if cursor.Invalid? {
      return BadCursor;
    }
    var limit := Limit(size);
    var token := cursor.position;
    var summaries: seq<Summary> := [];
    var pages := 0;
    while pages < MAX_PAGES && |summaries| < limit
      invariant token.Some? ==> token.value <= |s.raw|
      invariant Continue(s, permissions, limit, token, summaries, pages)
                == Continue(s, permissions, limit, cursor.position, [], 0)
      decreases MAX_PAGES - pages
    {
      ContinueUnfolds(s, permissions, limit, token, summaries, pages);
      var pageSize := limit - |summaries|;
      var p := if token.None? then 0 else token.value;
      var answer := s.cut(p, pageSize);
      if answer.None? {
        return ListFailed;
      }
      PageIsCut(s, p, pageSize);
      var q, more := answer.value.0, answer.value.1;
      var ok;
      summaries, ok := TakePage(summaries, s.raw[p..q], permissions, limit);
      if !ok {
        return AccessUnavailable;
      }
      token := if more then Some(q) else None;
      if !more {
        return Listed(summaries, token);
      }
      pages := pages + 1;
    }
    r := Listed(summaries, token);
    ContinueEnds(s, permissions, limit, token, summaries, pages);
  }

  /** Every failure has a cause. */
  ghost predicate Reliable(s: Server, permissions: Permissions) {
    && (forall p: nat, size: nat | p <= |s.raw| && 0 < size :: s.cut(p, size).Some?)
    && !AnyBroken(s.raw, permissions)
  }

  lemma PartIsReliable(s: Server, permissions: Permissions, p: nat, q: nat)
    requires Reliable(s, permissions) && p <= q <= |s.raw|
    ensures !AnyBroken(s.raw[p..q], permissions)
  {
    hide AccessTo;
    var page := s.raw[p..q];
    forall i | 0 <= i < |page| && page[i].execution.Some?
      ensures !AccessTo(permissions, page[i].execution.value).Broken?
    {
      assert page[i] == s.raw[p + i];
    }
  }

  /** r is exactly what the member may see from a position on: a listing makes progress, and
      when it carries a token although it is not full, it has read exactly fifty pages. */
  ghost predicate Exact(s: Server, permissions: Permissions, limit: nat, from: nat, r: Listing, read: nat) {
    r.Listed? ==>
      && from <= Stop(s, r.next) <= |s.raw|
      && r.summaries == Visible(s.raw[from..Stop(s, r.next)], permissions) && |r.summaries| <= limit
      && (r.next.Some? ==>
            && 0 < read <= 50 && from + read <= r.next.value
            && (|r.summaries| < limit ==> read == 50))
  }

  /** Despite the page cap and the shrinking page size, a listing is exact, and it fails only if
      a call fails. */
  lemma {:induction false} ListingIsExact(
    s: Server, permissions: Permissions, limit: nat, from: nat, token: Option<nat>, got: seq<Summary>, pages: nat)
    requires WellBehaved(s) && from <= |s.raw| && pages <= MAX_PAGES && |got| <= limit
    requires token.Some? ==> token.value <= |s.raw|
    requires var at := if token.None? then 0 else token.value;
             from + pages <= at && got == Visible(s.raw[from..at], permissions)
    requires pages > 0 ==> token.Some?
    requires pages == 0 ==> |got| < limit
    ensures var (r, read) := Continue(s, permissions, limit, token, got, pages);
            && (Reliable(s, permissions) ==> r.Listed?)
            && Exact(s, permissions, limit, from, r, read)
    decreases MAX_PAGES - pages
  {
    hide WellBehaved, Visible, AccessTo, Reliable, AnyBroken;
    var at := if token.None? then 0 else token.value;
    if pages < MAX_PAGES && |got| < limit {
      var answer := s.cut(at, limit - |got|);
      ReliableAnswers(s, permissions, at, limit - |got|);
      if answer.Some? {
        PageIsCut(s, at, limit - |got|);
        var q, more := answer.value.0, answer.value.1;
        OnePage(s, permissions, from, at, q);
        if !AnyBroken(s.raw[at..q], permissions) && more {
          hide Exact;
          ListingIsExact(s, permissions, limit, from, Some(q), got + Visible(s.raw[at..q], permissions), pages + 1);
        }
      }
    }
  }

  /** The execution at a position may not be looked up. */
  predicate LookupFails(s: Server, permissions: Permissions, k: nat)
    requires k < |s.raw|
  {
    s.raw[k].execution.Some? && permissions.Some? && permissions.value(s.raw[k].execution.value) == Broken
  }

  /** What a listing says about calls that failed: each failure has its own cause, and behind a
      listing that succeeds every lookup of the part it covers went well. */
  lemma {:induction false} FailureSays(
    s: Server, permissions: Permissions, limit: nat, token: Option<nat>, got: seq<Summary>, pages: nat)
    requires WellBehaved(s) && (token.Some? ==> token.value <= |s.raw|)
    ensures var at := if token.None? then 0 else token.value;
            match Continue(s, permissions, limit, token, got, pages).0
            case BadCursor => false
            case ListFailed =>
              exists p: nat, size: nat :: at <= p <= |s.raw| && 0 < size <= limit && s.cut(p, size).None?
            case AccessUnavailable => exists k | at <= k < |s.raw| :: LookupFails(s, permissions, k)
            case Listed(_, next) =>
              pages < 50 && |got| < limit ==>
                forall k | at <= k < Stop(s, next) && k < |s.raw| :: !LookupFails(s, permissions, k)
    decreases MAX_PAGES - pages
  {
    hide WellBehaved, Visible;
    var at := if token.None? then 0 else token.value;
    if pages < MAX_PAGES && |got| < limit {
      var size := limit - |got|;
      var answer := s.cut(at, size);
      if answer.Some? {
        PageIsCut(s, at, size);
        var q, more := answer.value.0, answer.value.1;
        BrokenPage(s, permissions, at, q);
        if !AnyBroken(s.raw[at..q], permissions) && more {
          FailureSays(s, permissions, limit, Some(q), got + Visible(s.raw[at..q], permissions), pages + 1);
        }
      }
    }
  }

  lemma BrokenPage(s: Server, permissions: Permissions, p: nat, q: nat)
    requires p <= q <= |s.raw|
    ensures AnyBroken(s.raw[p..q], permissions) <==> exists k | p <= k < q :: LookupFails(s, permissions, k)
  {
    var page := s.raw[p..q];
    if AnyBroken(page, permissions) {
      var i :| 0 <= i < |page| && page[i].execution.Some? && AccessTo(permissions, page[i].execution.value).Broken?;
      assert LookupFails(s, permissions, p + i);
    }
    if k :| p <= k < q && LookupFails(s, permissions, k) {
      assert page[k - p] == s.raw[k];
    }
  }

  lemma OnePage(s: Server, permissions: Permissions, from: nat, at: nat, q: nat)
    requires from <= at <= q <= |s.raw|
    ensures Visible(s.raw[from..q], permissions)
            == Visible(s.raw[from..at], permissions) + Visible(s.raw[at..q], permissions)
    ensures |Visible(s.raw[at..q], permissions)| <= q - at
    ensures Reliable(s, permissions) ==> !AnyBroken(s.raw[at..q], permissions)
  {
    hide Visible, Reliable, AnyBroken;
    if Reliable(s, permissions) {
      PartIsReliable(s, permissions, at, q);
    }
    VisibleConcat(s.raw[from..at], s.raw[at..q], permissions);
    VisibleShrinks(s.raw[at..q], permissions);
    assert s.raw[from..at] + s.raw[at..q] == s.raw[from..q];
  }

  lemma ReliableAnswers(s: Server, permissions: Permissions, p: nat, size: nat)
    requires p <= |s.raw| && 0 < size
    ensures Reliable(s, permissions) ==> s.cut(p, size).Some?
  {
  }

  /** A client that follows next_page_token until it is empty gets exactly what the member may
      see, in order, nothing dropped and nothing twice. */
  method Walk(s: Server, permissions: Permissions, size: int) returns (all: seq<Summary>, calls: nat, ok: bool)
    requires WellBehaved(s)
    ensures ok ==> all == Visible(s.raw, permissions)
    ensures Reliable(s, permissions) ==> ok
    ensures calls <= |s.raw| + 1
  {
    hide WellBehaved, Visible, Reliable, Continue;
    var cursor := Cursor(None);
    all, calls := [], 0;
    ghost var at := 0;
    NothingVisible(s.raw[..at], permissions);
    while true
      invariant cursor.Cursor? && Start(cursor) == at <= |s.raw|
      invariant all == Visible(s.raw[..at], permissions)
      invariant calls <= at
      decreases |s.raw| - at
    {
      var r := HandleList(s, permissions, size, cursor);
      NothingVisible(s.raw[at..at], permissions);
      ListingIsExact(s, permissions, Limit(size), at, cursor.position, [], 0);
      calls := calls + 1;
      if !r.Listed? {
        return all, calls, false;
      }
      var stop := Stop(s, r.next);
      VisibleConcat(s.raw[..at], s.raw[at..stop], permissions);
      assert s.raw[..at] + s.raw[at..stop] == s.raw[..stop];
      all := all + r.summaries;
      if r.next.None? {
        assert s.raw[..stop] == s.raw;
        return all, calls, true;
      }
      at := stop;
      cursor := Cursor(r.next);
    }
  }
}
