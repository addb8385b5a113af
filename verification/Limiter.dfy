/** The attempt limiter (backend/internal/identity/service.go): a bounded map of counters
    whose expired entries are removed only when they get in the way. Keys are byte strings. */
module Limiter {

  type Key = string
  type Time = int

  datatype Attempt = Attempt(count: nat, until: Time)

  datatype Call = Call(key: Key, limit: int, window: Time, now: Time)

  type Entries = map<Key, Attempt>

  predicate WellFormed(c: Call) { |c.key| <= 512 && c.limit >= 1 && c.window > 0 }

  /** The entries that have not expired. */
  function Purge(entries: Entries, now: Time): Entries {
    map k | k in entries && entries[k].until > now :: entries[k]
  }

  /** Count one more attempt for a key that has a counter. */
  function Bump(entries: Entries, c: Call): (Entries, bool)
    requires c.key in entries
  {
    var e := entries[c.key];
    if e.count >= c.limit then (entries, false) else (entries[c.key := e.(count := e.count + 1)], true)
  }

  /** Start a counter if there is room for it. */
  function Enter(entries: Entries, capacity: nat, c: Call): (Entries, bool) {
    if |entries| >= capacity then (entries, false) else (entries[c.key := Attempt(1, c.now + c.window)], true)
  }

  /** The map after the key's own expired entry is gone. */
  function Mine(entries: Entries, c: Call): Entries {
    if c.key in entries && entries[c.key].until <= c.now then entries - {c.key} else entries
  }

  /** Allow: the key's own expired entry goes at once, the others only when the map is full. */
  function Lazy(entries: Entries, capacity: nat, c: Call): (Entries, bool) {
    if !WellFormed(c) then (entries, false)
    else
      var mine := Mine(entries, c);
      if c.key in mine then Bump(mine, c)
      else Enter(if |mine| >= capacity then Purge(mine, c.now) else mine, capacity, c)
  }

  /** The limiter one would write without a bound on the work: every expired entry goes first. */
  function Eager(entries: Entries, capacity: nat, c: Call): (Entries, bool) {
    if !WellFormed(c) then (entries, false)
    else
      var live := Purge(entries, c.now);
      if c.key in live then Bump(live, c) else Enter(live, capacity, c)
  }

  class AttemptLimiter {
    var entries: Entries
    const capacity: nat

    ghost predicate Valid()
      reads this
    {
      1 <= capacity && |entries| <= capacity
    }

    constructor (size: int)
      ensures Valid() && entries == map[] && capacity == if size < 1 then 1 else size
    {
      entries := map[];
      capacity := if size < 1 then 1 else size;
    }

    method Allow(c: Call) returns (ok: bool)
      requires Valid()
      modifies this
      ensures Valid() && (entries, ok) == Lazy(old(entries), capacity, c)
    {
      if !WellFormed(c) {
        return false;
      }
      var present := c.key in entries;
      if present && entries[c.key].until <= c.now {
        entries := entries - {c.key};
        present := false;
      }
      ghost var mine := entries;
      var entry;
      if !present {
        if |entries| >= capacity {
          RemoveExpired(c.now);
        }
        if |entries| >= capacity {
          return false;
        }
        entry := Attempt(0, c.now + c.window);
      } else {
        entry := entries[c.key];
      }
      if entry.count >= c.limit {
        return false;
      }
      entry := entry.(count := entry.count + 1);
      assert c.key in entries ==> entries[c.key := entry].Keys == entries.Keys;
      assert |entries[c.key := entry].Keys| <= capacity;
      entries := entries[c.key := entry];
      return true;
    }

    method RemoveExpired(now: Time)
      modifies this
      ensures entries == Purge(old(entries), now) && |entries| <= old(|entries|)
    {
      var todo := entries.Keys;
      while todo != {}
        invariant todo <= entries.Keys <= old(entries).Keys
        invariant forall k | k in entries :: entries[k] == old(entries)[k]
        invariant forall k | k in old(entries) && k !in todo :: k in entries <==> old(entries)[k].until > now
        decreases |todo|
      {
        var k :| k in todo;
        todo := todo - {k};
        if entries[k].until <= now {
          entries := entries - {k};
        }
      }
      KeysBound(entries, old(entries));
    }
  }

  lemma KeysBound(small: Entries, big: Entries)
    requires small.Keys <= big.Keys
    ensures |small| <= |big|
  {
    SubsetSize(small.Keys, big.Keys);
  }

  lemma SubsetSize<T>(a: set<T>, b: set<T>)
    requires a <= b
    ensures |a| <= |b|
  {
    assert b == a + (b - a);
    assert |b| == |a| + |b - a|;
  }

  // ------------------------------------------------------------------- refinement

  function Run(entries: Entries, capacity: nat, calls: seq<Call>): (Entries, seq<bool>) {
    if calls == [] then (entries, [])
    else
      var (before, answers) := Run(entries, capacity, calls[..|calls| - 1]);
      var (after, ok) := Lazy(before, capacity, calls[|calls| - 1]);
      (after, answers + [ok])
  }

  function RunEager(entries: Entries, capacity: nat, calls: seq<Call>): (Entries, seq<bool>) {
    if calls == [] then (entries, [])
    else
      var (before, answers) := RunEager(entries, capacity, calls[..|calls| - 1]);
      var (after, ok) := Eager(before, capacity, calls[|calls| - 1]);
      (after, answers + [ok])
  }

  /** A clock that never runs backwards. */
  ghost predicate Clocked(calls: seq<Call>) {
    forall i, j :: 0 <= i < j < |calls| ==> calls[i].now <= calls[j].now
  }

  lemma PurgeTwice(entries: Entries, a: Time, b: Time)
    requires a <= b
    ensures Purge(Purge(entries, a), b) == Purge(entries, b)
  {
  }

  lemma SetPurges(a: Entries, b: Entries, k: Key, v: Attempt, now: Time)
    requires Purge(a, now) == Purge(b, now)
    ensures Purge(a[k := v], now) == Purge(b[k := v], now)
  {
    var x, y := Purge(a[k := v], now), Purge(b[k := v], now);
    forall q
      ensures q in x <==> q in y
      ensures q in x ==> x[q] == y[q]
    {
      assert q in Purge(a, now) <==> q in Purge(b, now);
      assert q in Purge(a, now) ==> Purge(a, now)[q] == a[q] == Purge(b, now)[q] == b[q];
    }
    assert x == y;
  }

  lemma SetSize(a: Entries, k: Key, v: Attempt)
    ensures |a[k := v]| == if k in a then |a| else |a| + 1
  {
    assert a[k := v].Keys == a.Keys + {k};
  }

  lemma MineFacts(lazy: Entries, eager: Entries, c: Call)
    requires Purge(lazy, c.now) == Purge(eager, c.now)
    ensures var live, mine := Purge(eager, c.now), Mine(lazy, c);
            && Purge(mine, c.now) == live && Purge(live, c.now) == live
            && (c.key in mine <==> c.key in live) && (c.key in mine ==> mine[c.key] == live[c.key])
            && |live| <= |mine| <= |lazy|
  {
    var live, mine := Purge(eager, c.now), Mine(lazy, c);
    assert Purge(mine, c.now) == live;
    KeysBound(mine, lazy);
    KeysBound(live, mine);
  }

  /** One call: equal live entries give equal answers and equal live entries. */
  lemma SameAnswer(lazy: Entries, eager: Entries, capacity: nat, c: Call)
    requires |lazy| <= capacity
    requires Purge(lazy, c.now) == Purge(eager, c.now)
    ensures Lazy(lazy, capacity, c).1 == Eager(eager, capacity, c).1
    ensures Purge(Lazy(lazy, capacity, c).0, c.now) == Purge(Eager(eager, capacity, c).0, c.now)
    ensures |Lazy(lazy, capacity, c).0| <= capacity
  {
    if WellFormed(c) {
      var live, mine := Purge(eager, c.now), Mine(lazy, c);
      MineFacts(lazy, eager, c);
      var entry := if c.key in mine then mine[c.key].(count := mine[c.key].count + 1) else Attempt(1, c.now + c.window);
      hide Purge;
      SetPurges(mine, live, c.key, entry, c.now);
      SetPurges(live, live, c.key, entry, c.now);
      SetSize(mine, c.key, entry);
      SetSize(live, c.key, entry);
      assert Lazy(lazy, capacity, c)
             == (if c.key in mine then Bump(mine, c)
                 else Enter(if |mine| >= capacity then live else mine, capacity, c)) by {
        hide Bump, Enter;
        PurgeMine(lazy, c);
      }
      hide Lazy, Mine;
    }
  }

  lemma PurgeMine(lazy: Entries, c: Call)
    ensures Purge(Mine(lazy, c), c.now) == Purge(lazy, c.now)
  {
    assert Purge(Mine(lazy, c), c.now) == Purge(lazy, c.now);
  }

  /** Lazy expiry is invisible: call for call the answers are those of the eager limiter, and
      the map never outgrows its capacity. */
  lemma {:induction false} LazyRefinesEager(capacity: nat, calls: seq<Call>, now: Time)
    requires Clocked(calls) && (calls != [] ==> calls[|calls| - 1].now <= now)
    ensures Run(map[], capacity, calls).1 == RunEager(map[], capacity, calls).1
    ensures Purge(Run(map[], capacity, calls).0, now) == Purge(RunEager(map[], capacity, calls).0, now)
    ensures |Run(map[], capacity, calls).0| <= capacity
    decreases |calls|
  {
    if calls != [] {
      var c := calls[|calls| - 1];
      var before := calls[..|calls| - 1];
      LazyRefinesEager(capacity, before, c.now);
      var lazy, eager := Run(map[], capacity, before).0, RunEager(map[], capacity, before).0;
      SameAnswer(lazy, eager, capacity, c);
      PurgeTwice(Lazy(lazy, capacity, c).0, c.now, now);
      PurgeTwice(Eager(eager, capacity, c).0, c.now, now);
    }
  }

  /** A live counter is never evicted and never reset. */
  lemma LiveCounterStays(entries: Entries, capacity: nat, c: Call, k: Key)
    requires k in entries && entries[k].until > c.now
    ensures var (after, ok) := Lazy(entries, capacity, c);
            && k in after && after[k].until == entries[k].until
            && after[k].count == entries[k].count + (if ok && k == c.key then 1 else 0)
  {
  }

  // ------------------------------------------------------------------- rate bound

  /** An admitted call: when, and when the counter that admitted it was started. */
  datatype Admission = Admission(time: Time, start: Time)

  /** The calls for this key that were admitted. */
  function Admissions(capacity: nat, calls: seq<Call>, key: Key): seq<Admission> {
    if calls == [] then []
    else
      var before := calls[..|calls| - 1];
      Admissions(capacity, before, key) + Added(Run(map[], capacity, before).0, capacity, calls[|calls| - 1], key)
  }

  /** All calls for the key carry the same limit and window. */
  ghost predicate Uniform(calls: seq<Call>, key: Key, limit: nat, window: Time) {
    forall i :: 0 <= i < |calls| && calls[i].key == key ==> calls[i].limit == limit && calls[i].window == window
  }

  /** b comes after a, in the same group or at least a window later. */
  predicate InOrder(a: Admission, b: Admission, window: Time) {
    a.time <= b.time && (a.start == b.start || a.start + window <= b.start)
  }

  predicate Timely(a: Admission, window: Time) { a.start <= a.time < a.start + window }

  /** Admissions come in groups, one a counter: a group holds at most `limit` and the next
      one starts a window later. */
  ghost predicate Grouped(h: seq<Admission>, limit: nat, window: Time) {
    && (forall i :: 0 <= i < |h| ==> Timely(h[i], window))
    && (forall i, j :: 0 <= i < j < |h| ==> InOrder(h[i], h[j], window))
    && (forall i, j :: 0 <= i < j < |h| && j == i + limit ==> h[i].start + window <= h[j].start)
  }

  lemma GroupedAppend(h: seq<Admission>, a: Admission, limit: nat, window: Time)
    requires Grouped(h, limit, window) && Timely(a, window)
    requires forall i :: 0 <= i < |h| ==> InOrder(h[i], a, window)
    requires 0 < limit <= |h| ==> h[|h| - limit].start + window <= a.start
    ensures Grouped(h + [a], limit, window)
  {
    hide InOrder, Timely;
    var h' := h + [a];
    assert forall i :: 0 <= i < |h| ==> h'[i] == h[i];
    assert h'[|h|] == a;
  }

  /** How the key's entry, if any, goes with the admissions so far. */
  ghost predicate Current(entries: Entries, h: seq<Admission>, key: Key, limit: nat, window: Time, now: Time) {
    var n := |h|;
    && (n > 0 ==> h[n - 1].time <= now)
    && (key in entries ==>
          var e := entries[key];
          && 1 <= e.count <= limit && e.count <= n
          && (forall i :: n - e.count <= i < n ==> h[i].start == e.until - window)
          && (forall i :: 0 <= i < n - e.count ==> h[i].start + window <= e.until - window))
    && (key !in entries ==> forall i :: 0 <= i < n ==> h[i].start + window <= now)
  }

  /** What one call does to the key's own counter. */
  lemma OwnCounter(entries: Entries, capacity: nat, c: Call, key: Key)
    ensures var (after, ok) := Lazy(entries, capacity, c);
            var live := key in entries && entries[key].until > c.now;
            if ok && c.key == key then
              && key in after && c.limit >= 1 && c.window > 0
              && if live then entries[key].count < c.limit
                 && after[key] == Attempt(entries[key].count + 1, entries[key].until)
                 else after[key] == Attempt(1, c.now + c.window)
            else if key in after then key in entries && after[key] == entries[key]
            else !live
  {
  }

  lemma Extend(entries: Entries, after: Entries, h: seq<Admission>, key: Key, limit: nat, window: Time, now: Time)
    requires Grouped(h, limit, window) && Current(entries, h, key, limit, window, now)
    requires limit >= 1 && key in entries && now < entries[key].until && entries[key].count < limit
    requires key in after && after[key] == Attempt(entries[key].count + 1, entries[key].until)
    ensures var h' := h + [Admission(now, after[key].until - window)];
            Grouped(h', limit, window) && Current(after, h', key, limit, window, now)
  {
    var a := Admission(now, after[key].until - window);
    var n := |h|;
    assert Timely(h[n - 1], window) && h[n - 1].start == a.start;
    forall i | 0 <= i < n
      ensures InOrder(h[i], a, window)
    {
      assert i == n - 1 || InOrder(h[i], h[n - 1], window);
    }
    GroupedAppend(h, a, limit, window);
    hide Grouped, Timely, InOrder;
    assert forall i :: 0 <= i < n ==> (h + [a])[i] == h[i];
  }

  lemma StartGroup(entries: Entries, after: Entries, h: seq<Admission>, key: Key, limit: nat, window: Time, now: Time)
    requires Grouped(h, limit, window) && Current(entries, h, key, limit, window, now)
    requires limit >= 1 && window > 0 && (key in entries ==> entries[key].until <= now)
    requires key in after && after[key] == Attempt(1, now + window)
    ensures var h' := h + [Admission(now, after[key].until - window)];
            Grouped(h', limit, window) && Current(after, h', key, limit, window, now)
  {
    var a := Admission(now, after[key].until - window);
    var n := |h|;
    forall i | 0 <= i < n
      ensures h[i].start + window <= now && InOrder(h[i], a, window)
    {
      assert Timely(h[i], window);
      assert i == n - 1 || InOrder(h[i], h[n - 1], window);
    }
    GroupedAppend(h, a, limit, window);
    hide Grouped, Timely, InOrder;
    assert forall i :: 0 <= i < n ==> (h + [a])[i] == h[i];
  }

  /** What one call adds to the admissions of the key. */
  function Added(entries: Entries, capacity: nat, c: Call, key: Key): seq<Admission> {
    var (after, ok) := Lazy(entries, capacity, c);
    if ok && c.key == key && key in after then [Admission(c.now, after[key].until - c.window)] else []
  }

  lemma CurrentStep(entries: Entries, h: seq<Admission>, capacity: nat, c: Call, key: Key, limit: nat, window: Time)
    requires Grouped(h, limit, window) && Current(entries, h, key, limit, window, c.now)
    requires limit >= 1 && window > 0 && (c.key == key ==> c.limit == limit && c.window == window)
    ensures var h' := h + Added(entries, capacity, c, key);
            Grouped(h', limit, window) && Current(Lazy(entries, capacity, c).0, h', key, limit, window, c.now)
  {
    var (after, ok) := Lazy(entries, capacity, c);
    OwnCounter(entries, capacity, c, key);
    hide Lazy, Grouped;
    if ok && c.key == key {
      hide Current;
      if key in entries && entries[key].until > c.now {
        Extend(entries, after, h, key, limit, window, c.now);
      } else {
        StartGroup(entries, after, h, key, limit, window, c.now);
      }
    } else {
      assert h + Added(entries, capacity, c, key) == h;
    }
  }

  lemma {:induction false} AdmissionsGrouped(
    capacity: nat, calls: seq<Call>, key: Key, limit: nat, window: Time, now: Time)
    requires limit >= 1 && window > 0 && Clocked(calls) && Uniform(calls, key, limit, window)
    requires calls != [] ==> calls[|calls| - 1].now <= now
    ensures Grouped(Admissions(capacity, calls, key), limit, window)
    ensures Current(Run(map[], capacity, calls).0, Admissions(capacity, calls, key), key, limit, window, now)
    decreases |calls|
  {
    if calls != [] {
      var c := calls[|calls| - 1];
      var before := calls[..|calls| - 1];
      AdmissionsGrouped(capacity, before, key, limit, window, c.now);
      hide Lazy, Grouped, Current, Added;
      CurrentStep(Run(map[], capacity, before).0, Admissions(capacity, before, key), capacity, c, key, limit, window);
      Later(Run(map[], capacity, calls).0, Admissions(capacity, calls, key), key, limit, window, c.now, now);
    }
  }

  lemma Later(entries: Entries, h: seq<Admission>, key: Key, limit: nat, window: Time, a: Time, b: Time)
    requires Current(entries, h, key, limit, window, a) && a <= b
    ensures Current(entries, h, key, limit, window, b)
  {
  }

  /** The admissions that fall into the half-open interval [from, to). */
  function Within(h: seq<Admission>, from: Time, to: Time): set<int> {
    set i | 0 <= i < |h| && from <= h[i].time < to
  }

  lemma Pick<T>(s: set<T>) returns (x: T)
    requires |s| > 0
    ensures x in s
  {
    x :| x in s;
  }

  lemma {:induction false} RangeSize(s: set<int>, low: int, count: nat)
    requires forall i :: i in s ==> low <= i < low + count
    ensures |s| <= count
    decreases count
  {
    if count == 0 {
      assert |s| == 0 by {
        if |s| > 0 {
          var x := Pick(s);
        }
      }
    } else {
      var last := low + count - 1;
      RangeSize(s - {last}, low, count - 1);
    }
  }

  /** Any half-open interval of one window's length admits at most twice the limit for a key,
      whatever other keys do. */
  lemma RateBound(capacity: nat, calls: seq<Call>, key: Key, limit: nat, window: Time, from: Time)
    requires limit >= 1 && window > 0 && Clocked(calls) && Uniform(calls, key, limit, window)
    ensures |Within(Admissions(capacity, calls, key), from, from + window)| <= 2 * limit
  {
    AdmissionsGrouped(capacity, calls, key, limit, window, if calls == [] then 0 else calls[|calls| - 1].now);
    var h := Admissions(capacity, calls, key);
    var s := Within(h, from, from + window);
    if |s| > 0 {
      var first := First(s);
      forall j | j in s
        ensures first <= j < first + 2 * limit
      {
        if j >= first + 2 * limit {
          TwoGroupsLater(h, limit, window, first, j);
        }
      }
      RangeSize(s, first, 2 * limit);
    }
  }

  /** Two groups later at least a window has passed. */
  lemma TwoGroupsLater(h: seq<Admission>, limit: nat, window: Time, i: nat, j: nat)
    requires Grouped(h, limit, window) && limit >= 1 && i + 2 * limit <= j < |h|
    ensures h[j].time > h[i].time + window
  {
    var mid := i + limit;
    assert h[i].start + window <= h[mid].start;
    assert h[mid].start + window <= h[mid + limit].start;
    assert mid + limit == j || InOrder(h[mid + limit], h[j], window);
    assert Timely(h[i], window) && Timely(h[mid + limit], window);
  }

  /** The least element of a nonempty set of integers. */
  lemma {:induction false} First(s: set<int>) returns (m: int)
    requires |s| > 0
    ensures m in s && forall i :: i in s ==> m <= i
    decreases |s|
  {
    var x := Pick(s);
    var others := s - {x};
    if |others| == 0 {
      m := x;
      assert forall i :: i in s ==> i == x || i in others;
    } else {
      var rest := First(others);
      m := if x < rest then x else rest;
      assert forall i :: i in s ==> i == x || i in others;
    }
  }

  lemma SameGroup(h: seq<Admission>, limit: nat, window: Time, i: nat, j: nat)
    requires Grouped(h, limit, window) && limit >= 1 && window > 0
    requires i <= j < |h| && h[i].start == h[j].start
    ensures j < i + limit
  {
    if i + limit < |h| {
      assert h[i].start + window <= h[i + limit].start;
      assert i + limit < j ==> InOrder(h[i + limit], h[j], window);
    }
  }

  /** One counter admits at most `limit` calls. */
  lemma CounterBound(capacity: nat, calls: seq<Call>, key: Key, limit: nat, window: Time, start: Time)
    requires limit >= 1 && window > 0 && Clocked(calls) && Uniform(calls, key, limit, window)
    ensures var h := Admissions(capacity, calls, key);
            |set i | 0 <= i < |h| && h[i].start == start| <= limit
  {
    AdmissionsGrouped(capacity, calls, key, limit, window, if calls == [] then 0 else calls[|calls| - 1].now);
    var h := Admissions(capacity, calls, key);
    var s := set i | 0 <= i < |h| && h[i].start == start;
    if |s| > 0 {
      var first := First(s);
      forall j | j in s
        ensures first <= j < first + limit
      {
        SameGroup(h, limit, window, first, j);
      }
      RangeSize(s, first, limit);
    }
  }

  // ------------------------------------------------------------ when a call is admitted

  /** The keys whose counters have not expired. */
  function LiveKeys(entries: Entries, now: Time): set<Key> { set k | k in entries && entries[k].until > now }

  lemma LiveIsPurged(entries: Entries, now: Time)
    ensures |LiveKeys(entries, now)| == |Purge(entries, now)|
  {
    assert Purge(entries, now).Keys == LiveKeys(entries, now);
  }

  /** A call is admitted exactly when its key, limit and window are in order and its live counter
      is below the limit, or it has none and fewer than capacity other keys have one. */
  lemma AdmitsExactly(entries: Entries, capacity: nat, c: Call)
    requires |entries| <= capacity
    ensures Lazy(entries, capacity, c).1 <==>
            && |c.key| <= 512 && c.limit > 0 && c.window > 0
            && (if c.key in entries && entries[c.key].until > c.now then entries[c.key].count < c.limit
                else |LiveKeys(entries, c.now)| < capacity)
  {
    if WellFormed(c) {
      var mine := Mine(entries, c);
      MineFacts(entries, entries, c);
      LiveIsPurged(entries, c.now);
      hide Purge, LiveKeys;
      PurgeMine(entries, c);
    }
  }

  /** No call is refused without cause: either the key had `limit` admissions within the last
      window, or `capacity` other keys have live counters. */
  lemma RefusalHasCause(capacity: nat, calls: seq<Call>, c: Call)
    requires WellFormed(c) && Clocked(calls + [c]) && Uniform(calls + [c], c.key, c.limit, c.window)
    requires !Lazy(Run(map[], capacity, calls).0, capacity, c).1
    ensures var h := Admissions(capacity, calls, c.key);
            || (|h| >= c.limit && h[|h| - c.limit].time > c.now - c.window)
            || |LiveKeys(Run(map[], capacity, calls).0, c.now)| >= capacity
  {
    var all := calls + [c];
    assert forall i | 0 <= i < |calls| :: all[i] == calls[i];
    assert all[|calls|] == c;
    assert Clocked(calls) && Uniform(calls, c.key, c.limit, c.window);
    AdmissionsGrouped(capacity, calls, c.key, c.limit, c.window, c.now);
    LazyRefinesEager(capacity, calls, c.now);
    var entries, h := Run(map[], capacity, calls).0, Admissions(capacity, calls, c.key);
    AdmitsExactly(entries, capacity, c);
    hide Lazy, Run, Admissions, LiveKeys, Uniform, Clocked;
    if c.key in entries && entries[c.key].until > c.now {
      var first := |h| - c.limit;
      assert entries[c.key].count == c.limit <= |h|;
      assert h[first].start == entries[c.key].until - c.window;
      assert Timely(h[first], c.window);
    }
  }
}
