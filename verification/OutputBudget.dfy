/** The output budget that the two streams of a sandboxed process share, and what it means
    for a whole batch (sandbox/engine.go, sandbox/server.go:288-355). Output is a byte
    string, as in Utf8. */
module OutputBudget {
  import opened Utf8

  datatype Stream = Out | Err

  datatype Write = Write(stream: Stream, bytes: string)

  // ------------------------------------------------------------------- writing

  /** The fields of the budget, and how often it has cancelled the run. */
  datatype Account = Account(remaining: int, exceeded: bool, cancels: nat)

  function Cancelled(a: Account): Account { a.(exceeded := true, cancels := a.cancels + 1) }

  /** One Write: the account and the buffer afterwards. */
  function AfterWrite(a: Account, dst: string, p: string): (Account, string) {
    if a.remaining <= 0 then (if a.exceeded then a else Cancelled(a), dst)
    else if |p| <= a.remaining then (a.(remaining := a.remaining - |p|), dst + p)
    else (Cancelled(a.(remaining := 0)), dst + p[..a.remaining])
  }

  class Budget {
    var remaining: int
    var exceeded: bool
    var cancels: nat

    constructor (limit: int)
      ensures Value() == Account(limit, false, 0)
    {
      remaining, exceeded, cancels := limit, false, 0;
    }

    function Value(): Account
      reads this
    {
      Account(remaining, exceeded, cancels)
    }
  }

  class BudgetWriter {
    const budget: Budget
    var dst: string

    constructor (budget: Budget)
      ensures this.budget == budget && dst == ""
    {
      this.budget := budget;
      dst := "";
    }

    /** budgetWriter.Write */
    method Put(p: string) returns (n: nat)
      modifies this, budget
      ensures n == |p|
      ensures (budget.Value(), dst) == AfterWrite(old(budget.Value()), old(dst), p)
    {
      n := |p|;
      if budget.remaining <= 0 {
        if !budget.exceeded {
          budget.exceeded := true;
          budget.cancels := budget.cancels + 1;
        }
        return;
      }
      var allowed := |p|;
      if allowed > budget.remaining {
        allowed := budget.remaining;
      }
      assert p[..|p|] == p;
      dst := dst + p[..allowed];
      budget.remaining := budget.remaining - allowed;
      if allowed < |p| {
        budget.exceeded := true;
        budget.cancels := budget.cancels + 1;
      }
    }
  }

  /** What a process leaves behind: the account and both buffers. */
  datatype Capture = Capture(account: Account, out: string, err: string)

  function Captured(limit: int, writes: seq<Write>): Capture {
    if writes == [] then Capture(Account(limit, false, 0), "", "")
    else
      var c := Captured(limit, writes[..|writes| - 1]);
      var w := writes[|writes| - 1];
      var after := AfterWrite(c.account, if w.stream.Out? then c.out else c.err, w.bytes);
      if w.stream.Out? then Capture(after.0, after.1, c.err) else Capture(after.0, c.out, after.1)
  }

  /** A run in which the two writers are called in the order of writes. */
  method CaptureRun(limit: int, writes: seq<Write>) returns (c: Capture)
    ensures c == Captured(limit, writes)
  {
    var budget := new Budget(limit);
    var stdout := new BudgetWriter(budget);
    var stderr := new BudgetWriter(budget);
    for i := 0 to |writes|
      invariant stdout.budget == stderr.budget == budget && stdout != stderr
      invariant Capture(budget.Value(), stdout.dst, stderr.dst) == Captured(limit, writes[..i])
    {
      assert writes[..i + 1][..i] == writes[..i];
      var w := writes[i];
      if w.stream.Out? {
        var n := stdout.Put(w.bytes);
      } else {
        var n := stderr.Put(w.bytes);
      }
    }
    assert writes[..|writes|] == writes;
    c := Capture(budget.Value(), stdout.dst, stderr.dst);
  }

  // ----------------------------------------------------------- what is captured

  datatype Tagged = Tagged(stream: Stream, byte: char)

  function Tag(stream: Stream, bytes: string): seq<Tagged> {
    seq(|bytes|, i requires 0 <= i < |bytes| => Tagged(stream, bytes[i]))
  }

  /** Everything written, byte by byte, in the order of the writes. */
  function Log(writes: seq<Write>): seq<Tagged> {
    if writes == [] then []
    else Log(writes[..|writes| - 1]) + Tag(writes[|writes| - 1].stream, writes[|writes| - 1].bytes)
  }

  /** The bytes of one stream. */
  function Bytes(log: seq<Tagged>, stream: Stream): string {
    if log == [] then ""
    else
      Bytes(log[..|log| - 1], stream)
      + (if log[|log| - 1].stream == stream then [log[|log| - 1].byte] else "")
  }

  function Kept(limit: int, total: nat): (n: nat)
    ensures n <= total
  {
    if limit <= 0 then 0 else if limit < total then limit else total
  }

  /** A write of no bytes arrives when nothing is left. */
  predicate EmptyWriteAtEnd(limit: int, writes: seq<Write>) {
    writes != []
    && (EmptyWriteAtEnd(limit, writes[..|writes| - 1])
        || (writes[|writes| - 1].bytes == "" && |Log(writes[..|writes| - 1])| >= limit))
  }

  lemma {:induction false} BytesConcat(a: seq<Tagged>, b: seq<Tagged>, stream: Stream)
    ensures Bytes(a + b, stream) == Bytes(a, stream) + Bytes(b, stream)
  {
    if b == [] {
      assert a + b == a;
    } else {
      assert (a + b)[..|a + b| - 1] == a + b[..|b| - 1];
      BytesConcat(a, b[..|b| - 1], stream);
    }
  }

  lemma {:induction false} BytesOfTag(stream: Stream, bytes: string, other: Stream)
    ensures Bytes(Tag(stream, bytes), other) == if other == stream then bytes else ""
  {
    if bytes != "" {
      var shorter := bytes[..|bytes| - 1];
      assert Tag(stream, bytes)[..|bytes| - 1] == Tag(stream, shorter);
      BytesOfTag(stream, shorter, other);
    }
  }

  lemma {:induction false} BytesShorten(log: seq<Tagged>)
    ensures |Bytes(log, Out)| + |Bytes(log, Err)| == |log|
  {
    if log != [] {
      BytesShorten(log[..|log| - 1]);
    }
  }

  /** The step from one captured prefix to the next. */
  lemma PrefixStep(limit: int, log: seq<Tagged>, w: Write)
    ensures var before, more := log[..Kept(limit, |log|)], Tag(w.stream, w.bytes);
            var room := if limit <= |log| then 0 else limit - |log|;
            var taken := if |w.bytes| <= room then |w.bytes| else room;
            (log + more)[..Kept(limit, |log + more|)] == before + Tag(w.stream, w.bytes[..taken])
  {
    var more := Tag(w.stream, w.bytes);
    var room := if limit <= |log| then 0 else limit - |log|;
    var taken := if |w.bytes| <= room then |w.bytes| else room;
    assert Tag(w.stream, w.bytes[..taken]) == more[..taken];
    if limit > |log| {
      assert log[..Kept(limit, |log|)] == log;
    }
  }

  /** One more tagged write extends the bytes of its own stream. */
  lemma BytesGrow(kept: seq<Tagged>, stream: Stream, bytes: string, other: Stream)
    ensures Bytes(kept + Tag(stream, bytes), other) == Bytes(kept, other) + (if other == stream then bytes else "")
  {
    hide Bytes, Tag;
    BytesConcat(kept, Tag(stream, bytes), other);
    BytesOfTag(stream, bytes, other);
  }

  /** What one write adds to the buffers and takes from the account. */
  lemma CaptureStep(limit: int, writes: seq<Write>, taken: nat)
    requires writes != []
    requires var a, p := Captured(limit, writes[..|writes| - 1]).account, writes[|writes| - 1].bytes;
             taken == if a.remaining <= 0 then 0 else if |p| <= a.remaining then |p| else a.remaining
    ensures var before, c, w := Captured(limit, writes[..|writes| - 1]), Captured(limit, writes), writes[|writes| - 1];
            && taken <= |w.bytes|
            && c.out == before.out + (if w.stream.Out? then w.bytes[..taken] else "")
            && c.err == before.err + (if w.stream.Err? then w.bytes[..taken] else "")
            && c.account.remaining == before.account.remaining - taken
  {
    hide AfterWrite;
    var before, w := Captured(limit, writes[..|writes| - 1]), writes[|writes| - 1];
    WriteTakes(before.account, if w.stream.Out? then before.out else before.err, w.bytes, taken);
  }

  /** For any interleaving of writes to the two streams: the buffers hold, stream by stream,
      exactly the first limit bytes of the interleaved log. */
  lemma {:induction false} CapturesPrefix(limit: int, writes: seq<Write>)
    ensures var log := Log(writes);
            var kept := log[..Kept(limit, |log|)];
            var c := Captured(limit, writes);
            && c.out == Bytes(kept, Out) && c.err == Bytes(kept, Err)
            && c.account.remaining == limit - Kept(limit, |log|)
  {
    if writes != [] {
      hide Captured, Bytes, Tag, AfterWrite;
      var shorter, w := writes[..|writes| - 1], writes[|writes| - 1];
      CapturesPrefix(limit, shorter);
      var log := Log(shorter);
      PrefixStep(limit, log, w);
      TagKeepsLength(w.stream, w.bytes);
      var room := if limit <= |log| then 0 else limit - |log|;
      var taken := if |w.bytes| <= room then |w.bytes| else room;
      CaptureStep(limit, writes, taken);
      BytesGrow(log[..Kept(limit, |log|)], w.stream, w.bytes[..taken], Out);
      BytesGrow(log[..Kept(limit, |log|)], w.stream, w.bytes[..taken], Err);
    }
  }

  lemma TagKeepsLength(stream: Stream, bytes: string)
    ensures |Tag(stream, bytes)| == |bytes|
  {
  }

  lemma WriteTakes(a: Account, dst: string, p: string, taken: nat)
    requires taken == if a.remaining <= 0 then 0 else if |p| <= a.remaining then |p| else a.remaining
    ensures taken <= |p|
    ensures AfterWrite(a, dst, p).1 == dst + p[..taken]
    ensures AfterWrite(a, dst, p).0.remaining == a.remaining - taken
  {
    assert p[..|p|] == p;
  }

  /** Each buffer is a prefix of its own stream. */
  lemma StreamsKeepPrefixes(limit: int, writes: seq<Write>)
    ensures Captured(limit, writes).out <= Bytes(Log(writes), Out)
    ensures Captured(limit, writes).err <= Bytes(Log(writes), Err)
  {
    var log := Log(writes);
    var n := Kept(limit, |log|);
    CapturesPrefix(limit, writes);
    assert log == log[..n] + log[n..];
    BytesConcat(log[..n], log[n..], Out);
    BytesConcat(log[..n], log[n..], Err);
  }

  /** The run is cancelled once and only if the budget was exceeded, and the budget counts
      as exceeded exactly when more than limit bytes were written, or an empty write came
      when the budget was used up. */
  lemma {:induction false} CancelsOnce(limit: nat, writes: seq<Write>)
    ensures var a := Captured(limit, writes).account;
            && a.cancels == (if a.exceeded then 1 else 0)
            && (a.exceeded <==> |Log(writes)| > limit || EmptyWriteAtEnd(limit, writes))
  {
    if writes != [] {
      var shorter, w := writes[..|writes| - 1], writes[|writes| - 1];
      CancelsOnce(limit, shorter);
      CapturesPrefix(limit, shorter);
      hide Bytes, Tag;
      var a := Captured(limit, shorter).account;
      assert |Tag(w.stream, w.bytes)| == |w.bytes|;
      assert |Log(writes)| == |Log(shorter)| + |w.bytes|;
      assert a.remaining == limit - Kept(limit, |Log(shorter)|);
      EmptyOnlyAtEnd(limit, shorter);
    }
  }

  lemma {:induction false} EmptyOnlyAtEnd(limit: nat, writes: seq<Write>)
    ensures EmptyWriteAtEnd(limit, writes) ==> |Log(writes)| >= limit
  {
    if writes != [] {
      EmptyOnlyAtEnd(limit, writes[..|writes| - 1]);
    }
  }

  /** ... so, without empty writes, exactly when more than limit bytes were written. */
  lemma ExceededMeansTooMuch(limit: nat, writes: seq<Write>)
    requires forall i | 0 <= i < |writes| :: writes[i].bytes != ""
    ensures Captured(limit, writes).account.exceeded <==> |Log(writes)| > limit
  {
    CancelsOnce(limit, writes);
    NoEmptyWrite(limit, writes);
  }

  lemma {:induction false} NoEmptyWrite(limit: nat, writes: seq<Write>)
    requires forall i | 0 <= i < |writes| :: writes[i].bytes != ""
    ensures !EmptyWriteAtEnd(limit, writes)
  {
    if writes != [] {
      NoEmptyWrite(limit, writes[..|writes| - 1]);
    }
  }

  // ------------------------------------------------------------------- a batch

  datatype Verdict = OK | OLE | TLE | MLE | RE

  /** One case as the jail ran it. */
  datatype Run =
    | Fault
    | Finished(writes: seq<Write>, exitCode: int, timedOut: bool, memoryExceeded: bool, sandboxLog: string)

  datatype Case = Case(stdout: string, stderr: string, verdict: Verdict)

  const LOG_BYTES := 4096

  function BoundedLog(value: string, maxBytes: nat): string {
    var text := TrimBytes(value);
    if |text| <= maxBytes then text else "..." + text[|text| - maxBytes..]
  }

  /** runCase */
  function CaseOf(limit: int, r: Run): Case
    requires r.Finished?
  {
    var c := Captured(limit, r.writes);
    var exceeded := c.account.exceeded;
    Case(c.out,
         if r.exitCode != 0 && !exceeded && TrimBytes(c.err) == "" then BoundedLog(r.sandboxLog, LOG_BYTES) else c.err,
         if exceeded then OLE else if r.timedOut then TLE else if r.memoryExceeded then MLE
         else if r.exitCode != 0 then RE else OK)
  }

  /** The cases before the first fault. */
  function CasesOf(limit: int, runs: seq<Run>): seq<Case> {
    if runs == [] || runs[0].Fault? then [] else [CaseOf(limit, runs[0])] + CasesOf(limit, runs[1..])
  }

  /** The loop of Execute. */
  method ExecuteCases(limit: int, runs: seq<Run>) returns (results: seq<Case>, ok: bool)
    ensures results == CasesOf(limit, runs)
    ensures ok <==> forall i | 0 <= i < |runs| :: runs[i].Finished?
  {
    hide CaseOf;
    results := [];
    for i := 0 to |runs|
      invariant results + CasesOf(limit, runs[i..]) == CasesOf(limit, runs)
      invariant forall k | 0 <= k < i :: runs[k].Finished?
    {
      assert runs[i..][1..] == runs[i + 1..];
      if runs[i].Fault? {
        assert results + [] == results;
        return results, false;
      }
      var c := RunCase(limit, runs[i]);
      assert (results + [c]) + CasesOf(limit, runs[i + 1..]) == results + ([c] + CasesOf(limit, runs[i + 1..]));
      results := results + [c];
    }
    assert results + [] == results;
    ok := true;
  }

  method RunCase(limit: int, r: Run) returns (c: Case)
    requires r.Finished?
    ensures c == CaseOf(limit, r)
  {
    hide Captured, TrimBytes;
    var capture := CaptureRun(limit, r.writes);
    var stderr := capture.err;
    if r.exitCode != 0 && !capture.account.exceeded && TrimBytes(stderr) == "" {
      stderr := BoundedLog(r.sandboxLog, LOG_BYTES);
    }
    var verdict: Verdict;
    if capture.account.exceeded {
      verdict := OLE;
    } else if r.timedOut {
      verdict := TLE;
    } else if r.memoryExceeded {
      verdict := MLE;
    } else if r.exitCode != 0 {
      verdict := RE;
    } else {
      verdict := OK;
    }
    c := Case(capture.out, stderr, verdict);
  }

  lemma LogIsBounded(value: string, maxBytes: nat)
    ensures |BoundedLog(value, maxBytes)| <= maxBytes + 3
  {
    hide TrimBytes;
  }

  /** One case returns at most limit bytes and a truncated log. */
  lemma CaseIsBounded(limit: nat, r: Run)
    requires r.Finished?
    ensures |CaseOf(limit, r).stdout| + |CaseOf(limit, r).stderr| <= limit + LOG_BYTES + 3
  {
    var log := Log(r.writes);
    CapturesPrefix(limit, r.writes);
    LogIsBounded(r.sandboxLog, LOG_BYTES);
    hide Captured, TrimBytes, BoundedLog, Log, Bytes;
    BytesShorten(log[..Kept(limit, |log|)]);
  }

  /** What one case returns, in terms of what the process wrote and how it ended: the first
      limit bytes, stream by stream; the end of the sandbox log in place of an empty error
      stream of a failed run; and the verdicts in their order. */
  lemma CaseExactly(limit: nat, r: Run)
    requires r.Finished?
    ensures var log := Log(r.writes);
            var kept := log[..Kept(limit, |log|)];
            var over := |log| > limit || EmptyWriteAtEnd(limit, r.writes);
            var c := CaseOf(limit, r);
            && c.stdout == Bytes(kept, Out)
            && c.stderr == (if r.exitCode != 0 && !over && TrimBytes(Bytes(kept, Err)) == ""
                            then BoundedLog(r.sandboxLog, 4096) else Bytes(kept, Err))
            && (c.verdict == OLE <==> over)
            && (c.verdict == TLE <==> !over && r.timedOut)
            && (c.verdict == MLE <==> !over && !r.timedOut && r.memoryExceeded)
            && (c.verdict == RE <==> !over && !r.timedOut && !r.memoryExceeded && r.exitCode != 0)
            && (c.verdict == OK <==> !over && !r.timedOut && !r.memoryExceeded && r.exitCode == 0)
  {
    hide Captured, Log, Bytes, TrimBytes, BoundedLog, EmptyWriteAtEnd;
    CapturesPrefix(limit, r.writes);
    CancelsOnce(limit, r.writes);
  }

  /** A long log is cut from the front. */
  lemma LogKeepsEnd(value: string, maxBytes: nat)
    ensures var text := TrimBytes(value);
            if |text| <= maxBytes then BoundedLog(value, maxBytes) == text
            else
              exists front, end ::
                text == front + end && |end| == maxBytes && BoundedLog(value, maxBytes) == "..." + end
  {
    hide TrimBytes;
    var text := TrimBytes(value);
    if |text| > maxBytes {
      var n := |text| - maxBytes;
      assert text == text[..n] + text[n..];
    }
  }

  /** One case a run, in order, up to the first fault. */
  lemma {:induction false} CasesAreRuns(limit: int, runs: seq<Run>)
    ensures var n := |CasesOf(limit, runs)|;
            && n <= |runs| && (n < |runs| ==> runs[n].Fault?)
            && forall k | 0 <= k < n :: runs[k].Finished? && CasesOf(limit, runs)[k] == CaseOf(limit, runs[k])
  {
    hide CaseOf;
    if runs != [] && runs[0].Finished? {
      CasesAreRuns(limit, runs[1..]);
    }
  }

  function OutputOf(cases: seq<Case>): nat {
    if cases == [] then 0 else |cases[0].stdout| + |cases[0].stderr| + OutputOf(cases[1..])
  }

  lemma {:induction false} CasesAreBounded(limit: nat, runs: seq<Run>)
    ensures |CasesOf(limit, runs)| <= |runs|
    ensures OutputOf(CasesOf(limit, runs)) <= |runs| * limit + |CasesOf(limit, runs)| * (LOG_BYTES + 3)
  {
    hide CaseOf;
    if runs != [] {
      CasesAreBounded(limit, runs[1..]);
      assert |runs| * limit == |runs[1..]| * limit + limit;
      if runs[0].Finished? {
        CaseIsBounded(limit, runs[0]);
        assert CasesOf(limit, runs)[1..] == CasesOf(limit, runs[1..]);
      }
    }
  }

  // ------------------------------------------------------------------ admission

  datatype Limits = Limits(timeMs: int, memoryMb: int, outputBytes: int, processes: int)

  datatype Ceiling = Ceiling(timeMs: int, memoryMb: int)

  datatype Refusal = BadRequest | EntityTooLarge | DeploymentLimit

  datatype Admission = Admitted | Refused(why: Refusal)

  const MAX_CASES := 256
  const MAX_INPUT_BYTES := 32 * 1024 * 1024
  const MAX_INPUTS_BYTES := 32 * 1024 * 1024
  const MAX_BATCH_MS := 120000
  const MAX_BATCH_OUTPUT := 64 * 1024 * 1024

  predicate ValidLimits(l: Limits) {
    && 1 <= l.timeMs <= 30000 && 16 <= l.memoryMb <= 4096
    && 1 <= l.outputBytes <= MAX_BATCH_OUTPUT && 1 <= l.processes <= 64
  }

  function InputBytes(inputs: seq<string>): nat {
    if inputs == [] then 0 else InputBytes(inputs[..|inputs| - 1]) + |inputs[|inputs| - 1]|
  }

  /** Which complaint comes first. */
  function Decision(inputs: seq<string>, l: Limits, ceiling: Ceiling): Admission {
    if |inputs| == 0 || |inputs| > MAX_CASES then Refused(BadRequest)
    else if InputBytes(inputs) > MAX_INPUTS_BYTES then Refused(EntityTooLarge)
    else if !ValidLimits(l) then Refused(BadRequest)
    else if l.timeMs > ceiling.timeMs || l.memoryMb > ceiling.memoryMb then Refused(DeploymentLimit)
    else if |inputs| * l.timeMs > MAX_BATCH_MS || |inputs| * l.outputBytes > MAX_BATCH_OUTPUT then Refused(BadRequest)
    else Admitted
  }

  /** The part of validateExecuteRequest that concerns the batch. */
  method AdmitBatch(inputs: seq<string>, l: Limits, ceiling: Ceiling) returns (a: Admission)
    ensures a == Decision(inputs, l, ceiling)
  {
    if |inputs| == 0 || |inputs| > MAX_CASES {
      return Refused(BadRequest);
    }
    var total := 0;
    for i := 0 to |inputs|
      invariant total == InputBytes(inputs[..i]) <= MAX_INPUTS_BYTES
    {
      assert inputs[..i + 1][..i] == inputs[..i];
      InputBytesGrow(inputs, i + 1);
      if |inputs[i]| > MAX_INPUT_BYTES {
        return Refused(EntityTooLarge);
      }
      total := total + |inputs[i]|;
      if total > MAX_INPUTS_BYTES {
        return Refused(EntityTooLarge);
      }
    }
    assert inputs[..|inputs|] == inputs;
    if !ValidLimits(l) {
      return Refused(BadRequest);
    }
    if l.timeMs > ceiling.timeMs {
      return Refused(DeploymentLimit);
    }
    if l.memoryMb > ceiling.memoryMb {
      return Refused(DeploymentLimit);
    }
    if |inputs| * l.timeMs > MAX_BATCH_MS {
      return Refused(BadRequest);
    }
    if |inputs| * l.outputBytes > MAX_BATCH_OUTPUT {
      return Refused(BadRequest);
    }
    a := Admitted;
  }

  lemma {:induction false} InputBytesGrow(inputs: seq<string>, n: nat)
    requires n <= |inputs|
    ensures InputBytes(inputs[..n]) <= InputBytes(inputs)
  {
    if n == |inputs| {
      assert inputs[..n] == inputs;
    } else {
      InputBytesGrow(inputs[..|inputs| - 1], n);
      assert inputs[..|inputs| - 1][..n] == inputs[..n];
    }
  }

  /** Whatever the programs print, an admitted batch returns at most 64 MiB of output, plus
      4099 bytes for each case it returns. */
  lemma BatchIsBounded(inputs: seq<string>, l: Limits, ceiling: Ceiling, runs: seq<Run>)
    requires |runs| == |inputs| && Decision(inputs, l, ceiling) == Admitted
    ensures OutputOf(CasesOf(l.outputBytes, runs)) <= MAX_BATCH_OUTPUT + 4099 * |CasesOf(l.outputBytes, runs)|
  {
    CasesAreBounded(l.outputBytes, runs);
  }

  /** The bytes of a batch are those of its parts, and one input counts its own. */
  lemma {:induction false} InputBytesAdd(a: seq<string>, b: seq<string>, input: string)
    ensures InputBytes(a + b) == InputBytes(a) + InputBytes(b)
    ensures InputBytes([input]) == |input|
  {
    assert [input][..0] == [];
    if b == [] {
      assert a + b == a;
    } else {
      assert (a + b)[..|a + b| - 1] == a + b[..|b| - 1];
      InputBytesAdd(a, b[..|b| - 1], input);
    }
  }

  /** Exactly these batches are admitted. */
  lemma AdmittedExactly(inputs: seq<string>, l: Limits, ceiling: Ceiling)
    ensures Decision(inputs, l, ceiling) == Admitted <==>
            && 1 <= |inputs| <= 256 && InputBytes(inputs) <= 0x200_0000
            && 1 <= l.timeMs <= 30000 && 16 <= l.memoryMb <= 4096
            && 1 <= l.outputBytes <= 0x400_0000 && 1 <= l.processes <= 64
            && l.timeMs <= ceiling.timeMs && l.memoryMb <= ceiling.memoryMb
            && |inputs| * l.timeMs <= 120000 && |inputs| * l.outputBytes <= 0x400_0000
  {
    hide InputBytes;
  }
}
