/** Sandbox requests as interleaved steps over a semaphore and an append-only audit log
    (sandbox/server.go:121-231, sandbox/audit.go:138-181, 209-268). The audit sink is
    enabled. */
module SandboxAudit {
  import opened Wrappers

  type RunId = nat

  // ------------------------------------------------------------------ audit sink

  datatype Status = Started | Success | CompileError | Infrastructure | Cancelled

  datatype Record = Record(run: RunId, terminal: bool, status: Status)

  /** How a write of one record ends: it is appended; it fails before anything reaches the
      file; it fails although the record has reached the file, for instance in Sync; it fails
      or falls short when a part of the record has reached the file, the newline missing. */
  datatype WriteOutcome = Stored | Lost | StoredButFailed | Torn

  /** What one write left in the file: the whole record and its newline, or a part. */
  datatype Chunk = Chunk(record: Record, whole: bool)

  function AfterWrite(log: seq<Chunk>, r: Record, o: WriteOutcome): (seq<Chunk>, bool) {
    (if o.Lost? then log else log + [Chunk(r, !o.Torn?)], o.Stored?)
  }

  class AuditSink {
    var log: seq<Chunk>
    var isOpen: bool

    constructor ()
      ensures log == [] && isOpen
    {
      log, isOpen := [], true;
    }

    /** auditSink.write; file is what the file system does with the write. */
    method Append(r: Record, file: WriteOutcome) returns (ok: bool)
      modifies this
      ensures isOpen == old(isOpen)
      ensures (log, ok) == AfterWrite(old(log), r, if old(isOpen) then file else Lost)
    {
      if !isOpen {
        return false;
      }
      if !file.Lost? {
        log := log + [Chunk(r, !file.Torn?)];
      }
      ok := file.Stored?;
    }

    method Close()
      modifies this
      ensures !isOpen && log == old(log)
    {
      isOpen := false;
    }
  }

  /** Errors of an operation: a cancelled or expired context, a service error with its code,
      anything else. */
  datatype Failure = Context | Service(code: string) | Other

  /** terminalAuditStatus */
  function TerminalStatus(failure: Option<Failure>, compiled: bool): Status {
    match failure
    case None => if compiled then Success else CompileError
    case Some(Context) => Cancelled
    case Some(Service(code)) => if code == "request_cancelled" then Cancelled else Infrastructure
    case Some(Other) => Infrastructure
  }

  // ------------------------------------------------------------------- semaphore

  datatype Grant = Granted | Busy | Abandoned

  /** The select of acquire: a free slot and a finished context may both be ready, and then
      either is taken; Busy only when neither is. */
  function AfterAcquire(used: nat, cap: nat, contextDone: bool, prefersContext: bool): (Grant, nat) {
    if contextDone && (prefersContext || used >= cap) then (Abandoned, used)
    else if used < cap then (Granted, used + 1)
    else (Busy, used)
  }

  class Semaphore {
    const cap: nat
    var used: nat

    constructor (maxConcurrent: int)
      ensures cap >= 1 && cap == (if maxConcurrent < 1 then 1 else maxConcurrent) && used == 0
    {
      cap := if maxConcurrent < 1 then 1 else maxConcurrent;
      used := 0;
    }

    method Acquire(contextDone: bool, prefersContext: bool) returns (g: Grant)
      modifies this
      ensures (g, used) == AfterAcquire(old(used), cap, contextDone, prefersContext)
      ensures g == Busy <==> old(used) >= cap && !contextDone
      ensures g == Granted <==> old(used) < cap && !(contextDone && prefersContext)
      ensures g == Granted ==> used == old(used) + 1
      ensures g != Granted ==> used == old(used)
      ensures g == Abandoned ==> contextDone
      ensures old(used) <= cap ==> used <= cap
    {
      if contextDone && (prefersContext || used >= cap) {
        return Abandoned;
      }
      if used < cap {
        used := used + 1;
        return Granted;
      }
      g := Busy;
    }

    method Release()
      requires used > 0
      modifies this
      ensures used == old(used) - 1
    {
      used := used - 1;
    }
  }

  // -------------------------------------------------------------------- requests

  /** What the engine and the preparation of the response came to. */
  datatype Result = Result(failure: Option<Failure>, compiled: bool)

  datatype Phase =
    | Arrived
    | Holding
    | Attempted
    | Running
    | Finished(result: Result)
    | Recorded(result: Result)
    | Replied(ok: bool)
    | Closed(ok: bool)

  datatype Request = Request(phase: Phase, run: Option<RunId>)

  datatype World = World(
    cap: nat, used: nat, requests: map<nat, Request>, log: seq<Chunk>, runs: set<RunId>, started: set<RunId>)

  datatype Event =
    | Arrive(id: nat)
    | Acquire(id: nat, contextDone: bool, prefersContext: bool)
    | Refuse(id: nat)
    | WriteAttempt(id: nat, run: RunId, outcome: WriteOutcome)
    | CallEngine(id: nat)
    | EngineReturns(id: nat, result: Result)
    | WriteTerminal(id: nat, outcome: WriteOutcome)
    | Respond(id: nat)
    | Release(id: nat)

  function Initial(cap: nat): World { World(cap, 0, map[], [], {}, {}) }

  /** The request is between acquire and release. */
  predicate Holds(p: Phase) { !p.Arrived? && !p.Closed? }

  predicate At(w: World, id: nat, p: Phase -> bool) { id in w.requests && p(w.requests[id].phase) }

  /** The step a handler takes next; run ids never repeat. */
  predicate Enabled(w: World, e: Event) {
    match e
    case Arrive(id) => id !in w.requests
    case Acquire(id, _, _) => At(w, id, (p: Phase) => p.Arrived?)
    case Refuse(id) => At(w, id, (p: Phase) => p.Holding?)
    case WriteAttempt(id, run, _) => At(w, id, (p: Phase) => p.Holding?) && run !in w.runs
    case CallEngine(id) => At(w, id, (p: Phase) => p.Attempted?)
    case EngineReturns(id, _) => At(w, id, (p: Phase) => p.Running?)
    case WriteTerminal(id, _) => At(w, id, (p: Phase) => p.Finished?)
    case Respond(id) => At(w, id, (p: Phase) => p.Recorded?)
    case Release(id) => At(w, id, (p: Phase) => p.Replied?) && w.used > 0
  }

  function Move(w: World, id: nat, p: Phase): World
    requires id in w.requests
  {
    w.(requests := w.requests[id := w.requests[id].(phase := p)])
  }

  function Apply(w: World, e: Event): World
    requires Enabled(w, e)
  {
    match e
    case Arrive(id) => w.(requests := w.requests[id := Request(Arrived, None)])
    case Acquire(id, done, prefers) =>
      var grant := AfterAcquire(w.used, w.cap, done, prefers);
      Move(w, id, if grant.0.Granted? then Holding else Closed(false)).(used := grant.1)
    case Refuse(id) => Move(w, id, Replied(false))
    case WriteAttempt(id, run, o) =>
      var written := AfterWrite(w.log, Record(run, false, Started), o);
      w.(requests := w.requests[id := Request(if written.1 then Attempted else Replied(false), Some(run))],
         log := written.0, runs := w.runs + {run})
    case CallEngine(id) =>
      if w.requests[id].run.Some? then Move(w, id, Running).(started := w.started + {w.requests[id].run.value}) else w
    case EngineReturns(id, result) => Move(w, id, Finished(result))
    case WriteTerminal(id, o) =>
      if w.requests[id].run.None? then w
      else
        var result := w.requests[id].phase.result;
        var r := Record(w.requests[id].run.value, true, TerminalStatus(result.failure, result.compiled));
        var written := AfterWrite(w.log, r, o);
        Move(w, id, if written.1 then Recorded(result) else Replied(false)).(log := written.0)
    case Respond(id) => Move(w, id, Replied(w.requests[id].phase.result.failure.None?))
    case Release(id) => Move(w, id, Closed(w.requests[id].phase.ok)).(used := w.used - 1)
  }

  predicate Possible(w: World, es: seq<Event>)
    decreases es
  {
    es == [] || (Enabled(w, es[0]) && Possible(Apply(w, es[0]), es[1..]))
  }

  function Final(w: World, es: seq<Event>): World
    requires Possible(w, es)
    decreases es
  {
    if es == [] then w else Final(Apply(w, es[0]), es[1..])
  }

  // ------------------------------------------------------------------- invariant

  function Holders(requests: map<nat, Request>): set<nat> {
    set id | id in requests && Holds(requests[id].phase)
  }

  /** The records of one run that were written whole, in order. */
  function Of(log: seq<Chunk>, run: RunId): seq<Record> {
    if log == [] then []
    else
      var last := log[|log| - 1];
      Of(log[..|log| - 1], run) + (if last.whole && last.record.run == run then [last.record] else [])
  }

  /** Nothing, one attempt, or one attempt followed by one terminal record. */
  predicate Shape(rs: seq<Record>) {
    && |rs| <= 2
    && (|rs| >= 1 ==> !rs[0].terminal && rs[0].status == Started)
    && (|rs| == 2 ==> rs[1].terminal)
  }

  predicate Served(s: Status) { s == Success || s == CompileError }

  /** What the log says of the run of a request in a phase. */
  predicate Backed(rs: seq<Record>, q: Request) {
    match q.phase
    case Arrived => q.run == None
    case Holding => q.run == None
    case Attempted => q.run.Some? && |rs| == 1
    case Running => q.run.Some? && |rs| == 1
    case Finished(_) => q.run.Some? && |rs| == 1
    case Recorded(result) =>
      q.run.Some? && |rs| == 2 && rs[1].status == TerminalStatus(result.failure, result.compiled)
    case Replied(ok) => ok ==> q.run.Some? && |rs| == 2 && Served(rs[1].status)
    case Closed(ok) => ok ==> q.run.Some? && |rs| == 2 && Served(rs[1].status)
  }

  function RecordsFor(w: World, id: nat): seq<Record>
    requires id in w.requests
  {
    if w.requests[id].run.None? then [] else Of(w.log, w.requests[id].run.value)
  }

  ghost predicate SlotsMatch(w: World) { w.used == |Holders(w.requests)| <= w.cap }

  ghost predicate LogShaped(w: World) {
    forall run: RunId :: Shape(Of(w.log, run)) && (run !in w.runs ==> Of(w.log, run) == [])
  }

  ghost predicate RequestsBacked(w: World) { forall id | id in w.requests :: Backed(RecordsFor(w, id), w.requests[id]) }

  ghost predicate RunsOwned(w: World) {
    && (forall id | id in w.requests && w.requests[id].run.Some? :: w.requests[id].run.value in w.runs)
    && forall i, j | i in w.requests && j in w.requests && i != j && w.requests[i].run.Some? ::
         w.requests[i].run != w.requests[j].run
  }

  ghost predicate StartsBacked(w: World) { forall run | run in w.started :: run in w.runs && Of(w.log, run) != [] }

  ghost predicate Inv(w: World) {
    SlotsMatch(w) && LogShaped(w) && RequestsBacked(w) && RunsOwned(w) && StartsBacked(w)
  }

  lemma OfAppend(log: seq<Chunk>, c: Chunk, run: RunId)
    ensures Of(log + [c], run) == Of(log, run) + (if c.whole && c.record.run == run then [c.record] else [])
  {
    assert (log + [c])[..|log + [c]| - 1] == log;
  }

  lemma HoldersUpdate(requests: map<nat, Request>, id: nat, q: Request)
    ensures Holders(requests[id := q]) == if Holds(q.phase) then Holders(requests) + {id} else Holders(requests) - {id}
    ensures id in requests && Holds(requests[id].phase) ==> |Holders(requests)| > 0
  {
    if id in requests && Holds(requests[id].phase) {
      assert id in Holders(requests);
    }
  }

  function Units(w: World, id: nat): nat { if id in w.requests && Holds(w.requests[id].phase) then 1 else 0 }

  /** A step moves one request, and a slot exactly with it. */
  lemma StepMovesSlot(w: World, e: Event)
    requires Enabled(w, e)
    ensures var after := Apply(w, e);
            && e.id in after.requests && after.requests == w.requests[e.id := after.requests[e.id]]
            && after.cap == w.cap && after.used - w.used == Units(after, e.id) - Units(w, e.id)
            && (after.used > w.used ==> after.used <= w.cap)
  {
    hide TerminalStatus, AfterWrite;
  }

  lemma SlotsStep(w: World, e: Event)
    requires Inv(w) && Enabled(w, e)
    ensures SlotsMatch(Apply(w, e))
  {
    hide Apply, Enabled, LogShaped, RequestsBacked, RunsOwned, StartsBacked, Holders;
    StepMovesSlot(w, e);
    var after := Apply(w, e);
    HoldersUpdate(w.requests, e.id, after.requests[e.id]);
    HolderIsCounted(w.requests, e.id);
  }

  lemma HolderIsCounted(requests: map<nat, Request>, id: nat)
    ensures id in Holders(requests) <==> id in requests && Holds(requests[id].phase)
  {
  }

  /** The record a step may write. */
  predicate Writes(w: World, e: Event, r: Record) {
    || (e.WriteAttempt? && e.run !in w.runs && r == Record(e.run, false, Started))
    || (e.WriteTerminal? && At(w, e.id, (p: Phase) => p.Finished?) && w.requests[e.id].run.Some?
        && var result := w.requests[e.id].phase.result;
           r == Record(w.requests[e.id].run.value, true, TerminalStatus(result.failure, result.compiled)))
  }

  /** The log keeps what it holds and gains at most one chunk. */
  lemma LogStep(w: World, e: Event)
    requires Enabled(w, e)
    ensures var after := Apply(w, e);
            && after.runs == (if e.WriteAttempt? then w.runs + {e.run} else w.runs)
            && (after.log == w.log
                || (after.log == w.log + [after.log[|w.log|]] && Writes(w, e, after.log[|w.log|].record)))
  {
    hide TerminalStatus, AfterAcquire;
  }

  lemma RunShapedStep(w: World, e: Event, run: RunId)
    requires LogShaped(w) && RequestsBacked(w) && Enabled(w, e)
    ensures var after := Apply(w, e); Shape(Of(after.log, run)) && (run !in after.runs ==> Of(after.log, run) == [])
  {
    hide Apply, Enabled, TerminalStatus, Of;
    LogStep(w, e);
    var after := Apply(w, e);
    assert Shape(Of(w.log, run)) && (run !in w.runs ==> Of(w.log, run) == []);
    if after.log != w.log {
      var c := after.log[|w.log|];
      OfAppend(w.log, c, run);
      if c.record.run == run && e.WriteTerminal? {
        assert Backed(RecordsFor(w, e.id), w.requests[e.id]);
      }
    }
  }

  lemma LogShapedStep(w: World, e: Event)
    requires LogShaped(w) && RequestsBacked(w) && Enabled(w, e)
    ensures LogShaped(Apply(w, e))
  {
    hide Apply, Enabled, Of, Shape, RequestsBacked;
    forall run: RunId
      ensures var after := Apply(w, e); Shape(Of(after.log, run)) && (run !in after.runs ==> Of(after.log, run) == [])
    {
      RunShapedStep(w, e, run);
    }
  }

  lemma OthersKept(w: World, e: Event, id: nat)
    requires Inv(w) && Enabled(w, e) && id in w.requests && id != e.id
    ensures var after := Apply(w, e);
            id in after.requests && after.requests[id] == w.requests[id] && RecordsFor(after, id) == RecordsFor(w, id)
  {
    LogStep(w, e);
    hide SlotsMatch, LogShaped, StartsBacked, TerminalStatus, RequestsBacked;
    var after := Apply(w, e);
    if after.log != w.log && w.requests[id].run.Some? {
      OfAppend(w.log, after.log[|w.log|], w.requests[id].run.value);
    }
  }

  lemma OwnBackedByTerminal(w: World, e: Event)
    requires Inv(w) && Enabled(w, e) && e.WriteTerminal?
    ensures var after := Apply(w, e); e.id in after.requests && Backed(RecordsFor(after, e.id), after.requests[e.id])
  {
    hide SlotsMatch, StartsBacked, RunsOwned, TerminalStatus, Of, LogShaped;
    assert Backed(RecordsFor(w, e.id), w.requests[e.id]);
    var result := w.requests[e.id].phase.result;
    var run := w.requests[e.id].run.value;
    var r := Record(run, true, TerminalStatus(result.failure, result.compiled));
    OfAppend(w.log, Chunk(r, !e.outcome.Torn?), run);
  }

  lemma OwnBackedByAttempt(w: World, e: Event)
    requires Inv(w) && Enabled(w, e) && e.WriteAttempt?
    ensures var after := Apply(w, e); e.id in after.requests && Backed(RecordsFor(after, e.id), after.requests[e.id])
  {
    hide SlotsMatch, StartsBacked, RunsOwned, Of, RequestsBacked, TerminalStatus;
    OfAppend(w.log, Chunk(Record(e.run, false, Started), !e.outcome.Torn?), e.run);
    assert Of(w.log, e.run) == [];
  }

  /** Steps that write nothing. */
  lemma OwnBackedOtherwise(w: World, e: Event)
    requires Inv(w) && Enabled(w, e) && !e.WriteAttempt? && !e.WriteTerminal?
    ensures var after := Apply(w, e); e.id in after.requests && Backed(RecordsFor(after, e.id), after.requests[e.id])
  {
    hide SlotsMatch, StartsBacked, RunsOwned, Of, LogShaped, AfterWrite;
    if e.id in w.requests {
      assert Backed(RecordsFor(w, e.id), w.requests[e.id]);
    }
  }

  lemma OwnBacked(w: World, e: Event)
    requires Inv(w) && Enabled(w, e)
    ensures var after := Apply(w, e); e.id in after.requests && Backed(RecordsFor(after, e.id), after.requests[e.id])
  {
    hide *;
    if e.WriteTerminal? {
      OwnBackedByTerminal(w, e);
    } else if e.WriteAttempt? {
      OwnBackedByAttempt(w, e);
    } else {
      OwnBackedOtherwise(w, e);
    }
  }

  lemma BackedStep(w: World, e: Event)
    requires Inv(w) && Enabled(w, e)
    ensures RequestsBacked(Apply(w, e))
  {
    var after := Apply(w, e);
    forall id | id in after.requests
      ensures Backed(RecordsFor(after, id), after.requests[id])
    {
      if id == e.id {
        OwnBacked(w, e);
      } else {
        assert id in w.requests && Backed(RecordsFor(w, id), w.requests[id]);
        OthersKept(w, e, id);
      }
    }
  }

  lemma RunsOwnedStep(w: World, e: Event)
    requires Inv(w) && Enabled(w, e)
    ensures RunsOwned(Apply(w, e))
  {
    hide SlotsMatch, LogShaped, RequestsBacked, StartsBacked, TerminalStatus, AfterAcquire, AfterWrite;
  }

  lemma StartsStep(w: World, e: Event)
    requires Inv(w) && Enabled(w, e)
    ensures StartsBacked(Apply(w, e))
  {
    LogStep(w, e);
    hide SlotsMatch, LogShaped, TerminalStatus;
    var after := Apply(w, e);
    forall run | run in after.started
      ensures run in after.runs && Of(after.log, run) != []
    {
      if run in w.started {
        if after.log != w.log {
          OfAppend(w.log, after.log[|w.log|], run);
        }
      } else {
        assert e.CallEngine? && Backed(RecordsFor(w, e.id), w.requests[e.id]);
      }
    }
  }

  lemma InvStep(w: World, e: Event)
    requires Inv(w) && Enabled(w, e)
    ensures Inv(Apply(w, e))
  {
    hide Apply, Enabled, SlotsMatch, LogShaped, RequestsBacked, RunsOwned, StartsBacked;
    SlotsStep(w, e);
    LogShapedStep(w, e);
    BackedStep(w, e);
    RunsOwnedStep(w, e);
    StartsStep(w, e);
  }

  lemma {:induction false} InvRun(w: World, es: seq<Event>)
    requires Inv(w) && Possible(w, es)
    ensures Inv(Final(w, es))
    decreases es
  {
    if es != [] {
      InvStep(w, es[0]);
      InvRun(Apply(w, es[0]), es[1..]);
    }
  }

  lemma InitialInv(cap: nat)
    ensures Inv(Initial(cap))
  {
    assert Holders(Initial(cap).requests) == {};
  }

  // -------------------------------------------------------------------- theorems

  /** In every state that any interleaving reaches, the slots in use are the requests between
      acquire and release, and never more than the capacity. */
  lemma SlotsAreHolders(cap: nat, es: seq<Event>)
    requires Possible(Initial(cap), es)
    ensures Final(Initial(cap), es).used == |Holders(Final(Initial(cap), es).requests)| <= cap
  {
    InitialInv(cap);
    InvRun(Initial(cap), es);
    CapKept(Initial(cap), es);
    hide LogShaped, RequestsBacked, RunsOwned, StartsBacked, Final, Possible;
  }

  lemma {:induction false} CapKept(w: World, es: seq<Event>)
    requires Possible(w, es)
    ensures Final(w, es).cap == w.cap
    decreases es
  {
    if es != [] {
      CapKept(Apply(w, es[0]), es[1..]);
      hide Final, Possible, TerminalStatus;
    }
  }

  /** Every run has at most one attempt record, followed by at most one terminal record, and a
      run the engine was called for has its attempt record. */
  lemma RunsAreRecordedOnce(cap: nat, es: seq<Event>, run: RunId)
    requires Possible(Initial(cap), es)
    ensures var w := Final(Initial(cap), es);
            Shape(Of(w.log, run)) && (run in w.started ==> |Of(w.log, run)| >= 1)
  {
    InitialInv(cap);
    InvRun(Initial(cap), es);
    hide SlotsMatch, RequestsBacked, RunsOwned, Final, Possible;
  }

  /** What every reachable state says of a request and its run. */
  lemma ReachedBacked(cap: nat, es: seq<Event>, id: nat)
    requires Possible(Initial(cap), es) && id in Final(Initial(cap), es).requests
    ensures var w := Final(Initial(cap), es);
            && Backed(RecordsFor(w, id), w.requests[id])
            && (w.requests[id].run.Some? ==> RecordsFor(w, id) == Of(w.log, w.requests[id].run.value)
                                             && Shape(Of(w.log, w.requests[id].run.value)))
  {
    hide SlotsMatch, RunsOwned, StartsBacked, Final, Possible, Shape, Backed, Of;
    InitialInv(cap);
    InvRun(Initial(cap), es);
  }

  /** When the engine is called, the attempt of that run stands in the log and nothing else
      of that run does. */
  lemma EngineAfterAttempt(cap: nat, es: seq<Event>, id: nat)
    requires Possible(Initial(cap), es) && Enabled(Final(Initial(cap), es), CallEngine(id))
    ensures var w := Final(Initial(cap), es);
            && w.requests[id].run.Some?
            && Of(w.log, w.requests[id].run.value) == [Record(w.requests[id].run.value, false, Started)]
  {
    hide Final, Possible, Of, RecordsFor;
    ReachedBacked(cap, es, id);
    var w := Final(Initial(cap), es);
    OfIsOf(w.log, w.requests[id].run.value);
  }

  lemma {:induction false} OfIsOf(log: seq<Chunk>, run: RunId)
    ensures forall i | 0 <= i < |Of(log, run)| :: Of(log, run)[i].run == run
  {
    if log != [] {
      OfIsOf(log[..|log| - 1], run);
    }
  }

  /** A request was answered with 200 only if the log holds the attempt of its run and behind
      it a terminal record of status success or compile_error. */
  lemma OkAfterTerminal(cap: nat, es: seq<Event>, id: nat)
    requires Possible(Initial(cap), es) && id in Final(Initial(cap), es).requests
    requires var p := Final(Initial(cap), es).requests[id].phase; (p.Replied? || p.Closed?) && p.ok
    ensures var w := Final(Initial(cap), es);
            && w.requests[id].run.Some?
            && var rs := Of(w.log, w.requests[id].run.value);
               |rs| == 2 && !rs[0].terminal && rs[1].terminal && Served(rs[1].status)
  {
    hide Final, Possible, Of, RecordsFor;
    ReachedBacked(cap, es, id);
  }

  /** The answer that is about to be sent is 200 exactly when the terminal record that was
      stored says success or compile_error. */
  lemma ResponseMatchesRecord(cap: nat, es: seq<Event>, id: nat)
    requires Possible(Initial(cap), es) && Enabled(Final(Initial(cap), es), Respond(id))
    ensures var w := Final(Initial(cap), es);
            && w.requests[id].run.Some? && |Of(w.log, w.requests[id].run.value)| == 2
            && (Apply(w, Respond(id)).requests[id].phase == Replied(true)
                <==> Served(Of(w.log, w.requests[id].run.value)[1].status))
  {
    hide Final, Possible, Of, RecordsFor;
    ReachedBacked(cap, es, id);
  }

  /** What the terminal record of a finished operation says. */
  lemma TerminalSays(result: Result)
    ensures var status := TerminalStatus(result.failure, result.compiled);
            && (status == Success <==> result.failure == None && result.compiled)
            && (status == CompileError <==> result.failure == None && !result.compiled)
            && (status == Cancelled <==> result.failure in {Some(Context), Some(Service("request_cancelled"))})
            && (status == Infrastructure <==>
                  result.failure.Some? && result.failure !in {Some(Context), Some(Service("request_cancelled"))})
  {
  }

  // ------------------------------------------------------- answers, told from the run

  /** The attempt of the request's run was stored. */
  ghost predicate AttemptStored(es: seq<Event>, id: nat, q: Request) {
    q.run.Some? && WriteAttempt(id, q.run.value, Stored) in es
  }

  ghost predicate EngineSucceeded(es: seq<Event>, id: nat) {
    exists x: Result :: EngineReturns(id, x) in es && x.failure.None?
  }

  ghost predicate EngineSilent(es: seq<Event>, id: nat) { forall x: Result :: EngineReturns(id, x) !in es }

  ghost predicate EngineSaid(es: seq<Event>, id: nat, r: Result) {
    forall x: Result :: EngineReturns(id, x) in es <==> x == r
  }

  /** What has happened to a request, by its phase. */
  ghost predicate Told(es: seq<Event>, id: nat, q: Request) {
    match q.phase
    case Arrived => Respond(id) !in es && EngineSilent(es, id)
    case Holding => Respond(id) !in es && EngineSilent(es, id)
    case Attempted => Respond(id) !in es && EngineSilent(es, id) && AttemptStored(es, id, q)
    case Running => Respond(id) !in es && EngineSilent(es, id) && AttemptStored(es, id, q)
    case Finished(r) => Respond(id) !in es && EngineSaid(es, id, r) && AttemptStored(es, id, q)
    case Recorded(r) =>
      Respond(id) !in es && EngineSaid(es, id, r) && AttemptStored(es, id, q) && WriteTerminal(id, Stored) in es
    case Replied(ok) => Answered(es, id, q, ok)
    case Closed(ok) => Answered(es, id, q, ok)
  }

  ghost predicate Answered(es: seq<Event>, id: nat, q: Request, ok: bool) {
    && (ok <==> Respond(id) in es && EngineSucceeded(es, id))
    && (ok ==> AttemptStored(es, id, q) && WriteTerminal(id, Stored) in es)
  }

  ghost predicate AllTold(es: seq<Event>, w: World) {
    && (forall id | id in w.requests :: Told(es, id, w.requests[id]))
    && (forall e | e in es :: e.id in w.requests)
    && forall run | run in w.started :: exists id: nat :: WriteAttempt(id, run, Stored) in es
  }

  /** Events of other requests do not matter. */
  lemma OtherTold(es: seq<Event>, e: Event, id: nat, q: Request)
    requires e.id != id && Told(es, id, q)
    ensures Told(es + [e], id, q)
  {
    var all := es + [e];
    assert forall x: Event | x.id == id :: x in all <==> x in es;
    if EngineSucceeded(es, id) {
      var x: Result :| EngineReturns(id, x) in es && x.failure.None?;
      assert EngineReturns(id, x) in all;
    }
  }

  /** Which events bear on what the engine said. */
  lemma EngineStep(es: seq<Event>, e: Event, id: nat)
    ensures !e.EngineReturns? ==>
              && (EngineSilent(es + [e], id) <==> EngineSilent(es, id))
              && (EngineSucceeded(es + [e], id) <==> EngineSucceeded(es, id))
              && forall r :: EngineSaid(es + [e], id, r) <==> EngineSaid(es, id, r)
    ensures e.EngineReturns? && e.id == id && EngineSilent(es, id) ==> EngineSaid(es + [e], id, e.result)
  {
    var all := es + [e];
    assert forall x: Result | EngineReturns(id, x) != e :: EngineReturns(id, x) in all <==> EngineReturns(id, x) in es;
  }

  lemma SaidMeansSucceeded(es: seq<Event>, id: nat, r: Result)
    ensures EngineSaid(es, id, r) ==> (EngineSucceeded(es, id) <==> r.failure.None?)
    ensures EngineSilent(es, id) ==> !EngineSucceeded(es, id)
  {
    if EngineSaid(es, id, r) {
      assert EngineReturns(id, r) in es;
    }
  }

  lemma OwnToldOfAudit(es: seq<Event>, w: World, e: Event)
    requires AllTold(es, w) && Enabled(w, e) && (e.WriteAttempt? || e.WriteTerminal? || e.Respond?)
    ensures var after := Apply(w, e); e.id in after.requests && Told(es + [e], e.id, after.requests[e.id])
  {
    hide TerminalStatus, EngineSaid, EngineSilent, EngineSucceeded;
    EngineStep(es, e, e.id);
    var q := w.requests[e.id];
    assert Told(es, e.id, q);
    if e.WriteAttempt? {
      SaidMeansSucceeded(es, e.id, Result(None, true));
    } else {
      SaidMeansSucceeded(es, e.id, q.phase.result);
    }
  }

  lemma OwnToldOfOthers(es: seq<Event>, w: World, e: Event)
    requires AllTold(es, w) && Enabled(w, e) && !(e.WriteAttempt? || e.WriteTerminal? || e.Respond?)
    requires !e.Arrive?
    ensures var after := Apply(w, e); e.id in after.requests && Told(es + [e], e.id, after.requests[e.id])
  {
    hide AfterAcquire, EngineSaid, EngineSilent, EngineSucceeded;
    EngineStep(es, e, e.id);
    SaidMeansSucceeded(es, e.id, Result(None, true));
    assert Told(es, e.id, w.requests[e.id]);
  }

  lemma OwnTold(es: seq<Event>, w: World, e: Event)
    requires AllTold(es, w) && Enabled(w, e)
    ensures var after := Apply(w, e); e.id in after.requests && Told(es + [e], e.id, after.requests[e.id])
  {
    hide Apply, Told;
    if e.WriteAttempt? || e.WriteTerminal? || e.Respond? {
      OwnToldOfAudit(es, w, e);
    } else if e.Arrive? {
      ArriveTold(es, w, e);
    } else {
      OwnToldOfOthers(es, w, e);
    }
  }

  lemma ArriveTold(es: seq<Event>, w: World, e: Event)
    requires AllTold(es, w) && Enabled(w, e) && e.Arrive?
    ensures var after := Apply(w, e); e.id in after.requests && Told(es + [e], e.id, after.requests[e.id])
  {
    forall x: Result
      ensures EngineReturns(e.id, x) !in es + [e]
    {
      assert EngineReturns(e.id, x).id == e.id;
    }
    assert Respond(e.id).id == e.id;
  }

  lemma StartedTold(es: seq<Event>, w: World, e: Event)
    requires AllTold(es, w) && Enabled(w, e)
    ensures forall run | run in Apply(w, e).started :: exists id: nat :: WriteAttempt(id, run, Stored) in es + [e]
  {
    hide AfterAcquire, TerminalStatus, AfterWrite;
    forall run | run in Apply(w, e).started
      ensures exists id: nat :: WriteAttempt(id, run, Stored) in es + [e]
    {
      if run in w.started {
        var id: nat :| WriteAttempt(id, run, Stored) in es;
        assert WriteAttempt(id, run, Stored) in es + [e];
      } else {
        assert Told(es, e.id, w.requests[e.id]);
        assert WriteAttempt(e.id, run, Stored) in es + [e];
      }
    }
  }

  lemma AllToldStep(es: seq<Event>, w: World, e: Event)
    requires AllTold(es, w) && Enabled(w, e)
    ensures AllTold(es + [e], Apply(w, e))
  {
    hide Apply, Enabled, Told;
    StepMovesSlot(w, e);
    StartedTold(es, w, e);
    OwnTold(es, w, e);
    var after := Apply(w, e);
    forall id | id in after.requests
      ensures Told(es + [e], id, after.requests[id])
    {
      if id != e.id {
        OtherTold(es, e, id, w.requests[id]);
      }
    }
  }

  lemma {:induction false} AllToldRun(done: seq<Event>, w: World, es: seq<Event>)
    requires AllTold(done, w) && Possible(w, es)
    ensures AllTold(done + es, Final(w, es))
    decreases es
  {
    hide AllTold;
    if es == [] {
      assert done + es == done;
    } else {
      AllToldStep(done, w, es[0]);
      AllToldRun(done + [es[0]], Apply(w, es[0]), es[1..]);
      assert done + es == done + [es[0]] + es[1..];
    }
  }

  /** A request was answered with 200 exactly when its handler got as far as the response and
      the engine had reported no failure; then both audit writes of its run were stored. */
  lemma OkExactly(cap: nat, es: seq<Event>, id: nat)
    requires Possible(Initial(cap), es) && id in Final(Initial(cap), es).requests
    ensures var q := Final(Initial(cap), es).requests[id];
            var ok := (q.phase.Replied? || q.phase.Closed?) && q.phase.ok;
            && (ok <==> Respond(id) in es && EngineSucceeded(es, id))
            && (ok ==> q.run.Some? && WriteAttempt(id, q.run.value, Stored) in es && WriteTerminal(id, Stored) in es)
  {
    hide Final, Possible;
    AllToldRun([], Initial(cap), es);
    assert [] + es == es;
    assert Told(es, id, Final(Initial(cap), es).requests[id]);
  }

  /** The engine is only called for runs whose attempt was stored, and no failed write counts
      as stored. */
  lemma StartedWasStored(cap: nat, es: seq<Event>, run: RunId)
    requires Possible(Initial(cap), es) && run in Final(Initial(cap), es).started
    ensures exists id: nat :: WriteAttempt(id, run, Stored) in es
  {
    hide Final, Possible, Told;
    AllToldRun([], Initial(cap), es);
    assert [] + es == es;
  }

  // ------------------------------------------------------------ what a reader finds

  /** The records of one run that stand on a line of their own: a whole record behind a torn
      one is glued to it. */
  function Readable(log: seq<Chunk>, run: RunId): seq<Record> {
    if log == [] then []
    else
      var last := log[|log| - 1];
      Readable(log[..|log| - 1], run)
      + (if last.whole && last.record.run == run && !Glued(log, |log| - 1) then [last.record] else [])
  }

  predicate Glued(log: seq<Chunk>, i: nat)
    requires i < |log|
  {
    i > 0 && !log[i - 1].whole
  }

  /** No record of the run stands behind a torn write. */
  predicate Unglued(log: seq<Chunk>, run: RunId) {
    forall i | 0 <= i < |log| && log[i].whole && log[i].record.run == run :: !Glued(log, i)
  }

  lemma UngluedFront(log: seq<Chunk>, run: RunId)
    requires log != []
    ensures var n := |log| - 1;
            Unglued(log, run)
            <==> Unglued(log[..n], run) && (log[n].whole && log[n].record.run == run ==> !Glued(log, n))
  {
    var front := log[..|log| - 1];
    assert forall i | 0 <= i < |front| :: front[i] == log[i] && Glued(front, i) == Glued(log, i);
  }

  /** A reader finds every whole record of a run exactly when none of them stands behind a torn
      write of another record; otherwise fewer. */
  lemma {:induction false} ReadableIsOf(log: seq<Chunk>, run: RunId)
    ensures Readable(log, run) == Of(log, run) <==> Unglued(log, run)
    ensures |Readable(log, run)| <= |Of(log, run)|
    ensures !Unglued(log, run) ==> |Readable(log, run)| < |Of(log, run)|
  {
    if log != [] {
      hide Unglued, Glued;
      ReadableIsOf(log[..|log| - 1], run);
      UngluedFront(log, run);
    }
  }

  /** A request was answered with 200. A reader of the log finds its attempt and its terminal
      record exactly when no torn write stands before either of them. */
  lemma OkIsReadable(cap: nat, es: seq<Event>, id: nat)
    requires Possible(Initial(cap), es) && id in Final(Initial(cap), es).requests
    requires var p := Final(Initial(cap), es).requests[id].phase; (p.Replied? || p.Closed?) && p.ok
    ensures var w := Final(Initial(cap), es);
            && w.requests[id].run.Some?
            && (|Readable(w.log, w.requests[id].run.value)| == 2 <==> Unglued(w.log, w.requests[id].run.value))
  {
    hide Final, Possible, Of, Readable, Unglued;
    OkAfterTerminal(cap, es, id);
    var w := Final(Initial(cap), es);
    ReadableIsOf(w.log, w.requests[id].run.value);
  }

  /** Two requests: the attempt of the first is torn, the second succeeds. */
  const TORN_RUN := [
    Arrive(0), Acquire(0, false, false), WriteAttempt(0, 10, Torn), Release(0),
    Arrive(1), Acquire(1, false, false), WriteAttempt(1, 11, Stored), CallEngine(1),
    EngineReturns(1, Result(None, true)), WriteTerminal(1, Stored), Respond(1)]

  /** What the example leaves in the file. */
  const TORN_LOG := [
    Chunk(Record(10, false, Started), false), Chunk(Record(11, false, Started), true),
    Chunk(Record(11, true, Success), true)]

  lemma FirstEvent(w: World, es: seq<Event>, k: nat)
    requires k < |es| && Enabled(w, es[k]) && Possible(Apply(w, es[k]), es[k + 1..])
    ensures Possible(w, es[k..]) && Final(w, es[k..]) == Final(Apply(w, es[k]), es[k + 1..])
  {
    assert es[k..][0] == es[k] && es[k..][1..] == es[k + 1..];
    hide Enabled, Apply;
  }

  lemma TornStart()
    requires Possible(AfterTorn(), TORN_RUN[4..])
    ensures Possible(Initial(1), TORN_RUN)
    ensures Final(Initial(1), TORN_RUN) == Final(AfterTorn(), TORN_RUN[4..])
  {
    var w1 := Apply(Initial(1), TORN_RUN[0]);
    var w2 := Apply(w1, TORN_RUN[1]);
    var w3 := Apply(w2, TORN_RUN[2]);
    assert Apply(w3, TORN_RUN[3]) == AfterTorn();
    FirstEvent(w3, TORN_RUN, 3);
    FirstEvent(w2, TORN_RUN, 2);
    FirstEvent(w1, TORN_RUN, 1);
    FirstEvent(Initial(1), TORN_RUN, 0);
    assert TORN_RUN[0..] == TORN_RUN;
  }

  function AfterTorn(): World { World(1, 0, map[0 := Request(Closed(false), Some(10))], TORN_LOG[..1], {10}, {}) }

  function Calling(): World {
    World(1, 1, AfterTorn().requests[1 := Request(Running, Some(11))], TORN_LOG[..2], {10, 11}, {11})
  }

  lemma TornMiddle()
    requires Possible(Calling(), TORN_RUN[8..])
    ensures Possible(AfterTorn(), TORN_RUN[4..])
    ensures Final(AfterTorn(), TORN_RUN[4..]) == Final(Calling(), TORN_RUN[8..])
  {
    var w5 := Apply(AfterTorn(), TORN_RUN[4]);
    var w6 := Apply(w5, TORN_RUN[5]);
    var w7 := Apply(w6, TORN_RUN[6]);
    assert w7.log == TORN_LOG[..2];
    assert Apply(w7, TORN_RUN[7]) == Calling();
    FirstEvent(w7, TORN_RUN, 7);
    FirstEvent(w6, TORN_RUN, 6);
    FirstEvent(w5, TORN_RUN, 5);
    FirstEvent(AfterTorn(), TORN_RUN, 4);
  }

  lemma TornEnd()
    ensures Possible(Calling(), TORN_RUN[8..])
    ensures var w := Final(Calling(), TORN_RUN[8..]);
            1 in w.requests && w.requests[1] == Request(Replied(true), Some(11)) && w.log == TORN_LOG
  {
    var w9 := Apply(Calling(), TORN_RUN[8]);
    var w10 := Apply(w9, TORN_RUN[9]);
    var w11 := Apply(w10, TORN_RUN[10]);
    assert w10.log == TORN_LOG;
    assert TORN_RUN[11..] == [];
    FirstEvent(w10, TORN_RUN, 10);
    FirstEvent(w9, TORN_RUN, 9);
    FirstEvent(Calling(), TORN_RUN, 8);
    assert Final(w11, []) == w11;
  }

  lemma ReadableAppend(log: seq<Chunk>, c: Chunk, run: RunId)
    ensures Readable(log + [c], run)
            == Readable(log, run)
               + (if c.whole && c.record.run == run && (log == [] || log[|log| - 1].whole) then [c.record] else [])
  {
    assert (log + [c])[..|log + [c]| - 1] == log;
  }

  lemma TornReading()
    ensures |Of(TORN_LOG, 11)| == 2 && Readable(TORN_LOG, 11) == [Record(11, true, Success)]
  {
    hide Of, Readable;
    var none: seq<Chunk> := [];
    var a, b, c := TORN_LOG[0], TORN_LOG[1], TORN_LOG[2];
    ReadableOfNone(11);
    OfAppend(none, a, 11);
    OfAppend(none + [a], b, 11);
    OfAppend(none + [a] + [b], c, 11);
    ReadableAppend(none, a, 11);
    ReadableAppend(none + [a], b, 11);
    ReadableAppend(none + [a] + [b], c, 11);
    assert TORN_LOG == none + [a] + [b] + [c];
  }

  lemma ReadableOfNone(run: RunId)
    ensures Of([], run) == [] && Readable([], run) == []
  {
  }

  /** The second request is answered with 200, and a reader does not find its attempt. */
  lemma TornExample()
    ensures Possible(Initial(1), TORN_RUN)
    ensures var w := Final(Initial(1), TORN_RUN);
            && 1 in w.requests && w.requests[1] == Request(Replied(true), Some(11))
            && |Of(w.log, 11)| == 2 && Readable(w.log, 11) == [Record(11, true, Success)]
  {
    hide *;
    TornEnd();
    TornMiddle();
    TornStart();
    TornReading();
  }
}
