/** Where the failed import of a problem is restarted
    (backend/internal/handler/workflow_handler.go:1082-1155). */
module ResetPoint {
  import opened Wrappers

  datatype TaskKind = TaskCompleted | TaskStarted | TaskTimedOut | TaskFailed

  /** A history event; attributes may be missing. */
  datatype Event =
    | Task(id: int, kind: TaskKind)
    | Scheduled(id: int, attributes: Option<(int, string)>)
    | Completed(id: int, scheduledId: Option<int>)
    | OtherEvent(id: int)

  const STORE := "StoreProblemActivity"

  /** scheduledActivity */
  datatype Activity = Activity(eventId: int, taskId: int, completedId: int, name: string)

  /** What the scan remembers. The activities are kept in the order they were scheduled;
      scheduled, last and store point into them. */
  datatype State = State(
    tasks: map<int, TaskKind>, items: seq<Activity>, scheduled: map<int, nat>, firstCompleted: int,
    last: Option<nat>, store: Option<nat>)

  predicate Pointed(st: State) {
    && (forall id | id in st.scheduled :: st.scheduled[id] < |st.items|)
    && (st.last.Some? ==> st.last.value < |st.items|)
    && (st.store.Some? ==> st.store.value < |st.items|)
  }

  function Step(st: State, e: Event): (after: State)
    requires Pointed(st)
    ensures Pointed(after)
  {
    match e
    case Task(id, kind) =>
      st.(tasks := st.tasks[id := kind],
          firstCompleted := if kind.TaskCompleted? && st.firstCompleted == 0 then id else st.firstCompleted)
    case Scheduled(id, Some(attributes)) =>
      var n := |st.items|;
      st.(items := st.items + [Activity(id, attributes.0, 0, attributes.1)], scheduled := st.scheduled[id := n],
          last := Some(n), store := if attributes.1 == STORE then Some(n) else st.store)
    case Completed(id, Some(scheduledId)) =>
      if scheduledId in st.scheduled then
        var x := st.scheduled[scheduledId];
        st.(items := st.items[x := st.items[x].(completedId := id)])
      else st
    case _ => st
  }

  function Scan(es: seq<Event>): (st: State)
    ensures Pointed(st)
  {
    if es == [] then State(map[], [], map[], 0, None, None) else Step(Scan(es[..|es| - 1]), es[|es| - 1])
  }

  // -------------------------------------------------------------------- the choice

  function SchedulingPoint(tasks: map<int, TaskKind>, a: Activity): Option<int> {
    if a.taskId <= 0 || a.taskId >= a.eventId || a.taskId !in tasks || tasks[a.taskId] != TaskCompleted then None
    else Some(a.taskId)
  }

  /** The first event of the list with a greater id that is a workflow task, or 0. */
  function AfterCompletion(es: seq<Event>, tasks: map<int, TaskKind>, completedId: int): int {
    if es == [] then 0
    else if es[0].id > completedId && es[0].id in tasks then es[0].id
    else AfterCompletion(es[1..], tasks, completedId)
  }

  function Choose(es: seq<Event>, st: State): Option<int>
    requires Pointed(st)
  {
    if st.store.Some? then
      var a := st.items[st.store.value];
      if a.completedId == 0 then SchedulingPoint(st.tasks, a)
      else
        var point := AfterCompletion(es, st.tasks, a.completedId);
        if point != 0 then Some(point) else None
    else if st.last.Some? then
      var a := st.items[st.last.value];
      var point := AfterCompletion(es, st.tasks, a.completedId);
      if a.completedId != 0 && point != 0 then Some(point) else SchedulingPoint(st.tasks, a)
    else if st.firstCompleted != 0 then Some(st.firstCompleted)
    else None
  }

  function Point(es: seq<Event>): Option<int> { Choose(es, Scan(es)) }

  method FirstTaskAfter(es: seq<Event>, tasks: map<int, TaskKind>, completedId: int) returns (point: int)
    ensures point == AfterCompletion(es, tasks, completedId)
  {
    for i := 0 to |es|
      invariant AfterCompletion(es, tasks, completedId) == AfterCompletion(es[i..], tasks, completedId)
    {
      assert es[i..][1..] == es[i + 1..];
      if es[i].id > completedId && es[i].id in tasks {
        return es[i].id;
      }
    }
    point := 0;
  }

  /** The choice behind the scan loop. */
  method ChoosePoint(
    es: seq<Event>, tasks: map<int, TaskKind>, items: seq<Activity>, firstCompleted: int,
    last: Option<nat>, store: Option<nat>)
    returns (r: Option<int>)
    requires last.Some? ==> last.value < |items|
    requires store.Some? ==> store.value < |items|
    ensures r == Choose(es, State(tasks, items, map[], firstCompleted, last, store))
  {
    if store.Some? {
      var a := items[store.value];
      if a.completedId == 0 {
        return SchedulingPoint(tasks, a);
      }
      var point := FirstTaskAfter(es, tasks, a.completedId);
      return if point != 0 then Some(point) else None;
    }
    if last.Some? {
      var a := items[last.value];
      if a.completedId != 0 {
        var point := FirstTaskAfter(es, tasks, a.completedId);
        if point != 0 {
          return Some(point);
        }
      }
      return SchedulingPoint(tasks, a);
    }
    if firstCompleted != 0 {
      return Some(firstCompleted);
    }
    r := None;
  }

  /** importedProblemResetPoint */
  method ImportedProblemResetPoint(es: seq<Event>) returns (r: Option<int>)
    ensures r == Point(es)
  {
    var tasks: map<int, TaskKind>, items: seq<Activity>, scheduled: map<int, nat> := map[], [], map[];
    var firstCompleted := 0;
    var last: Option<nat>, store: Option<nat> := None, None;
    for i := 0 to |es|
      invariant Pointed(State(tasks, items, scheduled, firstCompleted, last, store))
      invariant forall id | id in scheduled :: scheduled[id] < |items|
      invariant State(tasks, items, scheduled, firstCompleted, last, store) == Scan(es[..i])
    {
      assert es[..i + 1][..i] == es[..i];
      match es[i] {
        case Task(id, kind) =>
          tasks := tasks[id := kind];
          if kind == TaskCompleted && firstCompleted == 0 {
            firstCompleted := id;
          }
        case Scheduled(id, attributes) =>
          if attributes.Some? {
            scheduled := scheduled[id := |items|];
            last := Some(|items|);
            if attributes.value.1 == STORE {
              store := Some(|items|);
            }
            items := items + [Activity(id, attributes.value.0, 0, attributes.value.1)];
          }
        case Completed(id, scheduledId) =>
          if scheduledId.Some? && scheduledId.value in scheduled {
            var key := scheduledId.value;
            assert key in scheduled && scheduled[key] < |items|;
            var x := scheduled[key];
            items := items[x := items[x].(completedId := id)];
          }
        case OtherEvent(_) =>
      }
    }
    assert es[..|es|] == es;
    r := ChoosePoint(es, tasks, items, firstCompleted, last, store);
  }

  // ------------------------------------------------------- what the scan remembers

  ghost predicate IsTask(es: seq<Event>, id: int) { exists k | 0 <= k < |es| :: es[k].Task? && es[k].id == id }

  ghost predicate IsCompletedTask(es: seq<Event>, id: int) {
    exists k | 0 <= k < |es| :: es[k] == Task(id, TaskCompleted)
  }

  /** Event ids grow along the history. */
  ghost predicate Increasing(es: seq<Event>) { forall i, j | 0 <= i < j < |es| :: es[i].id < es[j].id }

  lemma {:induction false} TasksAreTasks(es: seq<Event>)
    ensures var st := Scan(es);
            && (forall id :: id in st.tasks <==> IsTask(es, id))
            && (forall id | id in st.tasks && st.tasks[id] == TaskCompleted :: IsCompletedTask(es, id))
            && (st.firstCompleted != 0 ==> IsTask(es, st.firstCompleted))
  {
    if es != [] {
      var shorter, e := es[..|es| - 1], es[|es| - 1];
      TasksAreTasks(shorter);
      assert es == shorter + [e];
      forall id
        ensures IsTask(es, id) <==> IsTask(shorter, id) || (e.Task? && e.id == id)
        ensures IsCompletedTask(es, id) <==> IsCompletedTask(shorter, id) || e == Task(id, TaskCompleted)
      {
        TaskStep(shorter, e, id);
      }
      hide IsTask, IsCompletedTask;
    }
  }

  lemma TaskStep(es: seq<Event>, e: Event, id: int)
    ensures IsTask(es + [e], id) <==> IsTask(es, id) || (e.Task? && e.id == id)
    ensures IsCompletedTask(es + [e], id) <==> IsCompletedTask(es, id) || e == Task(id, TaskCompleted)
  {
    var all := es + [e];
    if IsTask(es, id) {
      var k :| 0 <= k < |es| && es[k].Task? && es[k].id == id;
      assert all[k] == es[k];
    }
    if IsCompletedTask(es, id) {
      var k :| 0 <= k < |es| && es[k] == Task(id, TaskCompleted);
      assert all[k] == es[k];
    }
    assert all[|es|] == e;
  }

  lemma {:induction false} AfterCompletionIsTask(es: seq<Event>, tasks: map<int, TaskKind>, completedId: int)
    ensures var p := AfterCompletion(es, tasks, completedId); p != 0 ==> p in tasks && p > completedId
  {
    if es != [] {
      AfterCompletionIsTask(es[1..], tasks, completedId);
    }
  }

  /** Whatever the history looks like, a point that is returned is a workflow-task event of
      the history. */
  lemma PointIsTask(es: seq<Event>)
    ensures Point(es).Some? ==> IsTask(es, Point(es).value)
  {
    var st := Scan(es);
    TasksAreTasks(es);
    hide IsTask, IsCompletedTask, Scan;
    if st.store.Some? {
      AfterCompletionIsTask(es, st.tasks, st.items[st.store.value].completedId);
    }
    if st.last.Some? {
      AfterCompletionIsTask(es, st.tasks, st.items[st.last.value].completedId);
    }
  }

  // ---- activities, seen from the history ----

  predicate IsActivity(es: seq<Event>, k: int) { 0 <= k < |es| && es[k].Scheduled? && es[k].attributes.Some? }

  /** The id of the last event that completes the activity scheduled at k, or 0. */
  function CompletionOf(es: seq<Event>, k: nat): int
    requires k < |es|
  {
    var n := |es| - 1;
    if n <= k then 0
    else if es[n] == Completed(es[n].id, Some(es[k].id)) then es[n].id
    else CompletionOf(es[..n], k)
  }

  function ActivityAt(es: seq<Event>, k: nat): Activity
    requires IsActivity(es, k)
  {
    Activity(es[k].id, es[k].attributes.value.0, CompletionOf(es, k), es[k].attributes.value.1)
  }

  /** The position of the last activity, of any name or stored problems only; -1 if none. */
  function LastActivity(es: seq<Event>, storeOnly: bool): (k: int)
    ensures -1 <= k < |es|
    ensures k >= 0 ==> IsActivity(es, k) && (storeOnly ==> es[k].attributes.value.1 == STORE)
  {
    var n := |es| - 1;
    if es == [] then -1
    else if IsActivity(es, n) && (storeOnly ==> es[n].attributes.value.1 == STORE) then n
    else LastActivity(es[..n], storeOnly)
  }

  /** In a history with growing ids the scan holds every activity as the history shows it. */
  ghost predicate Faithful(es: seq<Event>, st: State) {
    && Pointed(st)
    && (forall k | 0 <= k < |es| && IsActivity(es, k) ::
          es[k].id in st.scheduled && st.items[st.scheduled[es[k].id]] == ActivityAt(es, k))
    && (forall id | id in st.scheduled :: exists k | 0 <= k < |es| :: IsActivity(es, k) && es[k].id == id)
    && (forall x, y | x in st.scheduled && y in st.scheduled && x != y :: st.scheduled[x] != st.scheduled[y])
    && Points(es, st, st.last, LastActivity(es, false))
    && Points(es, st, st.store, LastActivity(es, true))
  }

  ghost predicate Points(es: seq<Event>, st: State, p: Option<nat>, k: int) {
    if k < 0 then p.None?
    else k < |es| && es[k].id in st.scheduled && p == Some(st.scheduled[es[k].id])
  }

  lemma CompletionStep(es: seq<Event>, e: Event, k: nat)
    requires k < |es|
    ensures CompletionOf(es + [e], k) == if e == Completed(e.id, Some(es[k].id)) then e.id else CompletionOf(es, k)
  {
    assert (es + [e])[..|es|] == es;
  }

  lemma LastStep(es: seq<Event>, e: Event, storeOnly: bool)
    ensures LastActivity(es + [e], storeOnly) ==
            if IsActivity([e], 0) && (storeOnly ==> e.attributes.value.1 == STORE) then |es|
            else LastActivity(es, storeOnly)
  {
    assert (es + [e])[..|es|] == es;
  }

  lemma FaithfulSchedule(es: seq<Event>, st: State, e: Event)
    requires Faithful(es, st) && Increasing(es + [e]) && IsActivity([e], 0)
    ensures Faithful(es + [e], Step(st, e))
  {
    var all, after := es + [e], Step(st, e);
    LastStep(es, e, false);
    LastStep(es, e, true);
    forall k | 0 <= k < |es|
      ensures es[k].id < e.id
    {
      assert all[k].id < all[|es|].id;
    }
    assert e.id !in st.scheduled;
    forall k | 0 <= k < |all| && IsActivity(all, k)
      ensures all[k].id in after.scheduled && after.items[after.scheduled[all[k].id]] == ActivityAt(all, k)
    {
      if k < |es| {
        assert IsActivity(es, k);
        CompletionStep(es, e, k);
      }
    }
    forall id | id in after.scheduled
      ensures exists k | 0 <= k < |all| :: IsActivity(all, k) && all[k].id == id
    {
      if id == e.id {
        assert IsActivity(all, |es|);
      } else {
        var k :| 0 <= k < |es| && IsActivity(es, k) && es[k].id == id;
        assert IsActivity(all, k);
      }
    }
  }

  /** One activity, seen after an event that schedules nothing. */
  lemma ActivityStep(es: seq<Event>, st: State, e: Event, k: nat)
    requires Faithful(es, st) && Increasing(es + [e]) && !IsActivity([e], 0)
    requires k < |es + [e]| && IsActivity(es + [e], k)
    ensures var after := Step(st, e);
            && k < |es| && IsActivity(es, k)
            && es[k].id in after.scheduled && after.items[after.scheduled[es[k].id]] == ActivityAt(es + [e], k)
  {
    hide LastActivity, CompletionOf, Points, Increasing;
    assert k < |es| && IsActivity(es, k);
    assert (es + [e])[k] == es[k];
    CompletionStep(es, e, k);
    assert es[k].id in st.scheduled && st.items[st.scheduled[es[k].id]] == ActivityAt(es, k);
  }

  lemma FaithfulOtherwise(es: seq<Event>, st: State, e: Event)
    requires Faithful(es, st) && Increasing(es + [e]) && !IsActivity([e], 0)
    ensures Faithful(es + [e], Step(st, e))
  {
    hide LastActivity, CompletionOf, ActivityAt, Increasing;
    var all, after := es + [e], Step(st, e);
    LastStep(es, e, false);
    LastStep(es, e, true);
    assert after.scheduled == st.scheduled && after.last == st.last && after.store == st.store;
    forall k | 0 <= k < |all| && IsActivity(all, k)
      ensures all[k].id in after.scheduled && after.items[after.scheduled[all[k].id]] == ActivityAt(all, k)
    {
      ActivityStep(es, st, e, k);
    }
    hide Step;
    forall id | id in after.scheduled
      ensures exists k | 0 <= k < |all| :: IsActivity(all, k) && all[k].id == id
    {
      var k :| 0 <= k < |es| && IsActivity(es, k) && es[k].id == id;
      assert IsActivity(all, k);
    }
  }

  lemma {:induction false} ScanIsFaithful(es: seq<Event>)
    requires Increasing(es)
    ensures Faithful(es, Scan(es))
  {
    if es != [] {
      var shorter, e := es[..|es| - 1], es[|es| - 1];
      assert shorter + [e] == es;
      ScanIsFaithful(shorter);
      hide Faithful, Step;
      if IsActivity([e], 0) {
        FaithfulSchedule(shorter, Scan(shorter), e);
      } else {
        FaithfulOtherwise(shorter, Scan(shorter), e);
      }
    }
  }

  lemma {:induction false} TaskKinds(es: seq<Event>)
    requires Increasing(es)
    ensures forall k | 0 <= k < |es| && es[k].Task? ::
      es[k].id in Scan(es).tasks && Scan(es).tasks[es[k].id] == es[k].kind
  {
    if es != [] {
      var n := |es| - 1;
      TaskKinds(es[..n]);
      forall k | 0 <= k < |es| && es[k].Task?
        ensures es[k].id in Scan(es).tasks && Scan(es).tasks[es[k].id] == es[k].kind
      {
        if k < n {
          assert es[..n][k] == es[k] && es[k].id < es[n].id;
        }
      }
    }
  }

  // ------------------------------------------------------------------- the results

  ghost predicate History(es: seq<Event>) { Increasing(es) && forall k | 0 <= k < |es| :: es[k].id >= 1 }

  /** The activity whose fate decides: the last store, else the last activity. */
  function Anchor(es: seq<Event>): int {
    if LastActivity(es, true) >= 0 then LastActivity(es, true) else LastActivity(es, false)
  }

  /** p is the earliest workflow-task event after the event id c. */
  ghost predicate EarliestTaskAfter(es: seq<Event>, c: int, p: int) {
    IsTask(es, p) && p > c && forall k | 0 <= k < |es| && es[k].Task? && es[k].id > c :: p <= es[k].id
  }

  ghost predicate NoTaskAfter(es: seq<Event>, c: int) { forall k | 0 <= k < |es| && es[k].Task? :: es[k].id <= c }

  lemma {:induction false} AfterCompletionIsFirst(es: seq<Event>, tasks: map<int, TaskKind>, c: int)
    requires History(es)
    ensures var p := AfterCompletion(es, tasks, c);
            && (p == 0 ==> forall k | 0 <= k < |es| && es[k].id in tasks :: es[k].id <= c)
            && (p != 0 ==> p in tasks && p > c
                           && forall k | 0 <= k < |es| && es[k].id in tasks && es[k].id > c :: p <= es[k].id)
  {
    if es != [] {
      var rest := es[1..];
      assert forall k | 0 <= k < |rest| :: rest[k] == es[k + 1];
      AfterCompletionIsFirst(rest, tasks, c);
      forall k | 0 <= k < |es|
        ensures k == 0 || es[k] == rest[k - 1]
      {
      }
    }
  }

  lemma EarliestFound(es: seq<Event>, c: int)
    requires History(es)
    ensures var p := AfterCompletion(es, Scan(es).tasks, c);
            if p == 0 then NoTaskAfter(es, c) else EarliestTaskAfter(es, c, p)
  {
    TasksAreTasks(es);
    TaskKinds(es);
    AfterCompletionIsFirst(es, Scan(es).tasks, c);
    hide Scan, AfterCompletion;
  }

  /** Once the problem was stored, the point is the earliest workflow-task event after the
      completion, and there is none exactly when the history has no such event. */
  lemma StoredProblemIsKept(es: seq<Event>)
    requires History(es) && LastActivity(es, true) >= 0 && CompletionOf(es, LastActivity(es, true)) != 0
    ensures var c := CompletionOf(es, LastActivity(es, true));
            if Point(es).Some? then EarliestTaskAfter(es, c, Point(es).value) else NoTaskAfter(es, c)
  {
    hide Scan, AfterCompletion, LastActivity, CompletionOf, EarliestTaskAfter, NoTaskAfter;
    ScanIsFaithful(es);
    EarliestFound(es, CompletionOf(es, LastActivity(es, true)));
  }

  /** While the store is not completed, the point is the task that scheduled it, provided the
      history shows that task as completed before the store was scheduled. */
  lemma UnfinishedStoreIsRescheduled(es: seq<Event>)
    requires History(es) && LastActivity(es, true) >= 0 && CompletionOf(es, LastActivity(es, true)) == 0
    ensures var store := es[LastActivity(es, true)];
            var t := store.attributes.value.0;
            Point(es) == if 0 < t < store.id && IsCompletedTask(es, t) then Some(t) else None
  {
    TasksAreTasks(es);
    TaskKinds(es);
    ScanIsFaithful(es);
    hide Scan, AfterCompletion, LastActivity, CompletionOf;
  }

  /** Without a store the last activity decides: once it is completed the point is the earliest
      workflow-task event behind the completion, and if it is not, or nothing is behind it,
      the task that scheduled it, provided the history shows that task as completed before. */
  lemma LastActivityDecides(es: seq<Event>)
    requires History(es) && LastActivity(es, true) < 0 <= LastActivity(es, false)
    ensures var last := es[LastActivity(es, false)];
            var c := CompletionOf(es, LastActivity(es, false));
            var t := last.attributes.value.0;
            if c != 0 && !NoTaskAfter(es, c) then Point(es).Some? && EarliestTaskAfter(es, c, Point(es).value)
            else Point(es) == if 0 < t < last.id && IsCompletedTask(es, t) then Some(t) else None
  {
    TasksAreTasks(es);
    TaskKinds(es);
    ScanIsFaithful(es);
    hide Scan, AfterCompletion, LastActivity, CompletionOf, IsCompletedTask, IsTask;
    var c := CompletionOf(es, LastActivity(es, false));
    EarliestFound(es, c);
  }

  predicate CompletesTask(e: Event) { e.Task? && e.kind.TaskCompleted? }

  /** f is the id of the first completed workflow task, or 0 if there is none. */
  ghost predicate IsFirstCompleted(es: seq<Event>, f: int) {
    if f == 0 then forall k | 0 <= k < |es| :: !CompletesTask(es[k])
    else
      && IsCompletedTask(es, f)
      && forall k | 0 <= k < |es| && CompletesTask(es[k]) :: f <= es[k].id
  }

  lemma FirstCompletedStep(es: seq<Event>, e: Event, f: int)
    requires History(es + [e]) && IsFirstCompleted(es, f)
    ensures IsFirstCompleted(es + [e], if CompletesTask(e) && f == 0 then e.id else f)
  {
    var all := es + [e];
    assert all[|es|] == e && e.id >= 1;
    assert forall k | 0 <= k < |es| :: all[k] == es[k] && all[k].id < all[|es|].id;
    TaskStep(es, e, if CompletesTask(e) && f == 0 then e.id else f);
    hide IsCompletedTask, IsTask, History;
  }

  lemma {:induction false} FirstCompletedIsFirst(es: seq<Event>)
    requires History(es)
    ensures IsFirstCompleted(es, Scan(es).firstCompleted)
  {
    if es != [] {
      var n := |es| - 1;
      assert es[..n] + [es[n]] == es;
      FirstCompletedIsFirst(es[..n]);
      hide IsFirstCompleted, History;
      FirstCompletedStep(es[..n], es[n], Scan(es[..n]).firstCompleted);
    }
  }

  /** Before any activity the import restarts at the first completed workflow task, if there
      is one. */
  lemma FreshImportRestarts(es: seq<Event>)
    requires History(es) && LastActivity(es, true) < 0 && LastActivity(es, false) < 0
    ensures IsFirstCompleted(es, if Point(es).None? then 0 else Point(es).value)
    ensures Point(es).Some? ==> Point(es).value != 0
  {
    hide Scan, AfterCompletion, LastActivity, CompletionOf, IsFirstCompleted;
    FirstCompletedIsFirst(es);
    ScanIsFaithful(es);
  }

  // ---- sequential histories ----

  /** The position of the workflow task that was completed last before k; -1 if none. */
  function TaskBefore(es: seq<Event>, k: nat): (t: int)
    requires k <= |es|
    ensures -1 <= t < k
    ensures t >= 0 ==> es[t].Task? && es[t].kind.TaskCompleted?
    ensures forall i | t < i < k :: !(es[i].Task? && es[i].kind.TaskCompleted?)
  {
    if k == 0 then -1
    else if es[k - 1].Task? && es[k - 1].kind.TaskCompleted? then k - 1
    else TaskBefore(es, k - 1)
  }

  /** The event at m completes an activity scheduled before it. */
  ghost predicate Completes(es: seq<Event>, m: int) {
    0 <= m < |es| && es[m].Completed? && es[m].scheduledId.Some?
    && exists i | 0 <= i < m :: IsActivity(es, i) && es[i].id == es[m].scheduledId.value
  }

  /** Every activity is scheduled by the workflow task completed last, and between the
      completion of an activity and the next schedule the workflow ran: a task completed. */
  ghost predicate Sequential(es: seq<Event>) {
    && (forall k | 0 <= k < |es| && IsActivity(es, k) ::
          TaskBefore(es, k) >= 0 && es[k].attributes.value.0 == es[TaskBefore(es, k)].id)
    && forall m, k | 0 <= m < k < |es| && Completes(es, m) && IsActivity(es, k) :: m < TaskBefore(es, k)
  }

  lemma {:induction false} CompletionIsLater(es: seq<Event>, k: nat)
    requires k < |es| && Increasing(es) && CompletionOf(es, k) != 0
    ensures CompletionOf(es, k) > es[k].id
  {
    var n := |es| - 1;
    if es[n] != Completed(es[n].id, Some(es[k].id)) {
      CompletionIsLater(es[..n], k);
    }
  }

  /** In a sequential history a reset keeps every activity that was completed before the
      anchor was scheduled, and there is a point unless the store was completed with no
      workflow task behind it. */
  lemma EarlierActivitiesAreKept(es: seq<Event>)
    requires History(es) && Sequential(es) && Anchor(es) >= 0
    ensures Point(es).Some? ==>
              forall m | 0 <= m < Anchor(es) && Completes(es, m) :: es[m].id < Point(es).value
    ensures Point(es).None? ==> LastActivity(es, true) >= 0 && CompletionOf(es, Anchor(es)) != 0
                                && NoTaskAfter(es, CompletionOf(es, Anchor(es)))
  {
    var k := Anchor(es);
    var t := TaskBefore(es, k);
    var c := CompletionOf(es, k);
    AnchorPoint(es);
    hide Scan, AfterCompletion, LastActivity, CompletionOf, NoTaskAfter, Completes, TaskBefore, Point;
    assert t >= 0 && es[k].attributes.value.0 == es[t].id;
    if Point(es).Some? {
      forall m | 0 <= m < k && Completes(es, m)
        ensures es[m].id < Point(es).value
      {
        assert m < t;
        assert es[m].id < es[t].id < es[k].id;
      }
    }
  }

  /** The point of a sequential history: the task that scheduled the anchor, or a task after
      its completion. */
  lemma AnchorPoint(es: seq<Event>)
    requires History(es) && Sequential(es) && Anchor(es) >= 0
    ensures var k := Anchor(es);
            var c := CompletionOf(es, k);
            if Point(es).Some? then
              Point(es).value == es[TaskBefore(es, k)].id || Point(es).value > es[k].id
            else LastActivity(es, true) >= 0 && c != 0 && NoTaskAfter(es, c)
  {
    var k := Anchor(es);
    var c := CompletionOf(es, k);
    if c != 0 {
      CompletionIsLater(es, k);
    }
    hide Scan, AfterCompletion, LastActivity, CompletionOf, NoTaskAfter, Completes;
    ScanIsFaithful(es);
    TaskKinds(es);
    EarliestFound(es, c);
    var t := TaskBefore(es, k);
    assert es[t].id < es[k].id;
    assert SchedulingPoint(Scan(es).tasks, ActivityAt(es, k)) == Some(es[t].id);
  }
}
