// The life of tasks over whole runs of the manager: any interleaving of AddTask, DeleteTask, ticks, the goroutines
// that execute triggered batches, and changes of the module table. The steps are the functions that the methods
// of TaskManager.Manager are proved to compute.

module TaskLifecycle {
  import opened ItemIDs
  import opened T = TaskModel
  import W = WheelModel
  import R = WheelRuns
  import F = WheelRefinement
  import N = NaiveScheduler

  datatype Position = Position(batch: nat, index: nat)

  // Beside the manager's state: the ids that AddTask has returned, those deleted while pending, the batches that
  // ticks have triggered in order, which of them have been executed, where every triggered id stands in them,
  // and the keys put into the result store.
  datatype State = State(
    core: Core,
    accepted: set<Int64>,
    dropped: set<Int64>,
    triggered: seq<seq<Int64>>,
    executed: set<nat>,
    fired: map<Int64, Position>,
    written: set<ItemID>)

  datatype Action =
    | DoAdd(job: Job, env: AddEnv)
    | DoDelete(uuid: ItemID, deleteOk: bool)
    | DoTick
    | DoExecute(batch: nat, xs: seq<Exec>)
    | DoModules(modules: map<string, string>)

  function Init(m: nat, dbTask: map<ItemID, Job>, dbResult: map<ItemID, Result>, modules: map<string, string>): State
  {
    State(Core(W.Empty(m), dbTask, dbResult, modules), {}, {}, [], {}, map[], {})
  }

  predicate AreIds(s: seq<int>)
  {
    forall k :: 0 <= k < |s| ==> -TWO_63 <= s[k] < TWO_63
  }

  // The id generator does not repeat an id that is in use, no delay makes Add index out of range, and a batch is
  // executed by the one goroutine that was started for it.
  predicate Enabled(s: State, a: Action)
  {
    && s.core.wheel.cursor < |s.core.wheel.slots|
    && match a
       case DoAdd(job, env) =>
         && (env.newId.Ok? ==> env.newId.value !in s.accepted)
         && (Refusal(s.core, job, env).Ok? ==> W.CanAdd(s.core.wheel, job.interval))
       case DoDelete(_, _) => true
       case DoTick => AreIds(W.Trigger(s.core.wheel).1)
       case DoExecute(b, xs) => b < |s.triggered| && b !in s.executed && |xs| == |s.triggered[b]|
       case DoModules(modules) => forall m :: m in modules ==> '@' in m
  }

  // Where the first n ids of a new batch stand.
  function Places(jobs: seq<Int64>, batch: nat, n: nat): map<Int64, Position>
    requires n <= |jobs|
  {
    if n == 0 then map[] else Places(jobs, batch, n - 1)[jobs[n - 1] := Position(batch, n - 1)]
  }

  function Apply(s: State, a: Action): State
    requires Enabled(s, a)
  {
    match a
    case DoAdd(job, env) =>
      var (c, r) := AddTask(s.core, job, env);
      s.(core := c, accepted := s.accepted + (if r.Ok? then {r.value} else {}))
    case DoDelete(uuid, deleteOk) =>
      var id := Int64Of(uuid);
      s.(core := DeleteTask(s.core, uuid, deleteOk).0,
         dropped := s.dropped + (if deleteOk && id in s.core.wheel.live then {id} else {}))
    case DoTick =>
      var (w, jobs) := W.Trigger(s.core.wheel);
      var s' := s.(core := s.core.(wheel := w));
      if jobs == [] then s'
      else
        s'.(triggered := s.triggered + [jobs],
            fired := s.fired + Places(jobs, |s.triggered|, |jobs|))
    case DoExecute(b, xs) =>
      var tids := s.triggered[b];
      s.(core := ExecuteJobs(s.core, tids, xs).0, executed := s.executed + {b},
         written := s.written +
           set k | 0 <= k < |tids| && Runs(s.core, tids[k], xs[k]) && xs[k].putOk :: KeyOf(tids[k]))
    case DoModules(modules) => s.(core := s.core.(modules := modules))
  }

  // ---- The invariant ----

  // Every triggered id stands at one place in one batch.
  ghost predicate Located(triggered: seq<seq<Int64>>, fired: map<Int64, Position>)
  {
    && (forall id :: id in fired ==>
          var p := fired[id];
          p.batch < |triggered| && p.index < |triggered[p.batch]| && triggered[p.batch][p.index] == id)
    && (forall b: nat, k: nat :: b < |triggered| && k < |triggered[b]| ==>
          triggered[b][k] in fired && fired[triggered[b][k]] == Position(b, k))
  }

  ghost predicate BatchesInv(s: State)
  {
    Located(s.triggered, s.fired) && forall b :: b in s.executed ==> b < |s.triggered|
  }

  // Every accepted id is pending, or was deleted while pending, or was triggered, and only one of these.
  ghost predicate PhasesInv(s: State)
  {
    && (forall id :: id in s.accepted <==> id in s.core.wheel.live || id in s.dropped || id in s.fired)
    && (forall id :: id in s.core.wheel.live ==> id !in s.dropped && id !in s.fired)
    && (forall id :: id in s.dropped ==> id !in s.fired)
  }

  ghost predicate StoresInv(s: State)
  {
    && (forall id: Int64 :: id in s.core.wheel.live ==> KeyOf(id) in s.core.dbTask)
    && (forall key :: key in s.written ==> Int64Of(key) in s.fired && s.fired[Int64Of(key)].batch in s.executed)
    && s.written <= s.core.dbResult.Keys
    && (forall m :: m in s.core.modules ==> '@' in m)
  }

  ghost predicate WheelInv(s: State)
  {
    W.Inv(s.core.wheel) && W.Bijective(s.core.wheel) && forall id :: id in s.core.wheel.live ==> -TWO_63 <= id < TWO_63
  }

  ghost predicate Inv(s: State)
  {
    WheelInv(s) && BatchesInv(s) && PhasesInv(s) && StoresInv(s)
  }

  lemma InitInv(m: nat, dbTask: map<ItemID, Job>, dbResult: map<ItemID, Result>, modules: map<string, string>)
    requires m > 0 && forall x :: x in modules ==> '@' in x
    ensures Inv(Init(m, dbTask, dbResult, modules))
  {
    W.EmptyInv(m);
  }

  lemma AddPreserves(s: State, a: Action)
    requires Inv(s) && a.DoAdd? && Enabled(s, a)
    ensures Inv(Apply(s, a))
  {
    var r := Refusal(s.core, a.job, a.env);
    if r.Ok? {
      W.AddInv(s.core.wheel, r.value, a.job.interval);
      AddStores(s.core, a.job, a.env);
    }
  }

  lemma AddStores(c: Core, job: Job, env: AddEnv)
    requires forall id: Int64 :: id in c.wheel.live ==> KeyOf(id) in c.dbTask
    requires c.wheel.cursor < |c.wheel.slots| && Refusal(c, job, env).Ok? && W.CanAdd(c.wheel, job.interval)
    ensures var c' := AddTask(c, job, env).0; forall id: Int64 :: id in c'.wheel.live ==> KeyOf(id) in c'.dbTask
  {
    var c' := AddTask(c, job, env).0;
    forall id: Int64 | id in c'.wheel.live
      ensures KeyOf(id) in c'.dbTask
    {
      KeysDistinct(id, env.newId.value);
    }
  }

  lemma DeletePreserves(s: State, a: Action)
    requires Inv(s) && a.DoDelete? && Enabled(s, a)
    ensures Inv(Apply(s, a))
  {
    W.DeleteSucceeds(s.core.wheel, Int64Of(a.uuid));
    W.DeleteInv(s.core.wheel, Int64Of(a.uuid));
    DeleteStores(s.core, a.uuid);
  }

  lemma DeleteStores(c: Core, uuid: ItemID)
    requires W.Inv(c.wheel) && forall id: Int64 :: id in c.wheel.live ==> KeyOf(id) in c.dbTask
    ensures var c' := DeleteTask(c, uuid, true).0; forall id: Int64 :: id in c'.wheel.live ==> KeyOf(id) in c'.dbTask
  {
    var c' := DeleteTask(c, uuid, true).0;
    W.DeleteSucceeds(c.wheel, Int64Of(uuid));
    forall x: Int64 | x in c'.wheel.live
      ensures KeyOf(x) in c'.dbTask
    {
      KeyRoundTrip(x, uuid);
    }
  }

  // The ids that a tick triggers were pending, no longer are, and are all different.
  lemma TriggerTakesPending(w: W.Wheel)
    requires W.Inv(w) && W.Bijective(w)
    ensures var (w', jobs) := W.Trigger(w);
            && (forall k :: 0 <= k < |jobs| ==> jobs[k] in w.live)
            && (forall j, k :: 0 <= j < k < |jobs| ==> jobs[j] != jobs[k])
            && (forall id :: id in w'.live <==> id in w.live && id !in jobs)
  {
    var c := w.cursor;
    var due, jobs := W.Due(w.slots[c]), W.Trigger(w).1;
    W.SplitOrdered(w.slots[c], c, w.pushed);
    forall k | 0 <= k < |jobs|
      ensures jobs[k] in w.live && w.live[jobs[k]] == W.Place(c, due[k].stamp)
    {
      var j := W.DueSource(w.slots[c], k);
    }
    assert forall k :: 0 <= k < |jobs| ==> jobs[k] == due[k].id;
  }

  lemma TickPreserves(s: State)
    requires Inv(s)
    ensures Enabled(s, DoTick) && Inv(Apply(s, DoTick))
  {
    var w, jobs := s.core.wheel, W.Trigger(s.core.wheel).1;
    W.TriggerInv(w);
    TriggerTakesPending(w);
    TickBatches(s.triggered, s.fired, jobs);
    TickFires(s, jobs);
    TickStores(s);
  }

  lemma TickStores(s: State)
    requires StoresInv(s) && Enabled(s, DoTick) && BatchesInv(s)
    requires forall id :: id in s.fired ==> id in Apply(s, DoTick).fired && Apply(s, DoTick).fired[id] == s.fired[id]
    ensures StoresInv(Apply(s, DoTick))
  {
  }

  lemma {:induction false} PlacesOf(jobs: seq<Int64>, batch: nat, n: nat)
    requires n <= |jobs| && forall j, k :: 0 <= j < k < |jobs| ==> jobs[j] != jobs[k]
    ensures var m := Places(jobs, batch, n);
            && (forall k :: 0 <= k < n ==> jobs[k] in m && m[jobs[k]] == Position(batch, k))
            && (forall id :: id in m ==> m[id].batch == batch && m[id].index < n && jobs[m[id].index] == id)
  {
    if n > 0 {
      PlacesOf(jobs, batch, n - 1);
    }
  }

  lemma TickBatches(triggered: seq<seq<Int64>>, fired: map<Int64, Position>, jobs: seq<Int64>)
    requires Located(triggered, fired)
    requires forall k :: 0 <= k < |jobs| ==> jobs[k] !in fired
    requires forall j, k :: 0 <= j < k < |jobs| ==> jobs[j] != jobs[k]
    ensures Located(triggered + [jobs], fired + Places(jobs, |triggered|, |jobs|))
  {
    PlacesOf(jobs, |triggered|, |jobs|);
    var triggered', fired' := triggered + [jobs], fired + Places(jobs, |triggered|, |jobs|);
    forall b: nat, k: nat | b < |triggered'| && k < |triggered'[b]|
      ensures triggered'[b][k] in fired' && fired'[triggered'[b][k]] == Position(b, k)
    {
      if b < |triggered| {
        assert triggered[b][k] in fired;
      }
    }
  }

  // After a tick the triggered ids are fired, and everything else is where it was.
  lemma TickFires(s: State, jobs: seq<Int64>)
    requires Enabled(s, DoTick) && jobs == W.Trigger(s.core.wheel).1
    requires forall j, k :: 0 <= j < k < |jobs| ==> jobs[j] != jobs[k]
    ensures var s' := Apply(s, DoTick);
            && (forall id :: id in s'.fired <==> id in s.fired || id in jobs)
            && (forall id :: id in s.fired && id !in jobs ==> s'.fired[id] == s.fired[id])
  {
    var places := Places(jobs, |s.triggered|, |jobs|);
    PlacesOf(jobs, |s.triggered|, |jobs|);
    assert forall id :: id in places <==> id in jobs;
  }

  lemma ExecutePreserves(s: State, a: Action)
    requires Inv(s) && a.DoExecute? && Enabled(s, a)
    ensures Inv(Apply(s, a))
  {
    var s', tids := Apply(s, a), s.triggered[a.batch];
    forall key | key in s'.written
      ensures key in s'.core.dbResult
    {
      ExecuteStores(s, a, key);
    }
    forall key | key in s'.written
      ensures Int64Of(key) in s'.fired && s'.fired[Int64Of(key)].batch in s'.executed
    {
      if key !in s.written {
        var k :| 0 <= k < |tids| && key == KeyOf(tids[k]);
        KeyRoundTrip(tids[k], key);
      }
    }
  }

  // A batch writes exactly the keys that it adds to written.
  lemma ExecuteStores(s: State, a: Action, key: ItemID)
    requires BatchesInv(s) && a.DoExecute? && Enabled(s, a)
    ensures var s', tids := Apply(s, a), s.triggered[a.batch];
            && (forall k :: 0 <= k < |tids| && key == KeyOf(tids[k]) && Puts(s.core, tids[k], a.xs[k]) ==>
                  key in s'.core.dbResult && s'.core.dbResult[key] == ResultOf(s.core, tids[k], a.xs[k]))
            && ((forall k :: 0 <= k < |tids| && key == KeyOf(tids[k]) ==> !Puts(s.core, tids[k], a.xs[k])) ==>
                  SameEntry(s.core.dbResult, s'.core.dbResult, key))
            && (key in s.core.dbResult ==> key in s'.core.dbResult)
  {
    var tids := s.triggered[a.batch];
    forall j, k | 0 <= j < k < |tids|
      ensures tids[j] != tids[k]
    {
      assert s.fired[tids[j]] == Position(a.batch, j);
      assert s.fired[tids[k]] == Position(a.batch, k);
    }
    StoredResults(s.core, tids, a.xs, |tids|, key);
  }

  predicate Puts(c: Core, tid: Int64, x: Exec)
  {
    Runs(c, tid, x) && x.putOk
  }

  predicate SameEntry(m: map<ItemID, Result>, m': map<ItemID, Result>, key: ItemID)
  {
    (key in m <==> key in m') && (key in m ==> m[key] == m'[key])
  }

  lemma StepPreserves(s: State, a: Action)
    requires Inv(s) && Enabled(s, a)
    ensures Inv(Apply(s, a))
  {
    match a
    case DoAdd(_, _) => AddPreserves(s, a);
    case DoDelete(_, _) => DeletePreserves(s, a);
    case DoTick => TickPreserves(s);
    case DoExecute(_, _) => ExecutePreserves(s, a);
    case DoModules(_) =>
  }

  // ---- Runs ----

  ghost predicate Runnable(s: State, acts: seq<Action>)
    decreases |acts|
  {
    acts == [] || (Enabled(s, acts[0]) && Runnable(Apply(s, acts[0]), acts[1..]))
  }

  ghost function Run(s: State, acts: seq<Action>): State
    requires Runnable(s, acts)
    decreases |acts|
  {
    if acts == [] then s else Run(Apply(s, acts[0]), acts[1..])
  }

  // In every state of every run each accepted task is in exactly one phase, the triggered ones stand at one place
  // in one batch, every pending task has its job in the store, and a result key was written only for a task whose
  // batch has been executed.
  lemma {:induction false} RunInv(s: State, acts: seq<Action>)
    requires Inv(s) && Runnable(s, acts)
    ensures Inv(Run(s, acts))
    decreases |acts|
  {
    if acts != [] {
      StepPreserves(s, acts[0]);
      RunInv(Apply(s, acts[0]), acts[1..]);
    }
  }

  // The states of the manager's runs: it starts with an empty wheel and whatever the stores and the module directory
  // hold.
  ghost predicate Start(s: State)
  {
    exists m, dbTask, dbResult, modules ::
      m > 0 && (forall x :: x in modules ==> '@' in x) && s == Init(m, dbTask, dbResult, modules)
  }

  ghost predicate Reachable(s: State)
  {
    exists start, acts :: Start(start) && Runnable(start, acts) && Run(start, acts) == s
  }

  lemma StartInv(s: State)
    requires Start(s)
    ensures Inv(s) && F.Represents(s.core.wheel, N.Scheduler([], 0))
  {
    var m, dbTask, dbResult, modules :|
      m > 0 && (forall x :: x in modules ==> '@' in x) && s == Init(m, dbTask, dbResult, modules);
    InitInv(m, dbTask, dbResult, modules);
    F.EmptyRepresents(m);
  }

  // Every reachable state keeps the invariant, and a naive scheduler stands for its wheel.
  lemma ReachableInv(s: State) returns (sched: N.Scheduler)
    requires Reachable(s)
    ensures Inv(s) && F.Represents(s.core.wheel, sched)
  {
    var start, acts :| Start(start) && Runnable(start, acts) && Run(start, acts) == s;
    StartInv(start);
    RunInv(start, acts);
    sched := RunRepresented(start, N.Scheduler([], 0), acts);
  }

  lemma {:induction false} RunRepresented(s: State, sched: N.Scheduler, acts: seq<Action>) returns (sched': N.Scheduler)
    requires Inv(s) && F.Represents(s.core.wheel, sched) && Runnable(s, acts)
    ensures F.Represents(Run(s, acts).core.wheel, sched')
    decreases |acts|
  {
    sched' := sched;
    if acts != [] {
      StepPreserves(s, acts[0]);
      var sched1 := StepRepresented(s, sched, acts[0]);
      sched' := RunRepresented(Apply(s, acts[0]), sched1, acts[1..]);
    }
  }

  // What a step cannot take back.
  ghost predicate Extends(s: State, s': State)
  {
    && s.accepted <= s'.accepted && s.dropped <= s'.dropped && s.executed <= s'.executed && s.written <= s'.written
    && s.triggered <= s'.triggered
  }

  lemma {:induction false} RunExtends(s: State, acts: seq<Action>)
    requires Runnable(s, acts)
    ensures Extends(s, Run(s, acts))
    decreases |acts|
  {
    if acts != [] {
      RunExtends(Apply(s, acts[0]), acts[1..]);
    }
  }

  // A task deleted while it is pending is never triggered, executed or pending again, whatever follows, and whatever
  // the result store holds under its key stays there.
  lemma DeletedStaysDeleted(s: State, acts: seq<Action>, id: Int64)
    requires Reachable(s) && Runnable(s, acts) && id in s.dropped
    ensures var s' := Run(s, acts);
            && id !in s'.core.wheel.live
            && (forall b :: 0 <= b < |s'.triggered| ==> id !in s'.triggered[b])
            && KeyOf(id) !in s'.written
            && SameEntry(s.core.dbResult, s'.core.dbResult, KeyOf(id))
  {
    var _ := ReachableInv(s);
    RunInv(s, acts);
    RunExtends(s, acts);
    KeyRoundTrip(id, KeyOf(id));
    OnlyWrittenChange(s, acts, KeyOf(id));
  }

  // No batch is executed twice in a run.
  lemma {:induction false} NotAgain(s: State, acts: seq<Action>, j: nat, b: nat)
    requires Runnable(s, acts) && j < |acts| && acts[j].DoExecute? && b in s.executed
    ensures acts[j].batch != b
    decreases j
  {
    if j > 0 {
      NotAgain(Apply(s, acts[0]), acts[1..], j - 1, b);
    }
  }

  lemma {:induction false} ExecutedOnce(s: State, acts: seq<Action>, i: nat, j: nat)
    requires Runnable(s, acts) && i < j < |acts| && acts[i].DoExecute? && acts[j].DoExecute?
    ensures acts[i].batch != acts[j].batch
    decreases i
  {
    if i == 0 {
      NotAgain(Apply(s, acts[0]), acts[1..], j - 1, acts[0].batch);
    } else {
      ExecutedOnce(Apply(s, acts[0]), acts[1..], i - 1, j - 1);
    }
  }

  // No task is processed twice: the batches that two executions of a run handle have no id in common.
  lemma ProcessedOnce(s: State, acts: seq<Action>, i: nat, j: nat, k: nat, l: nat)
    requires Reachable(s) && Runnable(s, acts) && i < j < |acts| && acts[i].DoExecute? && acts[j].DoExecute?
    requires acts[i].batch < |Run(s, acts).triggered| && k < |Run(s, acts).triggered[acts[i].batch]|
    requires acts[j].batch < |Run(s, acts).triggered| && l < |Run(s, acts).triggered[acts[j].batch]|
    ensures Run(s, acts).triggered[acts[i].batch][k] != Run(s, acts).triggered[acts[j].batch][l]
  {
    var _ := ReachableInv(s);
    RunInv(s, acts);
    ExecutedOnce(s, acts, i, j);
  }

  // CheckTask answers true exactly for the pending tasks.
  lemma CheckIsPending(s: State, uuid: ItemID)
    requires Reachable(s)
    ensures CheckTask(s.core, uuid) == Ok(true) <==> Int64Of(uuid) in s.core.wheel.live
    ensures Int64Of(uuid) in s.core.wheel.live ==> Int64Of(uuid) in s.accepted
  {
    var _ := ReachableInv(s);
    KeyRoundTrip(Int64Of(uuid), uuid);
  }

  // CheckTask over the life of a task that was accepted and not deleted: true until its batch, false from then on; and
  // without a stored job the answer is not found, whatever the wheel holds.
  lemma CheckAnswers(s: State, add: Action, acts: seq<Action>)
    requires Reachable(s) && Accepts(s, add) && Runnable(Apply(s, add), acts)
    requires forall k :: 0 <= k < |acts| ==> Spares(acts[k], add.env.newId.value)
    ensures var t, id := Run(Apply(s, add), acts), add.env.newId.value;
            && (id !in t.fired ==> CheckTask(t.core, KeyOf(id)) == Ok(true))
            && (id in t.fired ==> CheckTask(t.core, KeyOf(id)) == Ok(false))
  {
    AcceptedRun(s, add, acts);
    var id := add.env.newId.value;
    KeyRoundTrip(id, KeyOf(id));
    AcceptedInv(s, add);
    NotDropped(Apply(s, add), acts, id);
  }

  lemma {:induction false} NotDropped(s: State, acts: seq<Action>, id: Int64)
    requires Runnable(s, acts) && id !in s.dropped && forall k :: 0 <= k < |acts| ==> Spares(acts[k], id)
    ensures id !in Run(s, acts).dropped
    decreases |acts|
  {
    if acts != [] {
      NotDropped(Apply(s, acts[0]), acts[1..], id);
    }
  }

  lemma CheckNeedsJob(s: State, uuid: ItemID)
    requires Reachable(s)
    ensures CheckTask(s.core, uuid) == Fail(NotFound) <==> uuid !in s.core.dbTask
    ensures CheckTask(s.core, uuid) == Ok(false) <==> uuid in s.core.dbTask && Int64Of(uuid) !in s.core.wheel.live
    ensures Int64Of(uuid) in s.core.wheel.live ==> uuid in s.core.dbTask
  {
    var _ := ReachableInv(s);
    KeyRoundTrip(Int64Of(uuid), uuid);
  }

  // A task that is deleted right after it was accepted leaves the stores, the ring and the id map as they were.
  lemma DeleteUndoesAddTask(s: State, job: Job, env: AddEnv)
    requires Reachable(s) && Enabled(s, DoAdd(job, env)) && Refusal(s.core, job, env).Ok?
    requires KeyOf(env.newId.value) !in s.core.dbTask
    ensures
      var id := env.newId.value;
      var (c, r) := DeleteTask(AddTask(s.core, job, env).0, KeyOf(id), true);
      r == Ok(true) && c.(wheel := c.wheel.(pushed := s.core.wheel.pushed)) == s.core
  {
    var id := env.newId.value;
    var _ := ReachableInv(s);
    KeyRoundTrip(id, KeyOf(id));
    W.DeleteUndoesAdd(s.core.wheel, id, job.interval);
    assert s.core.dbTask[KeyOf(id) := job] - {KeyOf(id)} == s.core.dbTask;
  }

  // ---- The result store ----

  // Over every run, a key that is not recorded as written keeps its entry.
  lemma {:induction false} OnlyWrittenChange(s: State, acts: seq<Action>, key: ItemID)
    requires Inv(s) && Runnable(s, acts) && key !in Run(s, acts).written
    ensures SameEntry(s.core.dbResult, Run(s, acts).core.dbResult, key)
    decreases |acts|
  {
    if acts != [] {
      var s1 := Apply(s, acts[0]);
      StepPreserves(s, acts[0]);
      RunExtends(s1, acts[1..]);
      if acts[0].DoExecute? {
        ExecuteStores(s, acts[0], key);
      }
      OnlyWrittenChange(s1, acts[1..], key);
    }
  }

  // The result of a task whose batch has been executed is never written again.
  lemma {:induction false} ResultStays(s: State, acts: seq<Action>, id: Int64)
    requires Inv(s) && Runnable(s, acts) && id in s.fired && s.fired[id].batch in s.executed
    ensures SameEntry(s.core.dbResult, Run(s, acts).core.dbResult, KeyOf(id))
    decreases |acts|
  {
    if acts != [] {
      StepPreserves(s, acts[0]);
      ResultStaysInStep(s, acts[0], id);
      ResultStays(Apply(s, acts[0]), acts[1..], id);
    }
  }

  lemma ResultStaysInStep(s: State, a: Action, id: Int64)
    requires Inv(s) && Enabled(s, a) && id in s.fired && s.fired[id].batch in s.executed
    ensures var s' := Apply(s, a);
            && SameEntry(s.core.dbResult, s'.core.dbResult, KeyOf(id))
            && id in s'.fired && s'.fired[id].batch in s'.executed
  {
    if a.DoExecute? {
      ExecuteStores(s, a, KeyOf(id));
      var tids := s.triggered[a.batch];
      forall k | 0 <= k < |tids|
        ensures KeyOf(tids[k]) != KeyOf(id)
      {
        assert s.fired[tids[k]] == Position(a.batch, k);
        KeysDistinct(tids[k], id);
      }
    } else if a.DoTick? {
      TriggerTakesPending(s.core.wheel);
      TickFires(s, W.Trigger(s.core.wheel).1);
    }
  }

  // The job that AddTask has stored for an id is the one under its key as long as there is one.
  ghost predicate Stores(s: State, id: Int64, job: Job)
  {
    id in s.accepted && (KeyOf(id) in s.core.dbTask ==> s.core.dbTask[KeyOf(id)] == job)
  }

  lemma {:induction false} JobStays(s: State, acts: seq<Action>, id: Int64, job: Job)
    requires Runnable(s, acts) && Stores(s, id, job)
    ensures Stores(Run(s, acts), id, job)
    ensures KeyOf(id) in s.core.dbTask && (forall k :: 0 <= k < |acts| ==> Spares(acts[k], id)) ==>
              KeyOf(id) in Run(s, acts).core.dbTask
    decreases |acts|
  {
    if acts != [] {
      JobStaysInStep(s, acts[0], id, job);
      JobStays(Apply(s, acts[0]), acts[1..], id, job);
    }
  }

  lemma JobStaysInStep(s: State, a: Action, id: Int64, job: Job)
    requires Enabled(s, a) && Stores(s, id, job)
    ensures Stores(Apply(s, a), id, job)
    ensures KeyOf(id) in s.core.dbTask && Spares(a, id) ==> KeyOf(id) in Apply(s, a).core.dbTask
  {
    match a
    case DoAdd(_, env) =>
      if env.newId.Ok? {
        KeysDistinct(env.newId.value, id);
      }
    case DoDelete(uuid, _) => KeyRoundTrip(id, KeyOf(id));
    case DoTick =>
    case DoExecute(_, _) =>
    case DoModules(_) =>
  }

  predicate Accepts(s: State, add: Action)
  {
    add.DoAdd? && Enabled(s, add) && Refusal(s.core, add.job, add.env).Ok?
  }

  // Whenever a task is executed that its store still knows, it is executed as the job that was accepted.
  lemma ExecutedAsAccepted(s: State, add: Action, acts: seq<Action>, x: Exec)
    requires Accepts(s, add) && Runnable(Apply(s, add), acts)
    ensures var c, id := Run(Apply(s, add), acts).core, add.env.newId.value;
            Runs(c, id, x) ==> ResultOf(c, id, x) == ResultForJob(c.modules, add.job, id, x)
  {
    AcceptedJob(s, add);
    JobStays(Apply(s, add), acts, add.env.newId.value, add.job);
  }

  // A plugin task is accepted under its completed name but run under the name as given: whenever after its acceptance
  // it is run, it runs the module exactly when the caller spelled a version out and the table has it at that moment,
  // and ends in the zero result otherwise. Without a version it always does.
  lemma PluginRunsIffVersioned(s: State, add: Action, acts: seq<Action>, x: Exec)
    requires Reachable(s) && Accepts(s, add) && add.job.jobType == Plugin && Runnable(Apply(s, add), acts)
    ensures var c, id := Run(Apply(s, add), acts).core, add.env.newId.value;
            Runs(c, id, x) ==>
              ResultOf(c, id, x) ==
                if '@' in add.job.extra && LookupName(add.job.extra) in c.modules
                then Result(id, x.beginTime, x.endTime, x.errorMsg, "") else ZERO_RESULT
  {
    AcceptedRun(s, add, acts);
  }

  // A task that is accepted, not deleted before its batch is executed, and whose stored job decodes and whose result
  // can be put, leaves the result of the accepted job under its own key for ever.
  lemma ResultIsStored(s: State, add: Action, acts: seq<Action>, ex: Action, k: nat, later: seq<Action>)
    requires Reachable(s) && Accepts(s, add) && Runnable(Apply(s, add), acts)
    requires forall j :: 0 <= j < |acts| ==> Spares(acts[j], add.env.newId.value)
    requires var t := Run(Apply(s, add), acts);
             && ex.DoExecute? && Enabled(t, ex) && Runnable(Apply(t, ex), later)
             && k < |ex.xs| && t.triggered[ex.batch][k] == add.env.newId.value
             && ex.xs[k].unmarshalOk && ex.xs[k].putOk
    ensures var t, id := Run(Apply(s, add), acts), add.env.newId.value;
            var results := Run(Apply(t, ex), later).core.dbResult;
            && KeyOf(id) in results && results[KeyOf(id)] == ResultForJob(t.core.modules, add.job, id, ex.xs[k])
            && (add.job.jobType in {Cmd, File} ==>
                  results[KeyOf(id)] ==
                    Result(id, ex.xs[k].beginTime, ex.xs[k].endTime, ex.xs[k].errorMsg, ex.xs[k].output))
            && (add.job.jobType == Plugin && add.job.extra in t.core.modules ==>
                  results[KeyOf(id)] == Result(id, ex.xs[k].beginTime, ex.xs[k].endTime, ex.xs[k].errorMsg, ""))
  {
    AcceptedRun(s, add, acts);
    BatchIsStored(Run(Apply(s, add), acts), ex, k, later);
  }

  lemma AcceptedRun(s: State, add: Action, acts: seq<Action>)
    requires Reachable(s) && Accepts(s, add) && Runnable(Apply(s, add), acts)
    ensures var t, id := Run(Apply(s, add), acts), add.env.newId.value;
            && Inv(t) && Stores(t, id, add.job)
            && ((forall j :: 0 <= j < |acts| ==> Spares(acts[j], id)) ==> KeyOf(id) in t.core.dbTask)
  {
    AcceptedInv(s, add);
    RunInv(Apply(s, add), acts);
    AcceptedJob(s, add);
    JobStays(Apply(s, add), acts, add.env.newId.value, add.job);
  }

  lemma AcceptedInv(s: State, add: Action)
    requires Reachable(s) && Enabled(s, add)
    ensures Inv(Apply(s, add))
  {
    var _ := ReachableInv(s);
    StepPreserves(s, add);
  }

  lemma AcceptedJob(s: State, add: Action)
    requires Accepts(s, add)
    ensures Stores(Apply(s, add), add.env.newId.value, add.job)
    ensures KeyOf(add.env.newId.value) in Apply(s, add).core.dbTask
  {
  }

  lemma BatchIsStored(t: State, ex: Action, k: nat, later: seq<Action>)
    requires Inv(t) && ex.DoExecute? && Enabled(t, ex) && Runnable(Apply(t, ex), later)
    requires k < |ex.xs| && Runs(t.core, t.triggered[ex.batch][k], ex.xs[k]) && ex.xs[k].putOk
    ensures var id := t.triggered[ex.batch][k];
            var results := Run(Apply(t, ex), later).core.dbResult;
            KeyOf(id) in results && results[KeyOf(id)] == ResultOf(t.core, id, ex.xs[k])
  {
    var id := t.triggered[ex.batch][k];
    StepPreserves(t, ex);
    ExecuteStores(t, ex, KeyOf(id));
    assert t.fired[id] == Position(ex.batch, k);
    ResultStays(Apply(t, ex), later, id);
  }

  // ---- Timing ----

  function TicksIn(acts: seq<Action>): nat
  {
    if acts == [] then 0 else (if acts[0].DoTick? then 1 else 0) + TicksIn(acts[1..])
  }

  predicate Spares(a: Action, id: Int64)
  {
    !(a.DoDelete? && a.deleteOk && Int64Of(a.uuid) == id)
  }

  // The call of the wheel that a step makes, if it makes one.
  function CallOf(s: State, a: Action): (c: seq<R.Call>)
    requires Enabled(s, a)
    ensures |c| <= 1
  {
    match a
    case DoAdd(job, env) =>
      var r := Refusal(s.core, job, env);
      if r.Ok? then [R.CallAdd(r.value, job.interval)] else []
    case DoDelete(uuid, deleteOk) => if deleteOk then [R.CallDelete(Int64Of(uuid))] else []
    case DoTick => [R.CallTrigger]
    case _ => []
  }

  lemma StepCallsWheel(s: State, a: Action)
    requires Inv(s) && Enabled(s, a)
    ensures var c := CallOf(s, a);
            && (c == [] ==> Apply(s, a).core.wheel == s.core.wheel)
            && (c != [] ==>
                  && (c[0].CallAdd? ==> W.CanAdd(s.core.wheel, c[0].ticks) && c[0].id !in s.core.wheel.live)
                  && Apply(s, a).core.wheel == R.Step(s.core.wheel, c[0]).0)
  {
  }

  lemma StepRepresented(s: State, sched: N.Scheduler, a: Action) returns (sched': N.Scheduler)
    requires Inv(s) && Enabled(s, a) && F.Represents(s.core.wheel, sched)
    ensures F.Represents(Apply(s, a).core.wheel, sched')
    ensures CallOf(s, a) == [] ==> sched' == sched
    ensures CallOf(s, a) != [] ==> sched' == F.NaiveStep(sched, CallOf(s, a)[0], |s.core.wheel.slots|).0
  {
    StepCallsWheel(s, a);
    var c := CallOf(s, a);
    sched' := sched;
    if c != [] {
      sched' := F.NaiveStep(sched, c[0], |s.core.wheel.slots|).0;
      F.StepRefines(s.core.wheel, sched, c[0]);
    }
  }

  // The ids that the tick at position p of a run triggers.
  ghost function TickOutput(s: State, acts: seq<Action>, p: nat): seq<int>
    requires Runnable(s, acts) && p < |acts| && acts[p].DoTick?
    decreases p
  {
    if p == 0 then W.Trigger(s.core.wheel).1 else TickOutput(Apply(s, acts[0]), acts[1..], p - 1)
  }

  lemma {:induction false} TaskFiresAfter(s: State, acts: seq<Action>, id: Int64, l: int, p: nat)
    requires Inv(s) && Runnable(s, acts) && p < |acts| && acts[p].DoTick?
    requires F.Waits(s.core.wheel, id, l) && id in s.accepted
    requires forall k :: 0 <= k < |acts| ==> Spares(acts[k], id)
    ensures id in TickOutput(s, acts, p) <==> TicksIn(acts[..p]) == l
    decreases p
  {
    if p == 0 {
      F.FiresWhenDue(s.core.wheel, id, l);
    } else {
      StepWaits(s, acts[0], id, l);
      assert acts[..p][1..] == acts[1..][..p - 1];
      TaskFiresAfter(Apply(s, acts[0]), acts[1..], id, if acts[0].DoTick? then l - 1 else l, p - 1);
    }
  }

  lemma StepWaits(s: State, a: Action, id: Int64, l: int)
    requires Inv(s) && Enabled(s, a) && Spares(a, id) && id in s.accepted && F.Waits(s.core.wheel, id, l)
    ensures Inv(Apply(s, a)) && id in Apply(s, a).accepted
    ensures F.Waits(Apply(s, a).core.wheel, id, if a.DoTick? then l - 1 else l)
  {
    StepPreserves(s, a);
    StepCallsWheel(s, a);
    var c := CallOf(s, a);
    if c != [] {
      assert F.LeavesAlone([c[0]], id);
      F.StepWaits(s.core.wheel, c[0], id, l);
    }
  }

  // A task that AddTask accepts with an interval of n seconds, and that nobody deletes, is in the batch of the
  // (n+1)-th later tick and of no other, whatever else the manager does in between. A negative n that is not out of
  // range counts modulo the ring size.
  lemma TaskTiming(s: State, add: Action, acts: seq<Action>, p: nat)
    requires Reachable(s) && Accepts(s, add)
    requires Runnable(Apply(s, add), acts) && p < |acts| && acts[p].DoTick?
    requires forall k :: 0 <= k < |acts| ==> Spares(acts[k], add.env.newId.value)
    ensures add.env.newId.value in TickOutput(Apply(s, add), acts, p) <==>
              TicksIn(acts[..p]) == W.Effective(add.job.interval, |s.core.wheel.slots|)
  {
    var _ := ReachableInv(s);
    AddedWaits(s, add);
    TaskFiresAfter(Apply(s, add), acts, add.env.newId.value,
                   W.Effective(add.job.interval, |s.core.wheel.slots|), p);
  }

  lemma AddedWaits(s: State, add: Action)
    requires Inv(s) && Accepts(s, add)
    ensures Inv(Apply(s, add)) && add.env.newId.value in Apply(s, add).accepted
    ensures F.Waits(Apply(s, add).core.wheel, add.env.newId.value,
                    W.Effective(add.job.interval, |s.core.wheel.slots|))
  {
    var id, n, w := add.env.newId.value, add.job.interval, s.core.wheel;
    StepPreserves(s, add);
    F.FreshIsClear(w, id, W.Effective(n, |w.slots|));
    F.AddWaits(w, id, n);
  }

  // ---- A plugin task without a version ----

  lemma {:induction false} RunThenStep(s: State, acts: seq<Action>, a: Action)
    requires Runnable(s, acts) && Enabled(Run(s, acts), a)
    ensures Runnable(s, acts + [a]) && Run(s, acts + [a]) == Apply(Run(s, acts), a)
    decreases |acts|
  {
    if acts == [] {
      assert ([] + [a])[1..] == [];
      assert Runnable(Apply(s, a), []);
    } else {
      assert (acts + [a])[1..] == acts[1..] + [a];
      RunThenStep(Apply(s, acts[0]), acts[1..], a);
    }
  }

  lemma ReachableStep(s: State, a: Action)
    requires Reachable(s) && Enabled(s, a)
    ensures Reachable(Apply(s, a))
  {
    var start, acts :| Start(start) && Runnable(start, acts) && Run(start, acts) == s;
    RunThenStep(start, acts, a);
  }

  // A task with no delay is in the batch of the next tick.
  lemma FiresAtOnce(s: State, add: Action) returns (k: nat)
    requires Reachable(s) && Accepts(s, add) && add.job.interval == 0
    ensures var s1 := Apply(s, add);
            && Reachable(s1) && Enabled(s1, DoTick) && Reachable(Apply(s1, DoTick))
            && Apply(s1, DoTick).core == s1.core.(wheel := W.Trigger(s1.core.wheel).0)
            && Apply(s1, DoTick).executed == s1.executed && BatchesInv(s1)
            && |Apply(s1, DoTick).triggered| == |s1.triggered| + 1
            && k < |Apply(s1, DoTick).triggered[|s1.triggered|]|
            && Apply(s1, DoTick).triggered[|s1.triggered|][k] == add.env.newId.value
  {
    var _ := ReachableInv(s);
    AddedWaits(s, add);
    ReachableStep(s, add);
    var s1, id := Apply(s, add), add.env.newId.value;
    F.FiresWhenDue(s1.core.wheel, id, 0);
    TickPreserves(s1);
    ReachableStep(s1, DoTick);
    var jobs := W.Trigger(s1.core.wheel).1;
    k :| 0 <= k < |jobs| && jobs[k] == id;
  }

  // Executed at once, it leaves its result in the store.
  lemma RunsAtOnce(s: State, add: Action, x: Exec) returns (t: State)
    requires Reachable(s) && Accepts(s, add) && add.job.interval == 0 && x.unmarshalOk && x.putOk
    ensures var id := add.env.newId.value;
            && Reachable(t) && KeyOf(id) in t.core.dbResult
            && t.core.dbResult[KeyOf(id)] == ResultForJob(s.core.modules, add.job, id, x)
  {
    var k := FiresAtOnce(s, add);
    var s1 := Apply(s, add);
    var s2, b := Apply(s1, DoTick), |s1.triggered|;
    AcceptedJob(s, add);
    var ex := DoExecute(b, seq(|s2.triggered[b]|, _ => x));
    assert b !in s2.executed;
    var _ := ReachableInv(s2);
    ReachableStep(s2, ex);
    BatchIsStored(s2, ex, k, []);
    t := Apply(s2, ex);
  }

  lemma PluginAccepted(name: string) returns (s: State, add: Action)
    requires '@' !in name
    ensures Reachable(s) && Accepts(s, add) && add.job == Job(Plugin, 0, name) && add.env.newId.value == 1
    ensures s.core.modules == map[LookupName(name) := ""]
  {
    s := Init(1, map[], map[], map[LookupName(name) := ""]);
    assert Start(s) && Runnable(s, []);
    assert Reachable(s);
    add := DoAdd(Job(Plugin, 0, name), AddEnv(Ok(1), true, true, true));
  }

  // The module is there under its completed name, the task is accepted, fires at the first tick and runs, and the store
  // holds the zero result under its key.
  lemma UnversionedPluginFails(name: string, x: Exec) returns (s: State, add: Action, t: State)
    requires '@' !in name && x.unmarshalOk && x.putOk
    ensures Reachable(s) && Accepts(s, add) && add.job == Job(Plugin, 0, name) && LookupName(name) in s.core.modules
    ensures Reachable(t) && KeyOf(1) in t.core.dbResult && t.core.dbResult[KeyOf(1)] == ZERO_RESULT
  {
    s, add := PluginAccepted(name);
    t := RunsAtOnce(s, add, x);
    assert LookupName(name) != name;
  }
}
