// The time wheel and the naive scheduler give the same answers.

module WheelRefinement {
  import opened GoInt
  import opened WheelModel
  import opened WheelRuns
  import N = NaiveScheduler

  // The task that an element stands for.
  function TaskAt(w: Wheel, i: nat, k: nat): N.Task
    requires w.cursor < |w.slots| && i < |w.slots| && k < |w.slots[i]|
  {
    var e := w.slots[i][k];
    N.Task(e.id, TicksLeft(i, e.circle, w.cursor, |w.slots|), e.stamp)
  }

  ghost predicate Holds(w: Wheel, t: N.Task)
    requires w.cursor < |w.slots|
  {
    exists i, k :: 0 <= i < |w.slots| && 0 <= k < |w.slots[i]| && TaskAt(w, i, k) == t
  }

  lemma Where(w: Wheel, t: N.Task) returns (i: nat, k: nat)
    requires w.cursor < |w.slots| && Holds(w, t)
    ensures i < |w.slots| && k < |w.slots[i]| && TaskAt(w, i, k) == t
  {
    i, k :| 0 <= i < |w.slots| && 0 <= k < |w.slots[i]| && TaskAt(w, i, k) == t;
  }

  ghost predicate Represents(w: Wheel, s: N.Scheduler)
  {
    && Inv(w) && Bijective(w)
    && s.next == w.Next()
    && N.InOrder(s.tasks)
    && (forall t :: t in s.tasks ==> t.stamp < s.next)
    && (forall t :: t in s.tasks <==> Holds(w, t))
  }

  lemma EmptyRepresents(m: nat)
    requires m > 0
    ensures Represents(Empty(m), N.Scheduler([], 0))
  {
  }

  // An id is in the id map exactly when the scheduler has a task for it.
  lemma CheckAgrees(w: Wheel, s: N.Scheduler, id: int)
    requires Represents(w, s)
    ensures id in w.live <==> N.Has(s, id)
  {
    if id in w.live {
      var k := BackingElement(w, id);
      var t := TaskAt(w, w.live[id].slot, k);
      assert Holds(w, t);
      assert t in s.tasks;
    }
    if N.Has(s, id) {
      var j :| 0 <= j < |s.tasks| && s.tasks[j].id == id;
      assert s.tasks[j] in s.tasks;
      assert Holds(w, s.tasks[j]);
    }
  }

  // The slot and circle that Get answers with for a pending id say, with the cursor, how long its task waits.
  lemma GetAgrees(w: Wheel, s: N.Scheduler, id: int, circle: int)
    requires Represents(w, s) && id in w.live && w.live[id].slot < |w.slots|
    requires Entry(id, circle, w.live[id].stamp) in w.slots[w.live[id].slot]
    ensures exists t :: t in s.tasks && t.id == id && t.left == TicksLeft(w.live[id].slot, circle, w.cursor, |w.slots|)
  {
    var i := w.live[id].slot;
    var k :| 0 <= k < |w.slots[i]| && w.slots[i][k] == Entry(id, circle, w.live[id].stamp);
    assert Holds(w, TaskAt(w, i, k));
  }

  // No two pending tasks share an id.
  lemma IdsDistinct(w: Wheel, s: N.Scheduler, t: N.Task, u: N.Task)
    requires Represents(w, s) && t in s.tasks && u in s.tasks && t.id == u.id
    ensures t == u
  {
    var i, k := Where(w, t);
    var j, l := Where(w, u);
    assert w.live[t.id] == Place(i, t.stamp) && w.live[t.id] == Place(j, u.stamp);
    assert k == l;
  }

  // ---- One call ----

  lemma AddRefines(w: Wheel, s: N.Scheduler, id: int, n: int)
    requires Represents(w, s) && CanAdd(w, n) && id !in w.live
    ensures Represents(Add(w, id, n), N.Add(s, id, Effective(n, |w.slots|)))
  {
    var index, circle := AddIsPush(w, id, n);
    PushRefines(w, s, id, index, circle);
  }

  lemma AddIsPush(w: Wheel, id: int, n: int) returns (index: nat, circle: int)
    requires w.cursor < |w.slots| && CanAdd(w, n)
    ensures index < |w.slots| && Add(w, id, n) == Push(w, id, index, circle)
    ensures TicksLeft(index, circle, w.cursor, |w.slots|) == Effective(n, |w.slots|)
  {
    PlacementIsExact(n, w.cursor, |w.slots|);
    index, circle := Rem(w.cursor + n, |w.slots|), Quo(n, |w.slots|);
  }

  lemma PushRefines(w: Wheel, s: N.Scheduler, id: int, index: nat, circle: int)
    requires Represents(w, s) && index < |w.slots| && id !in w.live
    ensures Represents(Push(w, id, index, circle), N.Add(s, id, TicksLeft(index, circle, w.cursor, |w.slots|)))
  {
    PushInv(w, id, index, circle);
    var w', s' := Push(w, id, index, circle), N.Add(s, id, TicksLeft(index, circle, w.cursor, |w.slots|));
    forall t
      ensures t in s'.tasks <==> Holds(w', t)
    {
      PushAddsTask(w, id, index, circle, t);
    }
  }

  lemma PushAddsTask(w: Wheel, id: int, index: nat, circle: int, t: N.Task)
    requires w.cursor < |w.slots| && index < |w.slots|
    ensures Holds(Push(w, id, index, circle), t) <==>
              Holds(w, t) || t == N.Task(id, TicksLeft(index, circle, w.cursor, |w.slots|), w.Next())
  {
    var w' := Push(w, id, index, circle);
    if Holds(w, t) {
      var i, k := Where(w, t);
      assert TaskAt(w', i, k) == t;
    }
    assert TaskAt(w', index, |w.slots[index]|) == N.Task(id, TicksLeft(index, circle, w.cursor, |w.slots|), w.Next());
    if Holds(w', t) {
      var i, k := Where(w', t);
      if k < |w.slots[i]| {
        assert TaskAt(w, i, k) == t;
      }
    }
  }

  lemma DeleteRefines(w: Wheel, s: N.Scheduler, id: int)
    requires Represents(w, s)
    ensures Represents(Delete(w, id).0, s.(tasks := N.Without(s.tasks, id)))
  {
    var w', ts := Delete(w, id).0, N.Without(s.tasks, id);
    DeleteInv(w, id);
    DeleteSucceeds(w, id);
    N.ScansInOrder(s.tasks, id);
    forall t
      ensures t in ts <==> Holds(w', t)
      ensures t in ts ==> t in s.tasks
    {
      N.WithoutElements(s.tasks, id, t);
      if t in ts {
        DeleteKeepsTask(w, id, t);
      }
      if Holds(w', t) {
        DeletedTaskGone(w, id, t);
      }
    }
  }

  lemma DeleteKeepsTask(w: Wheel, id: int, t: N.Task)
    requires Inv(w) && Holds(w, t) && t.id != id
    ensures Inv(Delete(w, id).0) && Holds(Delete(w, id).0, t)
  {
    DeleteInv(w, id);
    DeleteSucceeds(w, id);
    var w' := Delete(w, id).0;
    var i, k := Where(w, t);
    if id in w.live && w.live[id].slot == i {
      var k' := RemoveFirstKeeps(w.slots[i], id, k);
      assert TaskAt(w', i, k') == t;
    } else {
      assert TaskAt(w', i, k) == t;
    }
  }

  lemma DeletedTaskGone(w: Wheel, id: int, t: N.Task)
    requires Inv(w) && Bijective(w) && Inv(Delete(w, id).0) && Holds(Delete(w, id).0, t)
    ensures Holds(w, t) && t.id != id
  {
    var i, k := Where(Delete(w, id).0, t);
    DeleteInv(w, id);
    assert t.id in Delete(w, id).0.live;
    DeleteAddsNothing(w, id, t);
  }

  lemma DeleteAddsNothing(w: Wheel, id: int, t: N.Task)
    requires Inv(w) && Inv(Delete(w, id).0) && Holds(Delete(w, id).0, t)
    ensures Holds(w, t)
  {
    var i, k := Where(Delete(w, id).0, t);
    DeleteSucceeds(w, id);
    var k0 := k;
    if id in w.live && w.live[id].slot == i {
      var f := RemoveFirstShifts(w.slots[i], id);
      k0 := if k < f then k else k + 1;
    }
    assert TaskAt(w, i, k0) == t;
  }

  // One move of the cursor takes one tick off every element that stays, although it touches one slot only.
  lemma CursorMove(i: nat, circle: int, c: nat, m: nat)
    requires i < m && c < m
    ensures var c' := if c == m - 1 then 0 else c + 1;
            && (i != c ==> TicksLeft(i, circle, c, m) == TicksLeft(i, circle, c', m) + 1)
            && (circle > 0 ==> TicksLeft(c, circle, c, m) == TicksLeft(c, circle - 1, c', m) + 1)
  {
    var c' := if c == m - 1 then 0 else c + 1;
    assert Distance(c, c', m) == m - 1;
    assert i != c ==> Distance(i, c, m) == Distance(i, c', m) + 1;
  }

  lemma TriggerKeepsTask(w: Wheel, t: N.Task)
    requires Inv(w) && Inv(Trigger(w).0)
    ensures Holds(w, t.(left := t.left + 1)) <==> Holds(Trigger(w).0, t)
  {
    if Holds(w, t.(left := t.left + 1)) {
      TriggerTicks(w, t);
    }
    if Holds(Trigger(w).0, t) {
      TriggerTicked(w, t);
    }
  }

  lemma TriggerTicks(w: Wheel, t: N.Task)
    requires w.cursor < |w.slots| && Holds(w, t.(left := t.left + 1))
    ensures Trigger(w).0.cursor < |w.slots| && Holds(Trigger(w).0, t)
  {
    var w', c := Trigger(w).0, w.cursor;
    var i, k := Where(w, t.(left := t.left + 1));
    CursorMove(i, w.slots[i][k].circle, c, |w.slots|);
    if i == c {
      var k' := DueOrKept(w.slots[c], k);
      assert TaskAt(w', c, k') == t;
    } else {
      assert TaskAt(w', i, k) == t;
    }
  }

  lemma TriggerTicked(w: Wheel, t: N.Task)
    requires w.cursor < |w.slots| && Trigger(w).0.cursor < |w.slots| && Holds(Trigger(w).0, t)
    ensures Holds(w, t.(left := t.left + 1))
  {
    var w', c := Trigger(w).0, w.cursor;
    var i, k := Where(w', t);
    var k0 := k;
    if i == c {
      k0 := KeptSource(w.slots[c], k);
    }
    CursorMove(i, w.slots[i][k0].circle, c, |w.slots|);
    assert TaskAt(w, i, k0) == t.(left := t.left + 1);
  }

  // The tasks of the elements that fire, in the order in which they fire.
  function DueAsTasks(w: Wheel): (ts: seq<N.Task>)
    requires w.cursor < |w.slots|
    ensures |ts| == |Due(w.slots[w.cursor])|
  {
    var due := Due(w.slots[w.cursor]);
    seq(|due|, k requires 0 <= k < |due| => N.Task(due[k].id, 0, due[k].stamp))
  }

  // Trigger fires exactly the tasks with no ticks left, and in the order in which they were added, even when
  // they were added in different revolutions and with different delays.
  lemma TriggerFiresDue(w: Wheel, s: N.Scheduler)
    requires Represents(w, s)
    ensures DueAsTasks(w) == N.DueTasks(s.tasks)
    ensures Trigger(w).1 == N.Tick(s).1
  {
    var c, ts := w.cursor, DueAsTasks(w);
    var due := Due(w.slots[c]);
    SplitOrdered(w.slots[c], c, w.pushed);
    N.ScansInOrder(s.tasks, 0);
    forall t
      ensures t in ts <==> t in N.DueTasks(s.tasks)
    {
      N.DueElements(s.tasks, t);
      if t in ts {
        var k :| 0 <= k < |ts| && ts[k] == t;
        var k0 := DueSource(w.slots[c], k);
        assert TaskAt(w, c, k0) == t;
      }
      if Holds(w, t) && t.left == 0 {
        var i, k := Where(w, t);
        var k' := DueOrKept(w.slots[c], k);
        assert ts[k'] == t;
      }
    }
    N.SameElementsSameList(ts, N.DueTasks(s.tasks));
    assert Trigger(w).1 == N.Ids(ts);
  }

  lemma TriggerRefines(w: Wheel, s: N.Scheduler)
    requires Represents(w, s)
    ensures Represents(Trigger(w).0, N.Tick(s).0)
  {
    var w', s' := Trigger(w).0, N.Tick(s).0;
    TriggerInv(w);
    N.ScansInOrder(s.tasks, 0);
    forall t
      ensures t in s'.tasks <==> Holds(w', t)
      ensures t in s'.tasks ==> t.(left := t.left + 1) in s.tasks
    {
      N.WaitingElements(s.tasks, t);
      TriggerKeepsTask(w, t);
    }
  }

  // ---- Runs ----

  function NaiveStep(s: N.Scheduler, c: Call, m: nat): (N.Scheduler, Outcome)
    requires m > 0
  {
    match c
    case CallAdd(id, n) => (N.Add(s, id, Effective(n, m)), Added)
    case CallDelete(id) => (s.(tasks := N.Without(s.tasks, id)), Deleted(true))
    case CallCheck(id) => (s, Checked(N.Has(s, id)))
    case CallTrigger => (N.Tick(s).0, Triggered(N.Tick(s).1))
  }

  function NaiveRun(s: N.Scheduler, calls: seq<Call>, m: nat): (N.Scheduler, seq<Outcome>)
    requires m > 0
    decreases |calls|
  {
    if calls == [] then (s, [])
    else
      var (s1, o) := NaiveStep(s, calls[0], m);
      var (s2, os) := NaiveRun(s1, calls[1..], m);
      (s2, [o] + os)
  }

  lemma StepRefines(w: Wheel, s: N.Scheduler, c: Call)
    requires Represents(w, s) && (c.CallAdd? ==> CanAdd(w, c.ticks) && c.id !in w.live)
    ensures Represents(Step(w, c).0, NaiveStep(s, c, |w.slots|).0)
    ensures Step(w, c).1 == NaiveStep(s, c, |w.slots|).1
  {
    match c
    case CallAdd(id, n) => AddRefines(w, s, id, n);
    case CallDelete(id) => DeleteSucceeds(w, id); DeleteRefines(w, s, id);
    case CallCheck(id) => CheckAgrees(w, s, id);
    case CallTrigger => TriggerFiresDue(w, s); TriggerRefines(w, s);
  }

  // For every sequence of calls that adds no id while it is pending, the wheel gives the answers of the
  // scheduler that scans everything on every tick.
  lemma {:induction false} Refinement(w: Wheel, s: N.Scheduler, calls: seq<Call>)
    requires Represents(w, s) && Admissible(w, calls)
    ensures Runnable(w, calls)
    ensures Run(w, calls).1 == NaiveRun(s, calls, |w.slots|).1
    ensures Represents(Run(w, calls).0, NaiveRun(s, calls, |w.slots|).0)
    decreases |calls|
  {
    AdmissibleRuns(w, calls);
    if calls != [] {
      StepInv(w, calls[0]);
      StepRefines(w, s, calls[0]);
      Refinement(Step(w, calls[0]).0, NaiveStep(s, calls[0], |w.slots|).0, calls[1..]);
    }
  }

  // ---- When a task fires ----

  function TriggersIn(calls: seq<Call>): nat
  {
    if calls == [] then 0 else (if calls[0].CallTrigger? then 1 else 0) + TriggersIn(calls[1..])
  }

  predicate LeavesAlone(calls: seq<Call>, id: int)
  {
    forall k :: 0 <= k < |calls| ==> calls[k] != CallDelete(id) && !(calls[k].CallAdd? && calls[k].id == id)
  }

  // No element of the id waits for another number of triggers than l. Repeated adds can leave elements behind that the
  // id map no longer knows.
  ghost predicate OnlyAt(w: Wheel, id: int, l: int)
    requires w.cursor < |w.slots|
  {
    forall t :: Holds(w, t) && t.id == id ==> t.left == l
  }

  // The elements of the id wait for l more triggers; a negative l says that there are none.
  ghost predicate Waits(w: Wheel, id: int, l: int)
  {
    w.cursor < |w.slots| && OnlyAt(w, id, l) && (id in w.live <==> l >= 0)
  }

  // The element that an entry of the id map stands for.
  lemma LiveTask(w: Wheel, id: int) returns (t: N.Task)
    requires Inv(w) && id in w.live
    ensures Holds(w, t) && t.id == id
  {
    var k := BackingElement(w, id);
    t := TaskAt(w, w.live[id].slot, k);
  }

  // A trigger fires the id exactly when one of its elements has no ticks left.
  lemma FiresIfDue(w: Wheel, t: N.Task)
    requires w.cursor < |w.slots| && Holds(w, t) && t.left == 0
    ensures t.id in Trigger(w).1 && t.id in IdSet(Due(w.slots[w.cursor]))
  {
    var i, k := Where(w, t);
    var k' := DueOrKept(w.slots[w.cursor], k);
    assert Trigger(w).1[k'] == t.id;
  }

  lemma DueIfFires(w: Wheel, id: int) returns (t: N.Task)
    requires w.cursor < |w.slots| && (id in Trigger(w).1 || id in IdSet(Due(w.slots[w.cursor])))
    ensures Holds(w, t) && t.id == id && t.left == 0
  {
    var c, due := w.cursor, Due(w.slots[w.cursor]);
    var k :| 0 <= k < |due| && due[k].id == id;
    var j := DueSource(w.slots[c], k);
    t := TaskAt(w, c, j);
  }

  lemma FiresWhenDue(w: Wheel, id: int, l: int)
    requires Inv(w) && Waits(w, id, l)
    ensures id in Trigger(w).1 <==> l == 0
  {
    if id in Trigger(w).1 {
      var t := DueIfFires(w, id);
    }
    if l == 0 {
      var t := LiveTask(w, id);
      FiresIfDue(w, t);
    }
  }

  // Every call but those for the id itself leaves its elements waiting, one trigger less if it is a trigger.
  lemma StepWaits(w: Wheel, c: Call, id: int, l: int)
    requires Inv(w) && Waits(w, id, l) && LeavesAlone([c], id) && (c.CallAdd? ==> CanAdd(w, c.ticks))
    ensures Waits(Step(w, c).0, id, if c.CallTrigger? then l - 1 else l)
  {
    assert [c][0] == c;
    StepInv(w, c);
    match c
    case CallAdd(x, n) => AddLeaves(w, x, n, id, l);
    case CallDelete(x) =>
      DeleteSucceeds(w, x);
      forall t | Holds(Delete(w, x).0, t)
        ensures Holds(w, t)
      {
        DeleteAddsNothing(w, x, t);
      }
    case CallCheck(_) =>
    case CallTrigger => TriggerLeaves(w, id, l);
  }

  lemma AddLeaves(w: Wheel, x: int, n: int, id: int, l: int)
    requires Inv(w) && Waits(w, id, l) && x != id && CanAdd(w, n)
    ensures Waits(Add(w, x, n), id, l)
  {
    var index, circle := AddIsPush(w, x, n);
    forall t | Holds(Add(w, x, n), t) && t.id == id
      ensures Holds(w, t)
    {
      PushAddsTask(w, x, index, circle, t);
    }
  }

  lemma TriggerLeaves(w: Wheel, id: int, l: int)
    requires Inv(w) && Waits(w, id, l) && Inv(Trigger(w).0)
    ensures Waits(Trigger(w).0, id, l - 1)
  {
    forall t | Holds(Trigger(w).0, t) && t.id == id
      ensures t.left == l - 1
    {
      TriggerTicked(w, t);
    }
    if id in IdSet(Due(w.slots[w.cursor])) {
      var t := DueIfFires(w, id);
    } else if l == 0 {
      var t := LiveTask(w, id);
      FiresIfDue(w, t);
    }
  }

  // A call of a run is one of the run that starts after the first call.
  lemma LaterCall(w: Wheel, calls: seq<Call>, p: nat)
    requires Inv(w) && Runnable(w, calls) && 0 < p < |calls|
    ensures Inv(Step(w, calls[0]).0) && Runnable(Step(w, calls[0]).0, calls[1..])
    ensures Run(w, calls).1[p] == Run(Step(w, calls[0]).0, calls[1..]).1[p - 1]
    ensures TriggersIn(calls[..p]) == TriggersIn(calls[1..][..p - 1]) + if calls[0].CallTrigger? then 1 else 0
  {
    StepInv(w, calls[0]);
    assert calls[..p][1..] == calls[1..][..p - 1];
  }

  // The id is in the output of the trigger that has exactly l triggers before it, and of no other; and Check
  // finds it up to that trigger. The run may add other ids while they are pending, and the wheel may be left with
  // elements of such ids.
  lemma {:induction false} FiringTime(w: Wheel, calls: seq<Call>, id: int, l: int, p: nat)
    requires Inv(w) && Runnable(w, calls) && Waits(w, id, l) && LeavesAlone(calls, id) && p < |calls|
    ensures calls[p].CallTrigger? ==> (Run(w, calls).1[p].Fires(id) <==> TriggersIn(calls[..p]) == l)
    ensures calls[p] == CallCheck(id) ==> (Run(w, calls).1[p].Finds() <==> TriggersIn(calls[..p]) <= l)
    decreases |calls|
  {
    if p == 0 {
      assert Run(w, calls).1[0] == Step(w, calls[0]).1;
      FiresWhenDue(w, id, l);
    } else {
      assert [calls[0]][0] == calls[0];
      StepWaits(w, calls[0], id, l);
      LaterCall(w, calls, p);
      FiringTime(Step(w, calls[0]).0, calls[1..], id, if calls[0].CallTrigger? then l - 1 else l, p - 1);
    }
  }

  lemma AddWaits(w: Wheel, id: int, n: int)
    requires Inv(w) && CanAdd(w, n) && OnlyAt(w, id, Effective(n, |w.slots|))
    ensures Waits(Add(w, id, n), id, Effective(n, |w.slots|))
  {
    var index, circle := AddIsPush(w, id, n);
    forall t | Holds(Add(w, id, n), t) && t.id == id
      ensures t.left == Effective(n, |w.slots|)
    {
      PushAddsTask(w, id, index, circle, t);
    }
  }

  // An item added with n ticks of delay, and neither deleted nor added again, is in the output of the (n+1)-th
  // later trigger and of no other, for every ring size and cursor position and whatever other calls are mixed
  // in, if no element of the id that waits for another number of triggers is left over from before. A negative n that
  // Add does not refuse counts modulo the ring size.
  lemma ExactFiringTime(w: Wheel, id: int, n: int, calls: seq<Call>, p: nat)
    requires Inv(w) && CanAdd(w, n) && OnlyAt(w, id, Effective(n, |w.slots|))
    requires Inv(Add(w, id, n)) && Runnable(Add(w, id, n), calls) && LeavesAlone(calls, id) && p < |calls|
    ensures calls[p].CallTrigger? ==>
              (Run(Add(w, id, n), calls).1[p].Fires(id) <==> TriggersIn(calls[..p]) == Effective(n, |w.slots|))
    ensures calls[p] == CallCheck(id) ==>
              (Run(Add(w, id, n), calls).1[p].Finds() <==> TriggersIn(calls[..p]) <= Effective(n, |w.slots|))
  {
    AddWaits(w, id, n);
    FiringTime(Add(w, id, n), calls, id, Effective(n, |w.slots|), p);
  }

  ghost predicate TriggerOfRun(w: Wheel, id: int, calls: seq<Call>, p: nat)
    requires Inv(w)
  {
    Runnable(w, calls) && LeavesAlone(calls, id) && p < |calls| && calls[p].CallTrigger?
  }

  // In every run that leaves the id alone it fires at the trigger with l triggers before it and at no other.
  ghost predicate FiresExactlyAt(w: Wheel, id: int, l: int)
    requires Inv(w)
  {
    forall calls, p: nat :: TriggerOfRun(w, id, calls, p) ==>
      (Run(w, calls).1[p].Fires(id) <==> TriggersIn(calls[..p]) == l)
  }

  // The absence of such left-over elements is what it takes. An id that was never added while it was pending has none,
  // but an id that is not pending can have some.
  lemma FiresOnTimeExactly(w: Wheel, id: int, n: int)
    requires Inv(w) && CanAdd(w, n)
    ensures Inv(Add(w, id, n))
    ensures FiresExactlyAt(Add(w, id, n), id, Effective(n, |w.slots|)) <==> OnlyAt(w, id, Effective(n, |w.slots|))
  {
    var l, w' := Effective(n, |w.slots|), Add(w, id, n);
    AddInv(w, id, n);
    if OnlyAt(w, id, l) {
      forall calls, p: nat | TriggerOfRun(w', id, calls, p)
        ensures Run(w', calls).1[p].Fires(id) <==> TriggersIn(calls[..p]) == l
      {
        ExactFiringTime(w, id, n, calls, p);
      }
    } else {
      var t :| Holds(w, t) && t.id == id && t.left != l;
      LeftOverFires(w, n, t);
      assert TriggerOfRun(w', id, Repeated(t.left + 1), t.left);
    }
  }

  lemma LeftOverFires(w: Wheel, n: int, t: N.Task)
    requires Inv(w) && CanAdd(w, n) && Holds(w, t) && Inv(Add(w, t.id, n))
    ensures TriggerOfRun(Add(w, t.id, n), t.id, Repeated(t.left + 1), t.left)
    ensures Run(Add(w, t.id, n), Repeated(t.left + 1)).1[t.left].Fires(t.id)
    ensures TriggersIn(Repeated(t.left + 1)[..t.left]) == t.left
  {
    var index, circle := AddIsPush(w, t.id, n);
    PushAddsTask(w, t.id, index, circle, t);
    RepeatedTriggers(Add(w, t.id, n), t.left + 1, t.left);
    TaskFires(Add(w, t.id, n), t, t.left + 1);
  }

  // An element with k ticks left fires in the (k+1)-th of a row of triggers.
  lemma {:induction false} TaskFires(w: Wheel, t: N.Task, k: nat)
    requires Inv(w) && Holds(w, t) && t.left < k && Runnable(w, Repeated(k))
    ensures Run(w, Repeated(k)).1[t.left].Fires(t.id)
    decreases k
  {
    assert Repeated(k)[0] == CallTrigger;
    assert Repeated(k)[1..] == Repeated(k - 1);
    StepInv(w, CallTrigger);
    if t.left == 0 {
      FiresIfDue(w, t);
    } else {
      TriggerTicks(w, t.(left := t.left - 1));
      TaskFires(Trigger(w).0, t.(left := t.left - 1), k - 1);
    }
  }

  lemma {:induction false} RepeatedTriggers(w: Wheel, k: nat, p: nat)
    requires Inv(w) && p <= k
    ensures Runnable(w, Repeated(k)) && TriggersIn(Repeated(k)[..p]) == p
    decreases k
  {
    RepeatedAdmissible(w, k);
    AdmissibleRuns(w, Repeated(k));
    if p > 0 {
      assert Repeated(k)[..p][1..] == Repeated(k - 1)[..p - 1];
      StepInv(w, CallTrigger);
      RepeatedTriggers(Trigger(w).0, k - 1, p - 1);
    }
  }

  lemma FreshIsClear(w: Wheel, id: int, l: int)
    requires Inv(w) && Bijective(w) && id !in w.live
    ensures OnlyAt(w, id, l)
  {
    forall t | Holds(w, t)
      ensures t.id != id
    {
      var i, k := Where(w, t);
      assert w.slots[i][k].id in w.live;
    }
  }

  // ---- Triggers alone ----

  function Repeated(k: nat): seq<Call>
  {
    seq(k, _ => CallTrigger)
  }

  lemma {:induction false} RepeatedAdmissible(w: Wheel, k: nat)
    requires Inv(w)
    ensures Admissible(w, Repeated(k))
    decreases k
  {
    if k > 0 {
      assert Repeated(k)[0] == CallTrigger;
      assert Repeated(k)[1..] == Repeated(k - 1);
      StepInv(w, CallTrigger);
      RepeatedAdmissible(Trigger(w).0, k - 1);
    }
  }

  lemma {:induction false} RepeatedRun(w: Wheel, s: N.Scheduler, k: nat, t: N.Task)
    requires Represents(w, s)
    ensures Admissible(w, Repeated(k)) && Runnable(w, Repeated(k))
    ensures Holds(Run(w, Repeated(k)).0, t) <==> Holds(w, t.(left := t.left + k))
    decreases k
  {
    RepeatedAdmissible(w, k);
    AdmissibleRuns(w, Repeated(k));
    if k > 0 {
      assert Repeated(k)[0] == CallTrigger;
      assert Repeated(k)[1..] == Repeated(k - 1);
      StepInv(w, CallTrigger);
      TriggerRefines(w, s);
      RepeatedRun(Trigger(w).0, N.Tick(s).0, k - 1, t);
      TriggerKeepsTask(w, t.(left := t.left + k - 1));
    }
  }

  // k triggers with no other call in between leave exactly the tasks that had k ticks or more to wait, each
  // with k ticks less; so as many triggers as the longest wait, and one more, empty the wheel.
  lemma TriggersDrain(w: Wheel, s: N.Scheduler, k: nat)
    requires Represents(w, s) && forall t :: t in s.tasks ==> t.left < k
    ensures Admissible(w, Repeated(k)) && Runnable(w, Repeated(k))
    ensures forall i :: 0 <= i < |w.slots| ==> Run(w, Repeated(k)).0.slots[i] == []
  {
    RepeatedAdmissible(w, k);
    AdmissibleRuns(w, Repeated(k));
    var w' := Run(w, Repeated(k)).0;
    forall i | 0 <= i < |w.slots|
      ensures w'.slots[i] == []
    {
      if w'.slots[i] != [] {
        var t := TaskAt(w', i, 0);
        assert Holds(w', t);
        RepeatedRun(w, s, k, t);
        assert false;
      }
    }
  }

  // ---- From an empty wheel ----

  // A new wheel gives the answers of the naive scheduler for every sequence of calls that adds no pending id.
  lemma NewWheelRefines(m: nat, calls: seq<Call>)
    requires m > 0
    ensures Inv(Empty(m))
    ensures Admissible(Empty(m), calls) ==>
              Runnable(Empty(m), calls) && Run(Empty(m), calls).1 == NaiveRun(N.Scheduler([], 0), calls, m).1
  {
    EmptyRepresents(m);
    if Admissible(Empty(m), calls) {
      Refinement(Empty(m), N.Scheduler([], 0), calls);
    }
  }

  // The states that a wheel can get into, repeated ids included.
  ghost predicate Reachable(w: Wheel)
  {
    exists m: nat, calls :: m > 0 && Inv(Empty(m)) && Runnable(Empty(m), calls) && Run(Empty(m), calls).0 == w
  }

  // In every state that a wheel can get into, an item whose id stands in no slot fires, if it is added with n ticks, in
  // the (n+1)-th later trigger and in no other.
  lemma AddedItemFires(w: Wheel, id: int, n: int)
    requires Reachable(w) && CanAdd(w, n) && forall i :: 0 <= i < |w.slots| ==> !HasId(w.slots[i], id)
    ensures Inv(w) && Inv(Add(w, id, n)) && FiresExactlyAt(Add(w, id, n), id, Effective(n, |w.slots|))
  {
    var m: nat, calls :| m > 0 && Inv(Empty(m)) && Runnable(Empty(m), calls) && Run(Empty(m), calls).0 == w;
    forall t | Holds(w, t)
      ensures t.id != id
    {
      var i, k := Where(w, t);
      assert w.slots[i][k].id == t.id;
    }
    FiresOnTimeExactly(w, id, n);
  }

  lemma ReachableInv(w: Wheel)
    requires Reachable(w)
    ensures Inv(w)
  {
  }

  lemma ReachableStep(w: Wheel, c: Call)
    requires Reachable(w) && Inv(w) && (c.CallAdd? ==> CanAdd(w, c.ticks))
    ensures Reachable(Step(w, c).0)
  {
    var m: nat, calls :| m > 0 && Inv(Empty(m)) && Runnable(Empty(m), calls) && Run(Empty(m), calls).0 == w;
    RunThenStep(Empty(m), calls, c);
  }

  lemma AddForward(w: Wheel, id: int, n: nat)
    requires w.cursor < |w.slots|
    ensures CanAdd(w, n) && Add(w, id, n) == Push(w, id, (w.cursor + n) % |w.slots|, n / |w.slots|)
  {
  }

  // Rings of two slots to which id 5 was added with no tick, and then again with one.
  function Once(): Wheel
  {
    Wheel([[Entry(5, 0, 0)], []], map[5 := Place(0, 0)], 0, [0])
  }

  function Twice(): Wheel
  {
    Wheel([[Entry(5, 0, 0)], [Entry(5, 0, 1)]], map[5 := Place(1, 1)], 0, [0, 1])
  }

  lemma PushOnce()
    ensures Push(Empty(2), 5, 0, 0) == Once()
  {
    var w, e := Empty(2), Entry(5, 0, 0);
    var slot: seq<Entry> := [];
    assert w.slots[0] == slot && slot + [e] == [e];
    assert w.slots[0 := [e]] == Once().slots;
  }

  lemma PushTwice()
    ensures Push(Once(), 5, 1, 0) == Twice()
  {
    var e := Entry(5, 0, 1);
    assert Once().slots[1] + [e] == [e];
    assert Once().slots[1 := [e]] == Twice().slots;
  }

  lemma AddedTwice()
    ensures Reachable(Twice())
  {
    EmptyInv(2);
    assert Runnable(Empty(2), []);
    assert Reachable(Empty(2));
    AddForward(Empty(2), 5, 0);
    PushOnce();
    ReachableStep(Empty(2), CallAdd(5, 0));
    ReachableInv(Once());
    AddForward(Once(), 5, 1);
    PushTwice();
    ReachableStep(Once(), CallAdd(5, 1));
  }

  // After one deletion the id is not in the id map, and one of its elements is still in its slot. Added again with
  // three ticks, it fires in the next trigger.
  lemma LeftOverFiresEarly() returns (w: Wheel)
    ensures Reachable(w) && w.cursor < |w.slots| && 5 !in w.live && CanAdd(w, 3)
    ensures 5 in Trigger(Add(w, 5, 3)).1
  {
    var w2 := Twice();
    AddedTwice();
    ReachableInv(w2);
    w := Wheel([[Entry(5, 0, 0)], []], map[], 0, [0, 1]);
    assert w2.slots[1][0].id == 5;
    assert Delete(w2, 5).0 == w;
    ReachableStep(w2, CallDelete(5));
    AddForward(w, 5, 3);
    var t := N.Task(5, 0, 0);
    assert TaskAt(w, 0, 0) == t;
    PushAddsTask(w, 5, 1, 1, t);
    FiresIfDue(Add(w, 5, 3), t);
  }
}
