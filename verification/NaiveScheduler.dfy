// The scheduler that the wheel stands for: one list of tasks in the order in which they were added, each with
// the number of ticks it still has to wait, all of it scanned on every tick.

module NaiveScheduler {
  datatype Task = Task(id: int, left: nat, stamp: nat)

  datatype Scheduler = Scheduler(tasks: seq<Task>, next: nat)

  function Add(s: Scheduler, id: int, left: nat): Scheduler
  {
    Scheduler(s.tasks + [Task(id, left, s.next)], s.next + 1)
  }

  function Without(ts: seq<Task>, id: int): seq<Task>
  {
    if ts == [] then []
    else
      var t := ts[|ts| - 1];
      Without(ts[..|ts| - 1], id) + (if t.id == id then [] else [t])
  }

  predicate Has(s: Scheduler, id: int)
  {
    exists k :: 0 <= k < |s.tasks| && s.tasks[k].id == id
  }

  function DueTasks(ts: seq<Task>): seq<Task>
  {
    if ts == [] then []
    else
      var t := ts[|ts| - 1];
      DueTasks(ts[..|ts| - 1]) + (if t.left == 0 then [t] else [])
  }

  function Waiting(ts: seq<Task>): seq<Task>
  {
    if ts == [] then []
    else
      var t := ts[|ts| - 1];
      Waiting(ts[..|ts| - 1]) + (if t.left == 0 then [] else [t.(left := t.left - 1)])
  }

  function Ids(ts: seq<Task>): (r: seq<int>)
    ensures |r| == |ts|
  {
    seq(|ts|, k requires 0 <= k < |ts| => ts[k].id)
  }

  function Tick(s: Scheduler): (Scheduler, seq<int>)
  {
    (s.(tasks := Waiting(s.tasks)), Ids(DueTasks(s.tasks)))
  }

  // ---- Facts about the scans ----

  // Tasks stand in the order in which they were added.
  ghost predicate InOrder(ts: seq<Task>)
  {
    forall j, k :: 0 <= j < k < |ts| ==> ts[j].stamp < ts[k].stamp
  }

  lemma {:induction false} WithoutElements(ts: seq<Task>, id: int, t: Task)
    ensures t in Without(ts, id) <==> t in ts && t.id != id
  {
    if ts != [] {
      WithoutElements(ts[..|ts| - 1], id, t);
      assert ts == ts[..|ts| - 1] + [ts[|ts| - 1]];
    }
  }

  lemma {:induction false} DueElements(ts: seq<Task>, t: Task)
    ensures t in DueTasks(ts) <==> t in ts && t.left == 0
  {
    if ts != [] {
      DueElements(ts[..|ts| - 1], t);
      assert ts == ts[..|ts| - 1] + [ts[|ts| - 1]];
    }
  }

  lemma {:induction false} WaitingElements(ts: seq<Task>, t: Task)
    ensures t in Waiting(ts) <==> t.(left := t.left + 1) in ts
  {
    if ts != [] {
      WaitingElements(ts[..|ts| - 1], t);
      assert ts == ts[..|ts| - 1] + [ts[|ts| - 1]];
    }
  }

  // The scans keep tasks in order.
  lemma {:induction false} ScansInOrder(ts: seq<Task>, id: int)
    requires InOrder(ts)
    ensures InOrder(Without(ts, id)) && InOrder(DueTasks(ts)) && InOrder(Waiting(ts))
  {
    if ts != [] {
      var p, t := ts[..|ts| - 1], ts[|ts| - 1];
      ScansInOrder(p, id);
      forall k | 0 <= k < |Without(p, id)|
        ensures Without(p, id)[k].stamp < t.stamp
      {
        WithoutElements(p, id, Without(p, id)[k]);
      }
      forall k | 0 <= k < |DueTasks(p)|
        ensures DueTasks(p)[k].stamp < t.stamp
      {
        DueElements(p, DueTasks(p)[k]);
      }
      forall k | 0 <= k < |Waiting(p)|
        ensures Waiting(p)[k].stamp < t.stamp
      {
        WaitingElements(p, Waiting(p)[k]);
      }
    }
  }

  lemma BeforeLast(ts: seq<Task>, t: Task)
    requires InOrder(ts) && ts != []
    ensures var x := ts[|ts| - 1];
            && (t in ts ==> t.stamp < x.stamp || t == x)
            && (t in ts[..|ts| - 1] <==> t in ts && t.stamp < x.stamp)
  {
    var p, x := ts[..|ts| - 1], ts[|ts| - 1];
    if t in ts {
      var k :| 0 <= k < |ts| && ts[k] == t;
      assert k < |p| ==> p[k] == t;
    }
    if t in p {
      var k :| 0 <= k < |p| && p[k] == t;
      assert ts[k] == t;
    }
  }

  // Two lists of tasks in order with the same elements are the same list.
  lemma {:induction false} SameElementsSameList(a: seq<Task>, b: seq<Task>)
    requires InOrder(a) && InOrder(b)
    requires forall t :: t in a <==> t in b
    ensures a == b
  {
    assert b != [] ==> b[0] in b;
    if a == [] {
      assert b == [];
    } else {
      assert a[0] in b;
      var x, y := a[|a| - 1], b[|b| - 1];
      BeforeLast(a, y);
      BeforeLast(b, x);
      assert x == y;
      var p, q := a[..|a| - 1], b[..|b| - 1];
      forall t
        ensures t in p <==> t in q
      {
        BeforeLast(a, t);
        BeforeLast(b, t);
      }
      SameElementsSameList(p, q);
    }
  }
}
