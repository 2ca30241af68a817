// Runs of the time wheel: arbitrary sequences of calls, the scheduler that the wheel stands for, and the
// theorems that relate the two.

module WheelRuns {
  import opened GoInt
  import opened WheelModel

  datatype Call = CallAdd(id: int, ticks: int) | CallDelete(id: int) | CallCheck(id: int) | CallTrigger

  datatype Outcome = Added | Deleted(ok: bool) | Checked(found: bool) | Triggered(ids: seq<int>)
  {
    predicate Fires(id: int)
    {
      Triggered? && id in ids
    }

    predicate Finds()
    {
      Checked? && found
    }
  }

  function Step(w: Wheel, c: Call): (Wheel, Outcome)
    requires Inv(w) && (c.CallAdd? ==> CanAdd(w, c.ticks))
  {
    match c
    case CallAdd(id, n) => (Add(w, id, n), Added)
    case CallDelete(id) => (Delete(w, id).0, Deleted(Delete(w, id).1))
    case CallCheck(id) => (w, Checked(id in w.live))
    case CallTrigger => (Trigger(w).0, Triggered(Trigger(w).1))
  }

  lemma StepInv(w: Wheel, c: Call)
    requires Inv(w) && (c.CallAdd? ==> CanAdd(w, c.ticks))
    ensures Inv(Step(w, c).0)
    ensures Bijective(w) && (c.CallAdd? ==> c.id !in w.live) ==> Bijective(Step(w, c).0)
    ensures |Step(w, c).0.slots| == |w.slots|
  {
    match c
    case CallAdd(id, n) => AddInv(w, id, n);
    case CallDelete(id) => DeleteInv(w, id);
    case CallCheck(id) =>
    case CallTrigger => TriggerInv(w);
  }

  // No call of the run indexes the slot array out of range.
  ghost predicate Runnable(w: Wheel, calls: seq<Call>)
    requires Inv(w)
    decreases |calls|
  {
    calls == [] ||
    (&& (calls[0].CallAdd? ==> CanAdd(w, calls[0].ticks))
     && (StepInv(w, calls[0]); Runnable(Step(w, calls[0]).0, calls[1..])))
  }

  // In addition no id is added while it is pending.
  ghost predicate Admissible(w: Wheel, calls: seq<Call>)
    requires Inv(w)
    decreases |calls|
  {
    calls == [] ||
    (&& (calls[0].CallAdd? ==> CanAdd(w, calls[0].ticks) && calls[0].id !in w.live)
     && (StepInv(w, calls[0]); Admissible(Step(w, calls[0]).0, calls[1..])))
  }

  lemma {:induction false} AdmissibleRuns(w: Wheel, calls: seq<Call>)
    requires Inv(w) && Admissible(w, calls)
    ensures Runnable(w, calls)
    decreases |calls|
  {
    if calls != [] {
      StepInv(w, calls[0]);
      AdmissibleRuns(Step(w, calls[0]).0, calls[1..]);
    }
  }

  ghost function Run(w: Wheel, calls: seq<Call>): (r: (Wheel, seq<Outcome>))
    requires Inv(w) && Runnable(w, calls)
    ensures Inv(r.0) && |r.1| == |calls| && |r.0.slots| == |w.slots|
    decreases |calls|
  {
    if calls == [] then (w, [])
    else
      StepInv(w, calls[0]);
      var (w1, o) := Step(w, calls[0]);
      var (w2, os) := Run(w1, calls[1..]);
      (w2, [o] + os)
  }

  lemma {:induction false} RunThenStep(w: Wheel, calls: seq<Call>, c: Call)
    requires Inv(w) && Runnable(w, calls) && (c.CallAdd? ==> CanAdd(Run(w, calls).0, c.ticks))
    ensures Runnable(w, calls + [c]) && Run(w, calls + [c]).0 == Step(Run(w, calls).0, c).0
    decreases |calls|
  {
    if calls == [] {
      StepInv(w, c);
      assert ([] + [c])[1..] == [];
    } else {
      StepInv(w, calls[0]);
      assert (calls + [c])[1..] == calls[1..] + [c];
      RunThenStep(Step(w, calls[0]).0, calls[1..], c);
    }
  }

  // ---- Conservation, for every run, repeated ids included ----

  // How often an id stands in a slot list, in all of them, and in a list of fired ids.
  function SlotCount(s: seq<Entry>, x: int): nat
  {
    if s == [] then 0 else SlotCount(s[..|s| - 1], x) + (if s[|s| - 1].id == x then 1 else 0)
  }

  function Standing(slots: seq<seq<Entry>>, x: int): nat
  {
    if slots == [] then 0 else SlotCount(slots[0], x) + Standing(slots[1..], x)
  }

  function Occurrences(ids: seq<int>, x: int): nat
  {
    if ids == [] then 0 else Occurrences(ids[..|ids| - 1], x) + (if ids[|ids| - 1] == x then 1 else 0)
  }

  lemma {:induction false} ReplaceSlot(slots: seq<seq<Entry>>, i: nat, s: seq<Entry>, x: int)
    requires i < |slots|
    ensures Standing(slots[i := s], x) + SlotCount(slots[i], x) == Standing(slots, x) + SlotCount(s, x)
  {
    if i == 0 {
      assert slots[0 := s][1..] == slots[1..];
    } else {
      assert slots[i := s][1..] == slots[1..][i - 1 := s];
      ReplaceSlot(slots[1..], i - 1, s, x);
    }
  }

  lemma AppendCount(s: seq<Entry>, e: Entry, x: int)
    ensures SlotCount(s + [e], x) == SlotCount(s, x) + (if e.id == x then 1 else 0)
  {
    assert (s + [e])[..|s|] == s;
  }

  lemma {:induction false} IdsCount(s: seq<Entry>, x: int)
    ensures Occurrences(Ids(s), x) == SlotCount(s, x)
  {
    if s != [] {
      assert Ids(s)[..|s| - 1] == Ids(s[..|s| - 1]);
      IdsCount(s[..|s| - 1], x);
    }
  }

  lemma {:induction false} SplitCount(s: seq<Entry>, x: int)
    ensures SlotCount(s, x) == SlotCount(Due(s), x) + SlotCount(Kept(s), x)
  {
    if s != [] {
      var p, e := s[..|s| - 1], s[|s| - 1];
      SplitCount(p, x);
      assert e.circle > 0 ==> Due(s) == Due(p);
      assert e.circle <= 0 ==> Kept(s) == Kept(p);
      AppendCount(Due(p), e, x);
      AppendCount(Kept(p), e.(circle := e.circle - 1), x);
    }
  }

  lemma {:induction false} ShiftCount(s: seq<Entry>, r: seq<Entry>, f: nat, x: int)
    requires f < |s| == |r| + 1
    requires forall k :: 0 <= k < |r| ==> r[k] == s[if k < f then k else k + 1]
    ensures SlotCount(s, x) == SlotCount(r, x) + (if s[f].id == x then 1 else 0)
  {
    if f == |s| - 1 {
      assert r == s[..|s| - 1];
    } else {
      ShiftCount(s[..|s| - 1], r[..|r| - 1], f, x);
    }
  }

  // How often a call adds an id to the lists and how often it takes it out.
  function AddedBy(c: Call, x: int): nat
  {
    if c.CallAdd? && c.id == x then 1 else 0
  }

  function RemovedBy(w: Wheel, c: Call, x: int): nat
    requires Inv(w)
  {
    match c
    case CallDelete(id) => if id in w.live && id == x then 1 else 0
    case CallTrigger => Occurrences(Trigger(w).1, x)
    case _ => 0
  }

  lemma StepConserves(w: Wheel, c: Call, x: int)
    requires Inv(w) && (c.CallAdd? ==> CanAdd(w, c.ticks))
    ensures Standing(w.slots, x) + AddedBy(c, x) == Standing(Step(w, c).0.slots, x) + RemovedBy(w, c, x)
  {
    match c
    case CallAdd(id, n) =>
      RemRange(w.cursor + n, |w.slots|);
      PushConserves(w, id, Rem(w.cursor + n, |w.slots|), Quo(n, |w.slots|), x);
    case CallDelete(id) => DeleteConserves(w, id, x);
    case CallCheck(id) =>
    case CallTrigger => TriggerConserves(w, x);
  }

  lemma DeleteConserves(w: Wheel, id: int, x: int)
    requires Inv(w)
    ensures Standing(w.slots, x) == Standing(Delete(w, id).0.slots, x) + if id in w.live && id == x then 1 else 0
  {
    DeleteSucceeds(w, id);
    if id in w.live {
      var i := w.live[id].slot;
      var f := RemoveFirstShifts(w.slots[i], id);
      ShiftCount(w.slots[i], RemoveFirst(w.slots[i], id), f, x);
      ReplaceSlot(w.slots, i, RemoveFirst(w.slots[i], id), x);
    }
  }

  lemma TriggerConserves(w: Wheel, x: int)
    requires w.cursor < |w.slots|
    ensures Standing(w.slots, x) == Standing(Trigger(w).0.slots, x) + Occurrences(Trigger(w).1, x)
  {
    ReplaceSlot(w.slots, w.cursor, Kept(w.slots[w.cursor]), x);
    SplitCount(w.slots[w.cursor], x);
    IdsCount(Due(w.slots[w.cursor]), x);
  }

  lemma PushConserves(w: Wheel, id: int, index: nat, circle: int, x: int)
    requires Inv(w) && index < |w.slots|
    ensures Standing(w.slots, x) + (if id == x then 1 else 0) == Standing(Push(w, id, index, circle).slots, x)
  {
    var e := Entry(id, circle, w.Next());
    AppendCount(w.slots[index], e, x);
    ReplaceSlot(w.slots, index, w.slots[index] + [e], x);
  }

  ghost function RunAdded(calls: seq<Call>, x: int): nat
  {
    if calls == [] then 0 else AddedBy(calls[0], x) + RunAdded(calls[1..], x)
  }

  ghost function RunRemoved(w: Wheel, calls: seq<Call>, x: int): nat
    requires Inv(w) && Runnable(w, calls)
    decreases |calls|
  {
    if calls == [] then 0
    else
      StepInv(w, calls[0]);
      RemovedBy(w, calls[0], x) + RunRemoved(Step(w, calls[0]).0, calls[1..], x)
  }

  // Over any run and for any id, what stood in the lists plus what was added is what fired or was deleted plus
  // what stands.
  lemma {:induction false} Conservation(w: Wheel, calls: seq<Call>, x: int)
    requires Inv(w) && Runnable(w, calls)
    ensures Standing(w.slots, x) + RunAdded(calls, x) == RunRemoved(w, calls, x) + Standing(Run(w, calls).0.slots, x)
    decreases |calls|
  {
    if calls != [] {
      StepInv(w, calls[0]);
      StepConserves(w, calls[0], x);
      Conservation(Step(w, calls[0]).0, calls[1..], x);
    }
  }

  // Over any run, Delete reports success every time.
  lemma {:induction false} DeletesSucceed(w: Wheel, calls: seq<Call>, p: nat)
    requires Inv(w) && Runnable(w, calls) && p < |calls| && calls[p].CallDelete?
    ensures Run(w, calls).1[p] == Deleted(true)
    decreases |calls|
  {
    StepInv(w, calls[0]);
    if p == 0 {
      DeleteSucceeds(w, calls[0].id);
    } else {
      DeletesSucceed(Step(w, calls[0]).0, calls[1..], p - 1);
    }
  }

  // ---- Circles ----

  ghost predicate NoNegativeCircle(slots: seq<seq<Entry>>)
  {
    forall i, k :: 0 <= i < |slots| && 0 <= k < |slots[i]| ==> slots[i][k].circle >= 0
  }

  lemma StepCircles(w: Wheel, c: Call)
    requires Inv(w) && NoNegativeCircle(w.slots) && (c.CallAdd? ==> CanAdd(w, c.ticks) && c.ticks >= 0)
    ensures NoNegativeCircle(Step(w, c).0.slots)
  {
    match c
    case CallAdd(id, n) =>
      PlacementIsExact(n, w.cursor, |w.slots|);
    case CallDelete(id) =>
      DeleteSucceeds(w, id);
      if id in w.live {
        var i := w.live[id].slot;
        var k := FirstIndex(w.slots[i], id);
        RemoveFirstAt(w.slots[i], id, k);
      }
    case CallCheck(_) =>
    case CallTrigger =>
      forall k | 0 <= k < |Kept(w.slots[w.cursor])|
        ensures Kept(w.slots[w.cursor])[k].circle >= 0
      {
        var j := KeptSource(w.slots[w.cursor], k);
      }
  }

  // Over every run whose delays are not negative, no circle ever is.
  lemma {:induction false} CirclesStay(w: Wheel, calls: seq<Call>)
    requires Inv(w) && Runnable(w, calls) && NoNegativeCircle(w.slots)
    requires forall c :: c in calls && c.CallAdd? ==> c.ticks >= 0
    ensures NoNegativeCircle(Run(w, calls).0.slots)
    decreases |calls|
  {
    if calls != [] {
      StepInv(w, calls[0]);
      StepCircles(w, calls[0]);
      CirclesStay(Step(w, calls[0]).0, calls[1..]);
    }
  }
}
