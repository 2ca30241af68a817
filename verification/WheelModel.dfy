// The time wheel of node/tw/timewheel.go on values: a ring of slots, each holding entries in the order in
// which they were pushed, a map from ids to places, and a cursor. The class in TimeWheel.dfy is proved to
// compute these functions; the theorems about runs are stated about them.

/** Go's integer division and remainder, which truncate toward zero (for a positive divisor). */
module GoInt {
  function Quo(a: int, b: int): int
    requires b > 0
  {
    if a >= 0 then a / b else -((-a) / b)
  }

  function Rem(a: int, b: int): int
    requires b > 0
  {
    if a >= 0 then a % b else -((-a) % b)
  }

  // Truncating division satisfies the language's defining equation.
  lemma QuoRem(a: int, b: int)
    requires b > 0
    ensures a == Quo(a, b) * b + Rem(a, b)
  {
    if a < 0 {
      NegativeProduct((-a) / b, b);
    }
  }

  // The remainder is smaller than the divisor and carries the sign of the dividend.
  lemma RemRange(a: int, b: int)
    requires b > 0
    ensures -b < Rem(a, b) < b
    ensures a >= 0 ==> Rem(a, b) >= 0
    ensures a <= 0 ==> Rem(a, b) <= 0
  {
  }

  lemma QuoSign(a: int, b: int)
    requires b > 0
    ensures a >= 0 ==> Quo(a, b) >= 0
    ensures a <= 0 ==> Quo(a, b) <= 0
  {
  }

  lemma NegativeProduct(x: int, y: int)
    ensures (-x) * y == -(x * y)
  {
  }

  lemma ProductAtLeast(x: int, y: int)
    requires x >= 1 && y >= 0
    ensures x * y >= y
  {
  }

  // A dividend has only one decomposition with a remainder in [0, b).
  lemma DivModUnique(a: int, b: int, q: int, r: int)
    requires b > 0 && 0 <= r < b && a == q * b + r
    ensures a / b == q && a % b == r
  {
    var q0, r0 := a / b, a % b;
    assert a == q0 * b + r0;
    Distributes(q0, q, b);
    Distributes(q, q0, b);
    if q0 > q {
      ProductAtLeast(q0 - q, b);
    } else if q0 < q {
      ProductAtLeast(q - q0, b);
    }
  }

  lemma Distributes(x: int, y: int, b: int)
    ensures (x - y) * b == x * b - y * b
  {
  }
}

module WheelModel {
  import opened GoInt

  const NANOS_PER_SECOND := 1_000_000_000

  // One element of a slot list. The stamp numbers the calls to Add and so identifies the element.
  datatype Entry = Entry(id: int, circle: int, stamp: nat)

  // Where the item that mapItems knows for an id was pushed.
  datatype Place = Place(slot: nat, stamp: nat)

  // pushed records, for every call to Add so far, the slot it pushed to.
  datatype Wheel = Wheel(slots: seq<seq<Entry>>, live: map<int, Place>, cursor: nat, pushed: seq<nat>)
  {
    // The stamp that the next call to Add uses.
    function Next(): nat
    {
      |pushed|
    }
  }

  // ---- Placement ----

  // Whole ticks in a delay: both durations are in nanoseconds and are cut to whole seconds first.
  function Ticks(delay: int, interval: int): int
    requires Quo(interval, NANOS_PER_SECOND) > 0
  {
    Quo(Quo(delay, NANOS_PER_SECOND), Quo(interval, NANOS_PER_SECOND))
  }

  // A delay that is not negative is cut to whole seconds, and then to whole ticks of whole seconds.
  lemma TicksCutTwice(delay: nat, interval: nat) returns (seconds: nat, perTick: nat)
    requires interval >= 1_000_000_000
    ensures seconds * 1_000_000_000 <= delay < (seconds + 1) * 1_000_000_000
    ensures perTick * 1_000_000_000 <= interval < (perTick + 1) * 1_000_000_000
    ensures Quo(interval, NANOS_PER_SECOND) == perTick > 0
    ensures Ticks(delay, interval) * perTick <= seconds < (Ticks(delay, interval) + 1) * perTick
  {
    seconds, perTick := delay / 1_000_000_000, interval / 1_000_000_000;
    var t := Ticks(delay, interval);
    assert t == seconds / perTick;
    assert seconds == perTick * (seconds / perTick) + seconds % perTick;
    assert (t + 1) * perTick == t * perTick + perTick;
  }

  function CalcSlotAndCircle(delay: int, interval: int, cursor: nat, maxSlot: int): (int, int)
    requires Quo(interval, NANOS_PER_SECOND) > 0 && maxSlot > 0
  {
    var n := Ticks(delay, interval);
    (Rem(cursor + n, maxSlot), Quo(n, maxSlot))
  }

  // Number of cursor moves from slot `from` to slot `to` in a ring of m slots.
  function Distance(to: nat, from: nat, m: nat): (d: nat)
    requires to < m && from < m
    ensures d < m && (d == 0 <==> to == from)
  {
    if to >= from then to - from else to + m - from
  }

  // Cursor moves in a number of whole revolutions.
  function Rounds(circle: nat, m: nat): nat
  {
    if circle == 0 then 0 else m + Rounds(circle - 1, m)
  }

  lemma {:induction false} RoundsIsProduct(circle: nat, m: nat)
    ensures Rounds(circle, m) == circle * m
  {
    if circle > 0 {
      RoundsIsProduct(circle - 1, m);
      Distributes(circle, 1, m);
    }
  }

  // Triggers that pass before the one that fires an item standing in slot `index` with `circle`.
  function TicksLeft(index: nat, circle: int, cursor: nat, m: nat): (r: nat)
    requires index < m && cursor < m
    ensures r == 0 <==> index == cursor && circle <= 0
  {
    (if circle <= 0 then 0 else Rounds(circle, m)) + Distance(index, cursor, m)
  }

  // The number of triggers that pass before an item added with n ticks of delay fires.
  function Effective(n: int, m: nat): nat
    requires m > 0
  {
    if n >= 0 then n else n % m
  }

  // Add indexes the slot array with the computed index; a negative one is out of range.
  predicate Placeable(n: int, cursor: nat, m: nat)
    requires m > 0
  {
    Rem(cursor + n, m) >= 0
  }

  // What calcSlotAndCircle computes stands for exactly n ticks when n is not negative, for any ring size and
  // however many revolutions n takes. A negative n either indexes out of range, exactly when it reaches behind
  // slot 0 without landing on a multiple of the ring size, or waits for n modulo the ring size.
  lemma PlacementIsExact(n: int, cursor: nat, m: nat)
    requires cursor < m
    ensures Rem(cursor + n, m) < m
    ensures Placeable(n, cursor, m) <==> cursor + n >= 0 || (cursor + n) % m == 0
    ensures n >= 0 ==> Quo(n, m) >= 0
    ensures Placeable(n, cursor, m) ==>
              TicksLeft(Rem(cursor + n, m), Quo(n, m), cursor, m) == Effective(n, m)
  {
    RemRange(cursor + n, m);
    QuoSign(n, m);
    NegativeRemainder(cursor + n, m);
    if n >= 0 {
      ForwardPlacement(n, cursor, m);
    } else if Placeable(n, cursor, m) {
      BackwardPlacement(n, cursor, m);
    }
  }

  lemma ForwardPlacement(n: nat, cursor: nat, m: nat)
    requires cursor < m
    ensures TicksLeft((cursor + n) % m, n / m, cursor, m) == n
  {
    var circle, r := n / m, n % m;
    RoundsIsProduct(circle, m);
    if cursor + r < m {
      DivModUnique(cursor + n, m, circle, cursor + r);
    } else {
      Distributes(circle, -1, m);
      DivModUnique(cursor + n, m, circle + 1, cursor + r - m);
    }
  }

  lemma BackwardPlacement(n: int, cursor: nat, m: nat)
    requires cursor < m && n < 0 && Placeable(n, cursor, m)
    ensures Rem(cursor + n, m) < m && Quo(n, m) <= 0
    ensures Distance(Rem(cursor + n, m), cursor, m) == n % m
  {
    RemRange(cursor + n, m);
    QuoRem(cursor + n, m);
    QuoSign(n, m);
    var index, q := Rem(cursor + n, m), Quo(cursor + n, m);
    var d := Distance(index, cursor, m);
    if index >= cursor {
      DivModUnique(n, m, q, d);
    } else {
      Distributes(q, 1, m);
      DivModUnique(n, m, q - 1, d);
    }
  }

  lemma NegativeRemainder(a: int, m: nat)
    requires m > 0
    ensures Rem(a, m) >= 0 <==> a >= 0 || a % m == 0
  {
    if a < 0 {
      var q, r := (-a) / m, (-a) % m;
      assert a == (-q) * m - r;
      if r == 0 {
        DivModUnique(a, m, -q, 0);
      } else {
        assert a == (-q - 1) * m + (m - r);
        DivModUnique(a, m, -q - 1, m - r);
      }
    }
  }

  // ---- Operations ----

  function Empty(m: nat): Wheel
  {
    Wheel(seq(m, _ => []), map[], 0, [])
  }

  predicate CanAdd(w: Wheel, n: int)
  {
    |w.slots| > 0 && Placeable(n, w.cursor, |w.slots|)
  }

  function Add(w: Wheel, id: int, n: int): Wheel
    requires w.cursor < |w.slots| && CanAdd(w, n)
  {
    RemRange(w.cursor + n, |w.slots|);
    Push(w, id, Rem(w.cursor + n, |w.slots|), Quo(n, |w.slots|))
  }

  function Push(w: Wheel, id: int, index: nat, circle: int): Wheel
    requires index < |w.slots|
  {
    Wheel(w.slots[index := w.slots[index] + [Entry(id, circle, w.Next())]],
          w.live[id := Place(index, w.Next())], w.cursor, w.pushed + [index])
  }

  predicate HasId(s: seq<Entry>, id: int)
  {
    exists k :: 0 <= k < |s| && s[k].id == id
  }

  // The list without its first element for the id.
  function RemoveFirst(s: seq<Entry>, id: int): seq<Entry>
  {
    if s == [] then []
    else if s[0].id == id then s[1..]
    else [s[0]] + RemoveFirst(s[1..], id)
  }

  function Delete(w: Wheel, id: int): (Wheel, bool)
  {
    if id !in w.live || w.live[id].slot >= |w.slots| then (w, true)
    else
      var i := w.live[id].slot;
      if HasId(w.slots[i], id) then
        (w.(slots := w.slots[i := RemoveFirst(w.slots[i], id)], live := w.live - {id}), true)
      else (w, false)
  }

  // The elements of a slot that fire when the cursor stands on it, and the ones that stay.
  function Due(s: seq<Entry>): seq<Entry>
  {
    if s == [] then []
    else
      var e := s[|s| - 1];
      Due(s[..|s| - 1]) + (if e.circle > 0 then [] else [e])
  }

  function Kept(s: seq<Entry>): seq<Entry>
  {
    if s == [] then []
    else
      var e := s[|s| - 1];
      Kept(s[..|s| - 1]) + (if e.circle > 0 then [e.(circle := e.circle - 1)] else [])
  }

  function Ids(s: seq<Entry>): (r: seq<int>)
    ensures |r| == |s|
  {
    seq(|s|, k requires 0 <= k < |s| => s[k].id)
  }

  function IdSet(s: seq<Entry>): set<int>
  {
    set k | 0 <= k < |s| :: s[k].id
  }

  // The walk over one slot list: what is due leaves the list and the id map, the rest loses one circle.
  function Retrieve(w: Wheel, i: nat): (Wheel, seq<int>)
    requires i < |w.slots|
  {
    var due := Due(w.slots[i]);
    (w.(slots := w.slots[i := Kept(w.slots[i])], live := w.live - IdSet(due)), Ids(due))
  }

  function Trigger(w: Wheel): (Wheel, seq<int>)
    requires w.cursor < |w.slots|
  {
    var (w', ids) := Retrieve(w, w.cursor);
    (w'.(cursor := if w.cursor == |w.slots| - 1 then 0 else w.cursor + 1), ids)
  }

  // ---- Invariants ----

  // The elements of slot i were pushed there, in this order, by different calls to Add.
  ghost predicate Ordered(s: seq<Entry>, i: nat, pushed: seq<nat>)
  {
    && (forall k :: 0 <= k < |s| ==> s[k].stamp < |pushed| && pushed[s[k].stamp] == i)
    && (forall j, k :: 0 <= j < k < |s| ==> s[j].stamp < s[k].stamp)
  }

  ghost predicate Backed(w: Wheel, id: int)
    requires id in w.live
  {
    var p := w.live[id];
    && p.slot < |w.slots|
    && exists k :: 0 <= k < |w.slots[p.slot]| && w.slots[p.slot][k].id == id && w.slots[p.slot][k].stamp == p.stamp
  }

  // Holds for every sequence of calls, repeated ids included: every entry of the id map is backed by an
  // element of the slot it names, and no element stands in the lists twice.
  ghost predicate Inv(w: Wheel)
  {
    && w.cursor < |w.slots|
    && (forall i :: 0 <= i < |w.slots| ==> Ordered(w.slots[i], i, w.pushed))
    && (forall id :: id in w.live ==> Backed(w, id))
  }

  // Holds in addition when no id is added while it is pending: the id map and the slot lists are in bijection.
  ghost predicate Bijective(w: Wheel)
  {
    forall i, k :: 0 <= i < |w.slots| && 0 <= k < |w.slots[i]| ==>
      w.slots[i][k].id in w.live && w.live[w.slots[i][k].id] == Place(i, w.slots[i][k].stamp)
  }

  // ---- Facts about the list functions ----

  lemma {:induction false} RemoveFirstAt(s: seq<Entry>, id: int, k: nat)
    requires k < |s| && s[k].id == id && forall j :: 0 <= j < k ==> s[j].id != id
    ensures RemoveFirst(s, id) == s[..k] + s[k + 1..]
  {
    if k > 0 {
      RemoveFirstAt(s[1..], id, k - 1);
      assert s[1..][..k - 1] == s[1..k];
      assert s[..k] == [s[0]] + s[1..k];
      assert s[1..][k - 1 + 1..] == s[k + 1..];
    }
  }

  lemma {:induction false} FirstIndex(s: seq<Entry>, id: int) returns (k: nat)
    requires HasId(s, id)
    ensures k < |s| && s[k].id == id && forall j :: 0 <= j < k ==> s[j].id != id
  {
    if s[0].id == id {
      k := 0;
    } else {
      var j0 :| 0 <= j0 < |s| && s[j0].id == id;
      assert s[1..][j0 - 1].id == id;
      k := FirstIndex(s[1..], id);
      assert forall j :: 1 <= j < k + 1 ==> s[j] == s[1..][j - 1];
      k := k + 1;
    }
  }

  // Every element of Due and Kept comes from an element of the slot, at a position not before its own.
  lemma {:induction false} DueSource(s: seq<Entry>, k: nat) returns (j: nat)
    requires k < |Due(s)|
    ensures k <= j < |s| && s[j].circle <= 0 && Due(s)[k] == s[j]
  {
    var p := s[..|s| - 1];
    if k < |Due(p)| {
      j := DueSource(p, k);
    } else {
      DueSplit(p);
      j := |s| - 1;
    }
  }

  lemma {:induction false} KeptSource(s: seq<Entry>, k: nat) returns (j: nat)
    requires k < |Kept(s)|
    ensures k <= j < |s| && s[j].circle > 0 && Kept(s)[k] == s[j].(circle := s[j].circle - 1)
  {
    var p := s[..|s| - 1];
    if k < |Kept(p)| {
      j := KeptSource(p, k);
    } else {
      DueSplit(p);
      j := |s| - 1;
    }
  }

  lemma {:induction false} DueSplit(s: seq<Entry>)
    ensures |Due(s)| + |Kept(s)| == |s|
  {
    if s != [] {
      DueSplit(s[..|s| - 1]);
    }
  }

  // And every element of the slot is in the one or the other.
  lemma {:induction false} DueOrKept(s: seq<Entry>, j: nat) returns (k: nat)
    requires j < |s|
    ensures s[j].circle <= 0 ==> k < |Due(s)| && Due(s)[k] == s[j]
    ensures s[j].circle > 0 ==> k < |Kept(s)| && Kept(s)[k] == s[j].(circle := s[j].circle - 1)
  {
    var p := s[..|s| - 1];
    if j < |s| - 1 {
      k := DueOrKept(p, j);
    } else {
      k := if s[j].circle <= 0 then |Due(p)| else |Kept(p)|;
    }
  }

  lemma SplitOrdered(s: seq<Entry>, i: nat, pushed: seq<nat>)
    requires Ordered(s, i, pushed)
    ensures Ordered(Due(s), i, pushed) && Ordered(Kept(s), i, pushed)
  {
    DueOrdered(s, i, pushed);
    KeptOrdered(s, i, pushed);
  }

  lemma SnocOrdered(s: seq<Entry>, e: Entry, i: nat, pushed: seq<nat>)
    requires Ordered(s, i, pushed) && e.stamp < |pushed| && pushed[e.stamp] == i
    requires forall k :: 0 <= k < |s| ==> s[k].stamp < e.stamp
    ensures Ordered(s + [e], i, pushed)
  {
  }

  lemma {:induction false} DueOrdered(s: seq<Entry>, i: nat, pushed: seq<nat>)
    requires Ordered(s, i, pushed)
    ensures Ordered(Due(s), i, pushed)
  {
    if s != [] {
      var p, e := s[..|s| - 1], s[|s| - 1];
      DueOrdered(p, i, pushed);
      forall k | 0 <= k < |Due(p)|
        ensures Due(p)[k].stamp < e.stamp
      {
        var j := DueSource(p, k);
      }
      SnocOrdered(Due(p), e, i, pushed);
    }
  }

  lemma {:induction false} KeptOrdered(s: seq<Entry>, i: nat, pushed: seq<nat>)
    requires Ordered(s, i, pushed)
    ensures Ordered(Kept(s), i, pushed)
  {
    if s != [] {
      var p, e := s[..|s| - 1], s[|s| - 1];
      KeptOrdered(p, i, pushed);
      forall k | 0 <= k < |Kept(p)|
        ensures Kept(p)[k].stamp < e.stamp
      {
        var j := KeptSource(p, k);
      }
      SnocOrdered(Kept(p), e.(circle := e.circle - 1), i, pushed);
    }
  }

  // ---- Preservation ----

  lemma EmptyInv(m: nat)
    requires m > 0
    ensures Inv(Empty(m)) && Bijective(Empty(m))
  {
  }

  lemma AddInv(w: Wheel, id: int, n: int)
    requires Inv(w) && CanAdd(w, n)
    ensures Inv(Add(w, id, n))
    ensures Bijective(w) && id !in w.live ==> Bijective(Add(w, id, n))
  {
    RemRange(w.cursor + n, |w.slots|);
    PushInv(w, id, Rem(w.cursor + n, |w.slots|), Quo(n, |w.slots|));
  }

  lemma PushInv(w: Wheel, id: int, index: nat, circle: int)
    requires Inv(w) && index < |w.slots|
    ensures Inv(Push(w, id, index, circle))
    ensures Bijective(w) && id !in w.live ==> Bijective(Push(w, id, index, circle))
  {
    PushBacked(w, id, index, circle);
    PushOrdered(w.slots[index], Entry(id, circle, w.Next()), index, w.pushed);
  }

  lemma PushOrdered(s: seq<Entry>, e: Entry, index: nat, pushed: seq<nat>)
    requires Ordered(s, index, pushed) && e.stamp == |pushed|
    ensures Ordered(s + [e], index, pushed + [index])
  {
  }

  lemma PushBacked(w: Wheel, id: int, index: nat, circle: int)
    requires Inv(w) && index < |w.slots|
    ensures var w' := Push(w, id, index, circle); forall x :: x in w'.live ==> Backed(w', x)
  {
    var w' := Push(w, id, index, circle);
    assert w'.slots[index][|w.slots[index]|] == Entry(id, circle, w.Next());
    forall x | x in w'.live
      ensures Backed(w', x)
    {
      if x != id {
        var k := BackingElement(w, x);
        assert w'.slots[w.live[x].slot][k] == w.slots[w.live[x].slot][k];
      }
    }
  }

  lemma BackingElement(w: Wheel, id: int) returns (k: nat)
    requires Inv(w) && id in w.live
    ensures var p := w.live[id];
            && p.slot < |w.slots| && k < |w.slots[p.slot]|
            && w.slots[p.slot][k].id == id && w.slots[p.slot][k].stamp == p.stamp
  {
    assert Backed(w, id);
    var p := w.live[id];
    k :| 0 <= k < |w.slots[p.slot]| && w.slots[p.slot][k].id == id && w.slots[p.slot][k].stamp == p.stamp;
  }

  // Where the elements of a list stand after the first element for an id is gone.
  lemma RemoveFirstShifts(s: seq<Entry>, id: int) returns (f: nat)
    requires HasId(s, id)
    ensures f < |s| && s[f].id == id && |RemoveFirst(s, id)| == |s| - 1
    ensures forall k :: 0 <= k < |s| - 1 ==> RemoveFirst(s, id)[k] == s[if k < f then k else k + 1]
  {
    f := FirstIndex(s, id);
    RemoveFirstAt(s, id, f);
  }

  lemma RemoveFirstOrdered(s: seq<Entry>, id: int, i: nat, pushed: seq<nat>)
    requires Ordered(s, i, pushed) && HasId(s, id)
    ensures Ordered(RemoveFirst(s, id), i, pushed)
  {
    var f := RemoveFirstShifts(s, id);
  }

  lemma RemoveFirstKeeps(s: seq<Entry>, id: int, k: nat) returns (k': nat)
    requires HasId(s, id) && k < |s| && s[k].id != id
    ensures k' < |RemoveFirst(s, id)| && RemoveFirst(s, id)[k'] == s[k]
  {
    var f := RemoveFirstShifts(s, id);
    k' := if k < f then k else k - 1;
  }

  // The id map never names an element that is gone, so Delete always reports success.
  lemma DeleteSucceeds(w: Wheel, id: int)
    requires Inv(w)
    ensures Delete(w, id).1
    ensures id in w.live ==> HasId(w.slots[w.live[id].slot], id)
  {
    if id in w.live {
      var k := BackingElement(w, id);
    }
  }

  lemma DeleteInv(w: Wheel, id: int)
    requires Inv(w)
    ensures Inv(Delete(w, id).0)
    ensures Bijective(w) ==> Bijective(Delete(w, id).0)
  {
    DeleteSucceeds(w, id);
    if id in w.live {
      var i, w' := w.live[id].slot, Delete(w, id).0;
      RemoveFirstOrdered(w.slots[i], id, i, w.pushed);
      forall x | x in w'.live
        ensures Backed(w', x)
      {
        var k := BackingElement(w, x);
        if w.live[x].slot == i {
          var k' := RemoveFirstKeeps(w.slots[i], id, k);
        } else {
          assert w'.slots[w.live[x].slot][k] == w.slots[w.live[x].slot][k];
        }
      }
      if Bijective(w) {
        DeleteBijective(w, id);
      }
    }
  }

  lemma DeleteBijective(w: Wheel, id: int)
    requires Inv(w) && Bijective(w) && id in w.live && HasId(w.slots[w.live[id].slot], id)
    ensures Bijective(Delete(w, id).0)
  {
    var i, w' := w.live[id].slot, Delete(w, id).0;
    var f := RemoveFirstShifts(w.slots[i], id);
    forall j, k | 0 <= j < |w'.slots| && 0 <= k < |w'.slots[j]|
      ensures w'.slots[j][k].id in w'.live && w'.live[w'.slots[j][k].id] == Place(j, w'.slots[j][k].stamp)
    {
      var k0 := if j == i && k >= f then k + 1 else k;
      assert w'.slots[j][k] == w.slots[j][k0];
      assert w.slots[i][f].stamp == w.live[id].stamp;
      assert w.slots[j][k0].id != id;
    }
  }

  lemma TriggerInv(w: Wheel)
    requires Inv(w)
    ensures Inv(Trigger(w).0)
    ensures Bijective(w) ==> Bijective(Trigger(w).0)
  {
    var w', c := Trigger(w).0, w.cursor;
    var s := w.slots[c];
    SplitOrdered(s, c, w.pushed);
    forall x | x in w'.live
      ensures Backed(w', x)
    {
      var k := BackingElement(w, x);
      var p := w.live[x];
      if p.slot == c {
        var k' := DueOrKept(s, k);
        assert x in IdSet(Due(s)) || Kept(s)[k'].id == x;
      } else {
        assert w'.slots[p.slot][k] == w.slots[p.slot][k];
      }
    }
    if Bijective(w) {
      forall i, k | 0 <= i < |w'.slots| && 0 <= k < |w'.slots[i]|
        ensures w'.slots[i][k].id in w'.live && w'.live[w'.slots[i][k].id] == Place(i, w'.slots[i][k].stamp)
      {
        KeptStaysMapped(w, i, k);
      }
    }
  }

  lemma KeptStaysMapped(w: Wheel, i: nat, k: nat)
    requires Inv(w) && Bijective(w)
    requires i < |w.slots| && k < |Trigger(w).0.slots[i]|
    ensures var w' := Trigger(w).0;
            var e := w'.slots[i][k];
            e.id in w'.live && w'.live[e.id] == Place(i, e.stamp)
  {
    var w', c := Trigger(w).0, w.cursor;
    var e, due := w'.slots[i][k], Due(w.slots[c]);
    var k0 := k;
    if i == c {
      k0 := KeptSource(w.slots[c], k);
    }
    assert w.live[w.slots[i][k0].id] == Place(i, e.stamp);
    if e.id in IdSet(due) {
      var d :| 0 <= d < |due| && due[d].id == e.id;
      var d0 := DueSource(w.slots[c], d);
      assert false;
    }
  }

  // Deleting an item right after it was added puts ring, map and cursor back as they were.
  lemma DeleteUndoesAdd(w: Wheel, id: int, n: int)
    requires Inv(w) && Bijective(w) && CanAdd(w, n) && id !in w.live
    ensures Delete(Add(w, id, n), id).1
    ensures Delete(Add(w, id, n), id).0.(pushed := w.pushed) == w
  {
    RemRange(w.cursor + n, |w.slots|);
    var w', i := Add(w, id, n), Rem(w.cursor + n, |w.slots|);
    var k := |w.slots[i]|;
    assert w'.slots[i][k].id == id;
    RemoveFirstAt(w'.slots[i], id, k);
    assert w'.slots[i][..k] + w'.slots[i][k + 1..] == w.slots[i];
    assert w'.live - {id} == w.live;
  }
}
