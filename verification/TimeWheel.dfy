// The classes of node/tw/timewheel.go. Items are shared between the slot lists and the id map, and their
// circle is counted down in place; every method is proved to compute the function of WheelModel on the value
// that Abs reads off the heap.

module TimeWheels {
  import opened GoInt
  import M = WheelModel

  const DEFAULT_INTERVAL := M.NANOS_PER_SECOND
  const DEFAULT_SLOT := 3600

  class TimeItem {
    const index: nat
    var circle: int
    const id: int
    ghost const stamp: nat

    constructor (index: nat, circle: int, id: int, ghost stamp: nat)
      ensures this.index == index && this.circle == circle && this.id == id && this.stamp == stamp
    {
      this.index, this.circle, this.id, this.stamp := index, circle, id, stamp;
    }
  }

  ghost function EntryOf(o: TimeItem): M.Entry
    reads o
  {
    M.Entry(o.id, o.circle, o.stamp)
  }

  ghost function Entries(l: seq<TimeItem>): (r: seq<M.Entry>)
    reads l
    ensures |r| == |l| && forall k :: 0 <= k < |l| ==> r[k] == EntryOf(l[k])
  {
    seq(|l|, k requires 0 <= k < |l| reads l => EntryOf(l[k]))
  }

  // The places of the items of an id map.
  ghost function LiveOf(m: map<int, TimeItem>): (live: map<int, M.Place>)
    ensures live.Keys == m.Keys && forall id :: id in m ==> live[id] == M.Place(m[id].index, m[id].stamp)
  {
    map id | id in m :: M.Place(m[id].index, m[id].stamp)
  }

  lemma LiveWith(m: map<int, TimeItem>, o: TimeItem)
    ensures LiveOf(m[o.id := o]) == LiveOf(m)[o.id := M.Place(o.index, o.stamp)]
  {
  }

  lemma LiveWithout(m: map<int, TimeItem>, gone: set<int>)
    ensures LiveOf(m - gone) == LiveOf(m) - gone
  {
  }

  // The items among the first j of a list that stay when the list has the entries es.
  ghost function Staying(list: seq<TimeItem>, es: seq<M.Entry>, j: nat): seq<TimeItem>
    requires j <= |list| == |es|
  {
    if j == 0 then []
    else Staying(list, es, j - 1) + (if es[j - 1].circle > 0 then [list[j - 1]] else [])
  }

  lemma {:induction false} StayingEntries(list: seq<TimeItem>, es: seq<M.Entry>, j: nat)
    requires j <= |list| == |es|
    requires forall a :: 0 <= a < j ==> es[a].id == list[a].id && es[a].stamp == list[a].stamp
    requires forall a :: 0 <= a < j && es[a].circle > 0 ==> list[a].circle == es[a].circle - 1
    ensures Entries(Staying(list, es, j)) == M.Kept(es[..j])
  {
    if j > 0 {
      StayingEntries(list, es, j - 1);
      NextEntry(es, j - 1);
      OneMoreEntry(Staying(list, es, j - 1), list[j - 1]);
      if es[j - 1].circle <= 0 {
        assert Staying(list, es, j) == Staying(list, es, j - 1);
      }
    }
  }

  lemma OneMoreEntry(l: seq<TimeItem>, o: TimeItem)
    ensures Entries(l + [o]) == Entries(l) + [EntryOf(o)]
  {
  }

  lemma {:induction false} StayingIn(list: seq<TimeItem>, es: seq<M.Entry>, j: nat)
    requires j <= |list| == |es|
    ensures forall o :: o in Staying(list, es, j) ==> o in list
    ensures forall a :: 0 <= a < j && es[a].circle > 0 ==> list[a] in Staying(list, es, j)
  {
    if j > 0 {
      StayingIn(list, es, j - 1);
    }
  }

  // The ids of the first j entries that are due, as a list and as a set.
  ghost function DueIds(es: seq<M.Entry>, j: nat): seq<int>
    requires j <= |es|
  {
    if j == 0 then [] else DueIds(es, j - 1) + (if es[j - 1].circle > 0 then [] else [es[j - 1].id])
  }

  ghost function DueIdSet(es: seq<M.Entry>, j: nat): set<int>
    requires j <= |es|
  {
    if j == 0 then {} else DueIdSet(es, j - 1) + (if es[j - 1].circle > 0 then {} else {es[j - 1].id})
  }

  lemma {:induction false} DueIdsUpTo(es: seq<M.Entry>, j: nat)
    requires j <= |es|
    ensures DueIds(es, j) == M.Ids(M.Due(es[..j]))
    ensures DueIdSet(es, j) == M.IdSet(M.Due(es[..j]))
  {
    if j > 0 {
      DueIdsUpTo(es, j - 1);
      assert es[..j][..j - 1] == es[..j - 1];
      var due, e := M.Due(es[..j - 1]), es[j - 1];
      assert (due + [e])[|due|] == e && forall k :: 0 <= k < |due| ==> (due + [e])[k] == due[k];
      assert due + [] == due;
    }
  }

  lemma Walked(list: seq<TimeItem>, es: seq<M.Entry>)
    requires |list| == |es|
    requires forall a :: 0 <= a < |list| ==> es[a].id == list[a].id && es[a].stamp == list[a].stamp
    requires forall a :: 0 <= a < |list| && es[a].circle > 0 ==> list[a].circle == es[a].circle - 1
    ensures Entries(Staying(list, es, |list|)) == M.Kept(es)
    ensures forall o :: o in Staying(list, es, |list|) ==> o in list
    ensures forall a :: 0 <= a < |list| && es[a].circle > 0 ==> list[a] in Staying(list, es, |list|)
    ensures DueIds(es, |es|) == M.Ids(M.Due(es)) && DueIdSet(es, |es|) == M.IdSet(M.Due(es))
  {
    assert es[..|es|] == es;
    StayingEntries(list, es, |list|);
    StayingIn(list, es, |list|);
    DueIdsUpTo(es, |es|);
  }

  class TimeWheel {
    const interval: int
    const slots: array<seq<TimeItem>>
    var mapItems: map<int, TimeItem>
    var currentSlot: nat
    const maxSlot: nat
    ghost var items: set<TimeItem>  // every item ever pushed
    ghost var pushed: seq<nat>      // the slot of every push

    // The lists and the id map hold items of this wheel, each in the list that its index names. The slice of
    // slots can be longer than maxSlot, which happens when the constructor falls back to its defaults.
    ghost predicate Linked(m: map<int, TimeItem>, ls: seq<seq<TimeItem>>)
      reads this`items
    {
      && 0 < maxSlot <= |ls|
      && (forall i :: 0 <= i < maxSlot ==> forall k :: 0 <= k < |ls[i]| ==> ls[i][k] in items && ls[i][k].index == i)
      && (forall id :: id in m ==>
            m[id] in items && m[id].id == id && m[id].index < maxSlot && m[id] in ls[m[id].index])
    }

    ghost predicate WellFormed()
      reads this, slots
    {
      interval > 0 && currentSlot < maxSlot && Linked(mapItems, slots[..])
    }

    // The value w is what the given lists and id map amount to now.
    ghost predicate Reads(w: M.Wheel, m: map<int, TimeItem>, ls: seq<seq<TimeItem>>)
      requires Linked(m, ls)
      reads this, items
    {
      && |w.slots| == maxSlot && (forall i :: 0 <= i < maxSlot ==> w.slots[i] == Entries(ls[i]))
      && w.live == LiveOf(m)
      && w.cursor == currentSlot && w.pushed == pushed
    }

    ghost function Abs(): (w: M.Wheel)
      requires WellFormed()
      reads this, slots, items
      ensures Reads(w, mapItems, slots[..])
    {
      M.Wheel(seq(maxSlot, i requires 0 <= i < maxSlot && WellFormed() reads this, slots, items => Entries(slots[i])),
              LiveOf(mapItems),
              currentSlot, pushed)
    }

    lemma ReadsUnique(w: M.Wheel)
      requires WellFormed() && Reads(w, mapItems, slots[..])
      ensures Abs() == w
    {
      assert Abs().slots == w.slots;
    }

    ghost predicate Valid()
      reads this, slots, items
    {
      WellFormed() && M.Inv(Abs())
    }

    // With a positive interval and slot count the wheel has that many slots. Otherwise the code keeps the slot
    // slice at the given length but counts to 3600, so it needs a slice of at least that length.
    constructor (interval: int, maxSlot: int)
      requires (interval > 0 && maxSlot > 0) || maxSlot >= DEFAULT_SLOT
      ensures Valid() && fresh(slots) && items == {} && slots.Length == maxSlot
      ensures Abs() == M.Empty(this.maxSlot)
      ensures this.interval == if interval <= 0 then DEFAULT_INTERVAL else interval
      ensures this.maxSlot == if interval <= 0 then DEFAULT_SLOT else maxSlot
    {
      var fallback := interval <= 0 || maxSlot <= 0;
      this.interval := if fallback then DEFAULT_INTERVAL else interval;
      this.maxSlot := if fallback then DEFAULT_SLOT else maxSlot;
      slots := new seq<TimeItem>[maxSlot];
      mapItems := map[];
      currentSlot := 0;
      items, pushed := {}, [];
      new;
      for i := 0 to this.maxSlot
        invariant fresh(slots) && mapItems == map[] && currentSlot == 0 && items == {} && pushed == []
        invariant forall j :: 0 <= j < i ==> slots[j] == []
      {
        slots[i] := [];
      }
      M.EmptyInv(this.maxSlot);
      assert Abs().slots == M.Empty(this.maxSlot).slots;
      assert Abs().live == map[];
    }

    // Add pushes an item for the id behind the others of its slot and points the id at it. The caller's delay
    // must be one for which the code neither divides by zero nor indexes below slot 0.
    method Add(id: int, delay: int) returns (index: nat, circle: int)
      requires Valid() && Quo(interval, M.NANOS_PER_SECOND) > 0
      requires M.CanAdd(Abs(), M.Ticks(delay, interval))
      modifies this, slots
      ensures Valid() && fresh(items - old(items)) && items >= old(items)
      ensures Abs() == M.Add(old(Abs()), id, M.Ticks(delay, interval))
      ensures (index, circle) == M.CalcSlotAndCircle(delay, interval, old(currentSlot), maxSlot)
    {
      RemRange(currentSlot + M.Ticks(delay, interval), maxSlot);
      var place := M.CalcSlotAndCircle(delay, interval, currentSlot, maxSlot);
      index, circle := place.0, place.1;
      PushBack(id, index, circle);
    }

    method PushBack(id: int, index: nat, circle: int)
      requires Valid() && index < maxSlot
      modifies this, slots
      ensures Valid() && fresh(items - old(items)) && items >= old(items)
      ensures Abs() == M.Push(old(Abs()), id, index, circle) && currentSlot == old(currentSlot)
    {
      ghost var w, m, ls := Abs(), mapItems, slots[..];
      var item := new TimeItem(index, circle, id, |pushed|);
      mapItems := mapItems[id := item];
      slots[index] := slots[index] + [item];
      items, pushed := items + {item}, pushed + [index];
      Pushed(w, m, ls, item);
    }

    lemma Pushed(w: M.Wheel, m: map<int, TimeItem>, ls: seq<seq<TimeItem>>, item: TimeItem)
      requires interval > 0 && currentSlot < maxSlot && Linked(m, ls) && item in items && item.index < maxSlot
      requires |w.slots| == maxSlot && item.stamp == w.Next() && M.Inv(w)
      requires (forall i :: 0 <= i < maxSlot ==> w.slots[i] == Entries(ls[i]))
      requires w.live == LiveOf(m)
      requires w.cursor == currentSlot && pushed == w.pushed + [item.index]
      requires mapItems == m[item.id := item] && slots[..] == ls[item.index := ls[item.index] + [item]]
      ensures Valid() && Abs() == M.Push(w, item.id, item.index, item.circle)
    {
      M.PushInv(w, item.id, item.index, item.circle);
      PushedLinked(m, ls, item);
      OneMoreEntry(ls[item.index], item);
      LiveWith(m, item);
      var w' := M.Push(w, item.id, item.index, item.circle);
      forall i | 0 <= i < maxSlot
        ensures w'.slots[i] == Entries(slots[..][i])
      {
        assert i != item.index ==> slots[..][i] == ls[i];
      }
      ReadsUnique(w');
    }

    lemma PushedLinked(m: map<int, TimeItem>, ls: seq<seq<TimeItem>>, item: TimeItem)
      requires Linked(m, ls) && item in items && item.index < maxSlot
      ensures Linked(m[item.id := item], ls[item.index := ls[item.index] + [item]])
    {
      var l := ls[item.index] + [item];
      assert l[|ls[item.index]|] == item;
      forall id | id in m
        ensures m[id] in ls[item.index := l][m[id].index]
      {
        var k :| 0 <= k < |ls[m[id].index]| && ls[m[id].index][k] == m[id];
        assert ls[item.index := l][m[id].index][k] == m[id];
      }
    }

    // Delete takes the first element for the id out of the slot list that the id map names, if there is one.
    method Delete(id: int) returns (isDelete: bool)
      requires Valid()
      modifies this`mapItems, slots
      ensures Valid() && isDelete
      ensures Abs() == M.Delete(old(Abs()), id).0
    {
      if id !in mapItems {
        return true;
      }
      ghost var w, m, ls := Abs(), mapItems, slots[..];
      M.DeleteSucceeds(w, id);
      M.DeleteInv(w, id);
      var i := mapItems[id].index;
      ghost var k;
      isDelete, k := Unlink(i, id);
      DeleteFinds(w.slots[i], id, k);
      Unlinked(w, m, ls, i, id, k);
    }

    // The walk of Delete over a slot list. The element it removes has no successor, so it removes at most one.
    method Unlink(i: nat, id: int) returns (isDelete: bool, ghost k: nat)
      requires WellFormed() && i < maxSlot
      modifies this`mapItems, slots
      ensures k <= |old(slots[i])| && forall j :: 0 <= j < k ==> old(slots[i])[j].id != id
      ensures isDelete <==> k < |old(slots[i])|
      ensures isDelete ==> old(slots[i])[k].id == id && mapItems == old(mapItems) - {id}
      ensures isDelete ==> slots[i] == old(slots[i])[..k] + old(slots[i])[k + 1..]
      ensures !isDelete ==> slots[i] == old(slots[i]) && mapItems == old(mapItems)
      ensures forall j :: 0 <= j < slots.Length && j != i ==> slots[j] == old(slots[j])
    {
      var l := slots[i];
      isDelete, k := false, 0;
      var e := 0;
      while e < |l| && !isDelete
        invariant e == k <= |l|
        invariant forall j :: 0 <= j < k ==> l[j].id != id
        invariant isDelete ==> k < |l| && l[k].id == id && mapItems == old(mapItems) - {id}
        invariant !isDelete ==> mapItems == old(mapItems)
        invariant slots[i] == if isDelete then l[..k] + l[k + 1..] else l
        invariant forall j :: 0 <= j < slots.Length && j != i ==> slots[j] == old(slots[j])
        decreases |l| - e, !isDelete
      {
        if l[e].id == id {
          mapItems := mapItems - {id};
          slots[i] := l[..e] + l[e + 1..];
          isDelete := true;
        } else {
          e, k := e + 1, k + 1;
        }
      }
    }

    lemma DeleteFinds(s: seq<M.Entry>, id: int, k: nat)
      requires M.HasId(s, id) && k <= |s| && forall j :: 0 <= j < k ==> s[j].id != id
      requires k < |s| ==> s[k].id == id
      ensures k < |s| && M.RemoveFirst(s, id) == s[..k] + s[k + 1..]
    {
      M.RemoveFirstAt(s, id, k);
    }

    lemma Unlinked(w: M.Wheel, m: map<int, TimeItem>, ls: seq<seq<TimeItem>>, i: nat, id: int, k: nat)
      requires interval > 0 && currentSlot < maxSlot && Linked(m, ls) && Reads(w, m, ls)
      requires id in m && m[id].index == i && k < |ls[i]| && ls[i][k].id == id
      requires M.RemoveFirst(w.slots[i], id) == w.slots[i][..k] + w.slots[i][k + 1..]
      requires M.HasId(w.slots[i], id) && M.Inv(M.Delete(w, id).0)
      requires mapItems == m - {id} && slots[..] == ls[i := ls[i][..k] + ls[i][k + 1..]]
      ensures Valid() && Abs() == M.Delete(w, id).0
    {
      UnlinkedLinked(m, ls, i, id, k);
      LiveWithout(m, {id});
      assert Entries(ls[i][..k] + ls[i][k + 1..]) == w.slots[i][..k] + w.slots[i][k + 1..];
      var w' := M.Delete(w, id).0;
      forall j | 0 <= j < maxSlot
        ensures w'.slots[j] == Entries(slots[..][j])
      {
        assert j != i ==> slots[..][j] == ls[j];
      }
      ReadsUnique(w');
    }

    lemma UnlinkedLinked(m: map<int, TimeItem>, ls: seq<seq<TimeItem>>, i: nat, id: int, k: nat)
      requires Linked(m, ls) && i < maxSlot && k < |ls[i]| && ls[i][k].id == id
      ensures Linked(m - {id}, ls[i := ls[i][..k] + ls[i][k + 1..]])
    {
      var l := ls[i][..k] + ls[i][k + 1..];
      assert forall j :: 0 <= j < |l| ==> l[j] == ls[i][if j < k then j else j + 1];
      forall x | x in m && x != id
        ensures m[x] in ls[i := l][m[x].index]
      {
        if m[x].index == i {
          StaysBeside(ls[i], k, m[x]);
        }
      }
    }

    method Check(id: int) returns (found: bool)
      requires Valid()
      ensures found <==> id in Abs().live
    {
      found := id in mapItems;
    }

    // Get answers with the place of the element that the id was last added with, and (0, 0) for an id that is
    // not pending.
    method Get(id: int) returns (index: nat, circle: int)
      requires Valid()
      ensures id !in Abs().live ==> (index, circle) == (0, 0)
      ensures id in Abs().live ==>
                && index == Abs().live[id].slot < maxSlot
                && M.Entry(id, circle, Abs().live[id].stamp) in Abs().slots[index]
    {
      if id !in mapItems {
        return 0, 0;
      }
      index, circle := mapItems[id].index, mapItems[id].circle;
      ghost var k :| 0 <= k < |slots[index]| && slots[index][k] == mapItems[id];
      assert Entries(slots[index])[k] == M.Entry(id, circle, Abs().live[id].stamp);
    }

    // Trigger empties the current slot of what is due and moves the cursor on.
    method Trigger() returns (jobList: seq<int>)
      requires Valid()
      modifies this, slots, items
      ensures Valid() && items == old(items)
      ensures Abs() == M.Trigger(old(Abs())).0
      ensures jobList == M.Trigger(old(Abs())).1
    {
      ghost var before := Abs();
      jobList := RetrieveCurrent();
      ghost var w := Abs();
      if currentSlot == maxSlot - 1 {
        currentSlot := 0;
      } else {
        currentSlot := currentSlot + 1;
      }
      CursorMoved(before, w);
    }

    lemma CursorMoved(before: M.Wheel, w: M.Wheel)
      requires WellFormed() && Reads(w.(cursor := currentSlot), mapItems, slots[..])
      requires M.Inv(before) && w == M.Retrieve(before, before.cursor).0 && |before.slots| == maxSlot
      requires currentSlot == if before.cursor == maxSlot - 1 then 0 else before.cursor + 1
      ensures Valid() && Abs() == M.Trigger(before).0
    {
      M.TriggerInv(before);
      ReadsUnique(w.(cursor := currentSlot));
    }

    method RetrieveCurrent() returns (jobList: seq<int>)
      requires Valid()
      modifies `mapItems, slots, items
      ensures WellFormed()
      ensures Abs() == M.Retrieve(old(Abs()), currentSlot).0
      ensures jobList == M.Retrieve(old(Abs()), currentSlot).1
    {
      ghost var w, m, ls, i := Abs(), mapItems, slots[..], currentSlot;
      Distinct(slots[currentSlot], i);
      var l;
      jobList, l := Retrieve(slots[currentSlot]);
      slots[currentSlot] := l;
      Retrieved(w, m, ls, i);
    }

    // The walk over a slot list: circles are counted down in place, what is due leaves the list and the id map.
    method Retrieve(list: seq<TimeItem>) returns (jobList: seq<int>, l: seq<TimeItem>)
      requires forall a, b :: 0 <= a < b < |list| ==> list[a] != list[b]
      modifies `mapItems, list
      ensures forall a :: 0 <= a < |list| && old(list[a].circle) > 0 ==> list[a].circle == old(list[a].circle) - 1
      ensures l == Staying(list, old(Entries(list)), |list|)
      ensures jobList == DueIds(old(Entries(list)), |list|)
      ensures mapItems == old(mapItems) - DueIdSet(old(Entries(list)), |list|)
    {
      ghost var es := Entries(list);
      ghost var gone: set<int> := {};
      l, jobList := [], [];
      // Unlinking an element leaves its successor in place, so the walk meets the elements of the list as it was.
      for j := 0 to |list|
        invariant forall a :: j <= a < |list| ==> list[a].circle == es[a].circle
        invariant forall a :: 0 <= a < j && es[a].circle > 0 ==> list[a].circle == es[a].circle - 1
        invariant SoFar(list, es, j, l, jobList, gone) && mapItems == old(mapItems) - gone
      {
        var job := list[j];
        WalkOne(list, es, j, l, jobList, gone);
        if job.circle > 0 {
          job.circle := job.circle - 1;
          l := l + [job];
        } else {
          jobList := jobList + [job.id];
          mapItems, gone := mapItems - {job.id}, gone + {job.id};
        }
      }
    }

    // What the walk has gathered after j elements.
    ghost predicate SoFar(list: seq<TimeItem>, es: seq<M.Entry>, j: nat,
                          l: seq<TimeItem>, jobList: seq<int>, gone: set<int>)
    {
      j <= |list| == |es| && l == Staying(list, es, j) && jobList == DueIds(es, j) && gone == DueIdSet(es, j)
    }

    lemma WalkOne(list: seq<TimeItem>, es: seq<M.Entry>, j: nat, l: seq<TimeItem>, jobList: seq<int>, gone: set<int>)
      requires j < |list| && SoFar(list, es, j, l, jobList, gone)
      ensures es[j].circle > 0 ==> SoFar(list, es, j + 1, l + [list[j]], jobList, gone)
      ensures es[j].circle <= 0 ==> SoFar(list, es, j + 1, l, jobList + [es[j].id], gone + {es[j].id})
    {
    }

    lemma Distinct(l: seq<TimeItem>, i: nat)
      requires WellFormed() && i < maxSlot && l == slots[i] && M.Ordered(Entries(l), i, pushed)
      ensures forall a, b :: 0 <= a < b < |l| ==> l[a] != l[b]
    {
      forall a, b | 0 <= a < b < |l|
        ensures l[a] != l[b]
      {
        assert Entries(l)[a].stamp < Entries(l)[b].stamp;
      }
    }

    // Items of other slots are not those of slot i.
    lemma Others(w: M.Wheel, m: map<int, TimeItem>, ls: seq<seq<TimeItem>>, i: nat)
      requires Linked(m, ls) && |w.slots| == maxSlot && i < maxSlot
      requires forall x :: 0 <= x < maxSlot ==> |w.slots[x]| == |ls[x]|
      requires forall x, k :: 0 <= x < maxSlot && 0 <= k < |ls[x]| && ls[x][k] !in ls[i] ==>
                 EntryOf(ls[x][k]) == w.slots[x][k]
      ensures forall x :: 0 <= x < maxSlot && x != i ==> Entries(ls[x]) == w.slots[x]
    {
      forall x | 0 <= x < maxSlot && x != i
        ensures Entries(ls[x]) == w.slots[x]
      {
        forall k | 0 <= k < |ls[x]|
          ensures EntryOf(ls[x][k]) == w.slots[x][k]
        {
          assert ls[x][k].index == x;
          assert ls[x][k] !in ls[i];
        }
      }
    }

    lemma Retrieved(w: M.Wheel, m: map<int, TimeItem>, ls: seq<seq<TimeItem>>, i: nat)
      requires interval > 0 && Linked(m, ls) && |w.slots| == maxSlot && w.cursor == currentSlot == i < maxSlot
      requires w.live == LiveOf(m) && pushed == w.pushed
      requires forall x :: 0 <= x < maxSlot ==> |w.slots[x]| == |ls[x]|
      requires forall k :: 0 <= k < |ls[i]| ==> w.slots[i][k].id == ls[i][k].id && w.slots[i][k].stamp == ls[i][k].stamp
      requires forall k :: 0 <= k < |ls[i]| && w.slots[i][k].circle > 0 ==> ls[i][k].circle == w.slots[i][k].circle - 1
      requires forall x, k :: 0 <= x < maxSlot && 0 <= k < |ls[x]| && ls[x][k] !in ls[i] ==>
                 EntryOf(ls[x][k]) == w.slots[x][k]
      requires slots[..] == ls[i := Staying(ls[i], w.slots[i], |ls[i]|)]
      requires mapItems == m - DueIdSet(w.slots[i], |ls[i]|)
      ensures WellFormed() && Abs() == M.Retrieve(w, i).0
      ensures DueIds(w.slots[i], |ls[i]|) == M.Retrieve(w, i).1
    {
      Walked(ls[i], w.slots[i]);
      RetrievedLinked(m, ls, i, w.slots[i]);
      LiveWithout(m, DueIdSet(w.slots[i], |ls[i]|));
      Others(w, m, ls, i);
      ReadsUnique(M.Retrieve(w, i).0);
    }

    lemma RetrievedLinked(m: map<int, TimeItem>, ls: seq<seq<TimeItem>>, i: nat, es: seq<M.Entry>)
      requires Linked(m, ls) && i < maxSlot && |es| == |ls[i]|
      requires forall k :: 0 <= k < |ls[i]| ==> es[k].id == ls[i][k].id && es[k].stamp == ls[i][k].stamp
      requires forall k :: 0 <= k < |ls[i]| && es[k].circle > 0 ==> ls[i][k].circle == es[k].circle - 1
      ensures Linked(m - DueIdSet(es, |es|), ls[i := Staying(ls[i], es, |es|)])
    {
      Walked(ls[i], es);
      var l := Staying(ls[i], es, |es|);
      assert forall k :: 0 <= k < |l| ==> l[k] in l && l[k] in ls[i];
      forall x | x in m && x !in DueIdSet(es, |es|)
        ensures m[x] in ls[i := l][m[x].index]
      {
        if m[x].index == i {
          StaysIn(es, ls[i], l, m[x]);
        }
      }
    }
  }

  // NewTimeWheel with what the constructor above asks for left open: null stands for a panic, of make for a negative
  // length or of the loop that fills the slots, when the fallback counts beyond the slots that were made.
  method NewTimeWheel(interval: int, maxSlot: int) returns (tw: TimeWheel?)
    ensures tw == null <==> (interval <= 0 || maxSlot <= 0) && maxSlot < 3600
    ensures tw != null ==> tw.Valid() && fresh(tw) && tw.slots.Length == maxSlot && tw.Abs() == M.Empty(tw.maxSlot)
    ensures tw != null && interval > 0 && maxSlot > 0 ==> tw.interval == interval && tw.maxSlot == maxSlot
    ensures tw != null && (interval <= 0 || maxSlot <= 0) ==>
              tw.interval == 1_000_000_000 && tw.maxSlot == 3600
  {
    var count := if interval <= 0 || maxSlot <= 0 then DEFAULT_SLOT else maxSlot;
    if maxSlot < 0 {
      return null;
    }
    for i := 0 to count
      invariant i <= maxSlot
    {
      if i >= maxSlot {
        return null;
      }
    }
    tw := new TimeWheel(interval, maxSlot);
  }

  // The divisor of Add is zero for the intervals under a second that NewTimeWheel accepts.
  lemma ZeroDivisor(interval: int)
    requires interval > 0
    ensures Quo(interval, M.NANOS_PER_SECOND) == 0 <==> interval < M.NANOS_PER_SECOND
  {
  }

  lemma StaysBeside(l: seq<TimeItem>, k: nat, o: TimeItem)
    requires o in l && k < |l| && o != l[k]
    ensures o in l[..k] + l[k + 1..]
  {
    var j :| 0 <= j < |l| && l[j] == o;
    assert (l[..k] + l[k + 1..])[if j < k then j else j - 1] == o;
  }

  // An item whose id did not fire is still in its list.
  lemma StaysIn(es: seq<M.Entry>, l: seq<TimeItem>, l': seq<TimeItem>, o: TimeItem)
    requires o in l && |es| == |l| && o.id !in M.IdSet(M.Due(es))
    requires forall k :: 0 <= k < |l| ==> es[k].id == l[k].id
    requires forall k :: 0 <= k < |l| && es[k].circle > 0 ==> l[k] in l'
    ensures o in l'
  {
    var a :| 0 <= a < |l| && l[a] == o;
    var d := M.DueOrKept(es, a);
  }

  // What one more element adds to the split of a slot list.
  lemma NextEntry(es: seq<M.Entry>, j: nat)
    requires j < |es|
    ensures M.Kept(es[..j + 1]) ==
              M.Kept(es[..j]) + (if es[j].circle > 0 then [es[j].(circle := es[j].circle - 1)] else [])
  {
    assert es[..j + 1][..j] == es[..j];
  }
}
