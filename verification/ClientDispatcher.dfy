// The cases of the dispatch loop of client/client.go that change its maps, with their loops.

module ClientDispatcher {
  import opened Channels
  import M = ClientModel

  class Dispatcher {
    var ops: map<M.OpId, M.Op>
    var respWait: map<M.Id, M.OpId>
    var subs: map<M.SubId, M.OpId>
    ghost var grants: seq<M.Grant>

    ghost function Value(): M.Registry
      reads this
    {
      M.Registry(ops, respWait, subs, grants)
    }

    constructor ()
      ensures Value() == M.Registry(map[], map[], map[], [])
    {
      ops, respWait, subs, grants := map[], map[], map[], [];
    }

    // An operation taken from requestOp waits for a response to each of its ids.
    method Accept(op: M.OpId)
      requires op in ops
      modifies this
      ensures Value() == M.Register(old(Value()), op)
    {
      var ids := ops[op].ids;
      for k := 0 to |ids|
        invariant ops == old(ops) && subs == old(subs) && grants == old(grants)
        invariant respWait == old(respWait) + map id | id in ids[..k] :: op
      {
        respWait := respWait[ids[k] := op];
        assert ids[..k + 1] == ids[..k] + [ids[k]];
      }
      assert ids[..|ids|] == ids;
    }

    // A failed send takes the handlers of its operation back.
    method Fail(lastOp: M.OpId)
      requires lastOp in ops
      modifies this
      ensures Value() == M.Deregister(old(Value()), lastOp)
    {
      var ids := ops[lastOp].ids;
      for k := 0 to |ids|
        invariant ops == old(ops) && subs == old(subs) && grants == old(grants)
        invariant respWait == old(respWait) - set id | id in ids[..k]
      {
        respWait := respWait - {ids[k]};
        assert ids[..k + 1] == ids[..k] + [ids[k]];
      }
      assert ids[..|ids|] == ids;
      ops := ops[lastOp := ops[lastOp].(removed := true)];
    }

    method HandleResponse(id: M.Id, body: M.Body)
      requires M.Closed(Value())
      modifies this
      ensures Value() == M.HandleResponse(old(Value()), id, body)
    {
      if id !in respWait {
        return;
      }
      var o, msg := respWait[id], M.Response(id, body);
      respWait := respWait - {id};
      var op := ops[o].(answered := ops[o].answered + {id}, delivered := ops[o].delivered + [msg]);
      if !op.isSub {
        ops := ops[o := op.(resp := op.resp.Send(msg))];
        return;
      }
      match body {
        case ErrorBody => op := op.(err := Some(M.ServerError));
        case ResultBody(None) => op := op.(err := Some(M.DecodeError));
        case ResultBody(Some(x)) =>
          op := op.(err := None, starts := op.starts + 1);
          grants := grants + [M.Granted(x, o)];
          subs := subs[x := o];
      }
      // The deferred close.
      ops := ops[o := op.(resp := op.resp.Close())];
    }

    // Every waiting operation is closed once, however many of its ids are waited for, and every active
    // subscription is ended; the maps are left empty.
    method CloseRequestOps(err: M.Err)
      requires M.Closed(Value())
      modifies this
      ensures Value() == M.CloseRequestOps(old(Value()), err)
    {
      ghost var r := Value();
      var waiting, closed := CloseEach(respWait, ops, err);
      var active, ended := QuitEach(subs, closed);
      BothLoops(r, err, closed, ended);
      respWait, subs, ops := waiting, active, ended;
      grants := grants + [M.AllEnded];
    }
  }

  lemma BothLoops(r: M.Registry, err: M.Err, closed: map<M.OpId, M.Op>, ended: map<M.OpId, M.Op>)
    requires closed.Keys == r.ops.Keys == ended.Keys
    requires forall o :: o in r.ops ==> closed[o] == M.CloseOp(r.ops[o], o in r.respWait.Values, err, false)
    requires forall o :: o in closed ==> ended[o] == if o in r.subs.Values then closed[o].(quit := true) else closed[o]
    ensures ended == M.CloseRequestOps(r, err).ops
  {
  }

  // The loop over the waiting operations: an operation is closed when the first of its ids is met.
  method CloseEach(respWait: map<M.Id, M.OpId>, ops: map<M.OpId, M.Op>, err: M.Err)
    returns (waiting: map<M.Id, M.OpId>, all: map<M.OpId, M.Op>)
    requires forall id :: id in respWait ==> respWait[id] in ops
    ensures waiting == map[] && all.Keys == ops.Keys
    ensures forall o :: o in ops ==> all[o] == M.CloseOp(ops[o], o in respWait.Values, err, false)
  {
    waiting, all := respWait, ops;
    ghost var waited := respWait.Values;
    assert forall id :: id in respWait ==> respWait[id] in waited;
    var didClose: set<M.OpId> := {};
    while waiting != map[]
      invariant forall id :: id in waiting ==> id in respWait && waiting[id] == respWait[id]
      invariant forall id :: id in respWait ==> id in waiting || respWait[id] in didClose
      invariant didClose <= waited && all.Keys == ops.Keys
      invariant forall o :: o in ops && o !in didClose ==> all[o] == ops[o]
      invariant forall o :: o in ops && o in didClose ==>
                  all[o] == ops[o].(err := Some(err), resp := ops[o].resp.Close())
      decreases waiting.Keys
    {
      var id :| id in waiting;
      var op := waiting[id];
      Shrinks(waiting, id);
      waiting := waiting - {id};
      if op !in didClose {
        all := all[op := all[op].(err := Some(err), resp := all[op].resp.Close())];
        didClose := didClose + {op};
      }
    }
    Covered(respWait, didClose);
  }

  // The loop over the active subscriptions: quitWithError acts once for each.
  method QuitEach(subs: map<M.SubId, M.OpId>, ops: map<M.OpId, M.Op>)
    returns (active: map<M.SubId, M.OpId>, all: map<M.OpId, M.Op>)
    requires forall x :: x in subs ==> subs[x] in ops
    ensures active == map[] && all.Keys == ops.Keys
    ensures forall o :: o in ops ==> all[o] == if o in subs.Values then ops[o].(quit := true) else ops[o]
  {
    active, all := subs, ops;
    ghost var ended: set<M.OpId>, subscribed := {}, subs.Values;
    assert forall x :: x in subs ==> subs[x] in subscribed;
    while active != map[]
      invariant forall x :: x in active ==> x in subs && active[x] == subs[x]
      invariant forall x :: x in subs ==> x in active || subs[x] in ended
      invariant ended <= subscribed && all.Keys == ops.Keys
      invariant forall o :: o in ops && o !in ended ==> all[o] == ops[o]
      invariant forall o :: o in ops && o in ended ==> all[o] == ops[o].(quit := true)
      decreases active.Keys
    {
      var x :| x in active;
      var op := active[x];
      Shrinks(active, x);
      active := active - {x};
      all := all[op := all[op].(quit := true)];
      ended := ended + {op};
    }
    Covered(subs, ended);
  }

  lemma Covered<K, V>(m: map<K, V>, s: set<V>)
    requires s <= m.Values && forall k :: k in m ==> m[k] in s
    ensures s == m.Values
  {
  }

  lemma Shrinks<K, V>(m: map<K, V>, k: K)
    requires k in m
    ensures (m - {k}).Keys < m.Keys
  {
  }
}
