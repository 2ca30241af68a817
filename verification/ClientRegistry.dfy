// The invariant of the dispatch loop's registry, kept by each of the functions of ClientModel.

module ClientRegistry {
  import opened Channels
  import opened ClientModel

  ghost predicate Distinct(ids: seq<Id>)
  {
    forall j, k :: 0 <= j < k < |ids| ==> ids[j] != ids[k]
  }

  // The responses forwarded to an operation: one for each answered id.
  ghost predicate Replies(op: Op)
  {
    && |op.delivered| == |op.answered|
    && (forall k :: 0 <= k < |op.delivered| ==> op.delivered[k].Response? && op.delivered[k].id in op.answered)
    && (forall j, k :: 0 <= j < k < |op.delivered| ==> op.delivered[j].id != op.delivered[k].id)
  }

  // The responses that a caller has taken from the mailbox.
  function Received(op: Op): seq<Msg>
  {
    op.got + (if op.held.Some? then [op.held.value] else []) + if op.lost.Some? then [op.lost.value.0] else []
  }

  // A caller in wait with a response in its mailbox.
  predicate CanTake(op: Op)
  {
    op.resp.buf != [] && op.held.None? && op.lost.None?
  }

  // What holds of every operation in every reachable state.
  ghost predicate OpInv(op: Op)
  {
    && Distinct(op.ids) && (op.isSub ==> |op.ids| == 1)
    && op.answered <= IdSet(op.ids) && Replies(op)
    // The mailbox has room for a response to every id, and nothing that blocks or panics ever happened to it.
    && op.resp.cap == (if op.isSub then 0 else |op.ids|) && !op.resp.fault
    && (if op.isSub then op.resp.buf == [] && op.got == [] && op.held.None? && op.lost.None?
        else Received(op) + op.resp.buf == op.delivered)
    // A caller loses a response only to a close, and a mailbox is closed with an error only while an id is unanswered.
    && (op.lost.Some? ==> op.resp.closed && op.held.None?)
    && (!op.isSub ==> (op.resp.closed <==> op.err.Some?))
    && (!op.isSub && op.resp.closed ==> op.answered != IdSet(op.ids))
    // A closed mailbox has a reason: an error, or for a subscription its response.
    && (op.resp.closed ==> op.err.Some? || (op.isSub && op.answered != {}))
    && (op.isSub && op.answered != {} ==> op.resp.closed)
    // Nothing happens to an operation that dispatch has not accepted.
    && (!op.Accepted() ==> op.answered == {} && !op.resp.closed && !op.removed)
    // An operation is deregistered only when send reports the failure.
    && (op.removed ==> op.pc.Sent? && op.pc.res.Some?)
    // A forwarder is started once, by a response that carries a subscription id.
    && op.starts <= 1 && (op.starts == 1 ==> op.isSub && op.answered != {} && op.resp.closed)
    && (op.isSub ==> Concluded(op))
  }

  // How a subscription request stands: refused by the server, answered with something that is no id, granted, or open.
  ghost predicate Concluded(op: Op)
  {
    if op.delivered == [] then op.starts == 0 && (op.resp.closed <==> op.err.Some?)
    else
      && op.delivered[0].Response?
      && match op.delivered[0].body
         case ErrorBody => op.err == Some(ServerError) && op.starts == 0
         case ResultBody(None) => op.err == Some(DecodeError) && op.starts == 0
         case ResultBody(Some(_)) => op.err.None? && op.starts == 1
  }

  ghost predicate Waiting(op: Op)
  {
    op.Accepted() && !op.resp.closed && !op.removed
  }

  type Ops = map<OpId, Op>

  ghost predicate AllOps(ops: Ops)
  {
    forall o :: o in ops ==> OpInv(ops[o])
  }

  // owner says which operation an id was drawn for.
  ghost predicate Owned(ops: Ops, owner: map<Id, OpId>)
  {
    forall o, id :: o in ops && Among(id, ops[o].ids) ==> id in owner && owner[id] == o
  }

  // The operation waits for a response to the id.
  ghost predicate Awaits(ops: Ops, o: OpId, id: Id)
  {
    o in ops && Waiting(ops[o]) && Among(id, ops[o].ids) && id !in ops[o].answered
  }

  // Only waiting operations are waited for, and only for their unanswered ids; and for all of these.
  ghost predicate Awaited(ops: Ops, respWait: map<Id, OpId>)
  {
    forall id :: id in respWait ==> Awaits(ops, respWait[id], id)
  }

  ghost predicate Complete(ops: Ops, respWait: map<Id, OpId>)
  {
    forall o, id :: Awaits(ops, o, id) ==> id in respWait && respWait[id] == o
  }

  // The subscriptions that the history leaves active, and those whose id was granted again while they were.
  function Active(grants: seq<Grant>): map<SubId, OpId>
  {
    if grants == [] then map[]
    else
      match grants[|grants| - 1]
      case Granted(x, o) => Active(grants[..|grants| - 1])[x := o]
      case AllEnded => map[]
  }

  function Shadowed(grants: seq<Grant>): set<OpId>
  {
    if grants == [] then {}
    else
      var before := grants[..|grants| - 1];
      match grants[|grants| - 1]
      case Granted(x, _) => Shadowed(before) + if x in Active(before) then {Active(before)[x]} else {}
      case AllEnded => Shadowed(before)
  }

  // A started subscription is in exactly one of three places: it is active, or it was ended, or it is shadowed by a
  // later one to which the server gave the same id, and then it is still open.
  ghost predicate Subscribed(ops: Ops, subs: map<SubId, OpId>, shadowed: set<OpId>)
  {
    && (forall x :: x in subs ==> subs[x] in ops && ops[subs[x]].starts == 1 && !ops[subs[x]].quit)
    && (forall x :: x in subs ==> subs[x] !in shadowed)
    && (forall x, y :: x in subs && y in subs && subs[x] == subs[y] ==> x == y)
    && (forall o :: o in shadowed ==> o in ops && ops[o].starts == 1 && !ops[o].quit)
    && (forall o :: o in ops && ops[o].starts == 1 ==> o in subs.Values || ops[o].quit || o in shadowed)
    && (forall o :: o in ops && ops[o].starts == 0 ==> !ops[o].quit)
  }

  ghost predicate RegInv(r: Registry, owner: map<Id, OpId>)
  {
    && AllOps(r.ops) && Owned(r.ops, owner) && Awaited(r.ops, r.respWait) && Complete(r.ops, r.respWait)
    && Subscribed(r.ops, r.subs, Shadowed(r.grants)) && r.subs == Active(r.grants)
  }

  // ---- Cardinality ----

  lemma {:induction false} IdSetSize(ids: seq<Id>)
    ensures |IdSet(ids)| <= |ids|
    ensures Distinct(ids) ==> |IdSet(ids)| == |ids|
  {
    if ids != [] {
      var p, x := ids[..|ids| - 1], ids[|ids| - 1];
      IdSetSize(p);
      assert ids == p + [x];
      assert IdSet(ids) == IdSet(p) + {x};
    }
  }

  lemma SubsetSize<T>(a: set<T>, b: set<T>)
    requires a <= b
    ensures |a| <= |b|
    ensures |a| == |b| ==> a == b
  {
    assert b == a + (b - a);
  }

  // While an id is unanswered, the mailbox has room.
  lemma MailboxHasRoom(op: Op, id: Id)
    requires OpInv(op) && !op.isSub && Among(id, op.ids) && id !in op.answered
    ensures |op.resp.buf| < op.resp.cap
  {
    IdSetSize(op.ids);
    SubsetSize(op.answered + {id}, IdSet(op.ids));
    assert |Received(op)| + |op.resp.buf| == |op.delivered|;
  }

  // ---- Preservation ----

  lemma NewOpKeeps(r: Registry, owner: map<Id, OpId>, o: OpId, ids: seq<Id>, isSub: bool)
    requires RegInv(r, owner) && o !in r.ops && Distinct(ids) && (isSub ==> |ids| == 1)
    requires forall id :: id in ids ==> id !in owner
    ensures RegInv(r.(ops := r.ops[o := NewOp(ids, isSub)]), owner + map id | id in ids :: o)
  {
    var op := NewOp(ids, isSub);
    NewOpInv(ids, isSub);
    OneOp(r.ops, o, op);
    NewOwned(r.ops, owner, o, op);
    NewAwaits(r.ops, r.respWait, o, op);
    NewSubscribed(r.ops, r.subs, Shadowed(r.grants), o, op);
  }

  lemma NewOwned(ops: Ops, owner: map<Id, OpId>, o: OpId, op: Op)
    requires Owned(ops, owner) && o !in ops && forall id :: id in op.ids ==> id !in owner
    ensures Owned(ops[o := op], owner + map id | id in op.ids :: o)
  {
    assert forall id :: Among(id, op.ids) ==> id in op.ids;
  }

  lemma NewAwaits(ops: Ops, respWait: map<Id, OpId>, o: OpId, op: Op)
    requires Awaited(ops, respWait) && Complete(ops, respWait) && o !in ops && !Waiting(op)
    ensures Awaited(ops[o := op], respWait) && Complete(ops[o := op], respWait)
  {
    SameAwaits(ops, ops[o := op], respWait);
  }

  // Operations that wait for the same responses as before.
  lemma SameAwaits(ops: Ops, ops': Ops, respWait: map<Id, OpId>)
    requires Awaited(ops, respWait) && Complete(ops, respWait)
    requires forall o, id :: Awaits(ops', o, id) <==> Awaits(ops, o, id)
    ensures Awaited(ops', respWait) && Complete(ops', respWait)
  {
    forall id | id in respWait
      ensures Awaits(ops', respWait[id], id)
    {
      assert Awaits(ops, respWait[id], id);
    }
  }

  lemma NewSubscribed(ops: Ops, subs: map<SubId, OpId>, shadowed: set<OpId>, o: OpId, op: Op)
    requires Subscribed(ops, subs, shadowed) && o !in ops && op.starts == 0 && !op.quit
    ensures Subscribed(ops[o := op], subs, shadowed)
  {
  }

  // An operation that keeps its ids, and its subscription if it has one.
  lemma SameOwned(ops: Ops, ops': Ops, owner: map<Id, OpId>)
    requires Owned(ops, owner) && ops'.Keys == ops.Keys && forall o :: o in ops ==> ops'[o].ids == ops[o].ids
    ensures Owned(ops', owner)
  {
  }

  lemma SameSubscribed(ops: Ops, ops': Ops, subs: map<SubId, OpId>, shadowed: set<OpId>)
    requires Subscribed(ops, subs, shadowed) && ops'.Keys == ops.Keys
    requires forall o :: o in ops ==> ops'[o].starts == ops[o].starts && ops'[o].quit == ops[o].quit
    ensures Subscribed(ops', subs, shadowed)
  {
  }

  lemma NewOpInv(ids: seq<Id>, isSub: bool)
    requires Distinct(ids) && (isSub ==> |ids| == 1)
    ensures OpInv(NewOp(ids, isSub)) && !Waiting(NewOp(ids, isSub))
  {
  }

  lemma OneOp(ops: Ops, o: OpId, op: Op)
    requires AllOps(ops) && OpInv(op)
    ensures AllOps(ops[o := op])
  {
  }

  // A change of one operation that touches neither what it waits for nor its subscription.
  lemma OneOpKeeps(r: Registry, owner: map<Id, OpId>, o: OpId, op: Op)
    requires RegInv(r, owner) && o in r.ops && OpInv(op)
    requires op.ids == r.ops[o].ids && op.answered == r.ops[o].answered && (Waiting(op) <==> Waiting(r.ops[o]))
    requires op.starts == r.ops[o].starts && op.quit == r.ops[o].quit
    ensures RegInv(r.(ops := r.ops[o := op]), owner)
  {
    OneOp(r.ops, o, op);
    OneOwned(r.ops, o, op, owner);
    OneAwaits(r.ops, o, op, r.respWait);
    OneSubscribed(r.ops, o, op, r.subs, Shadowed(r.grants));
  }

  lemma OneOwned(ops: Ops, o: OpId, op: Op, owner: map<Id, OpId>)
    requires Owned(ops, owner) && o in ops && op.ids == ops[o].ids
    ensures Owned(ops[o := op], owner)
  {
    SameOwned(ops, ops[o := op], owner);
  }

  lemma OneAwaits(ops: Ops, o: OpId, op: Op, respWait: map<Id, OpId>)
    requires Awaited(ops, respWait) && Complete(ops, respWait) && o in ops
    requires op.ids == ops[o].ids && op.answered == ops[o].answered && (Waiting(op) <==> Waiting(ops[o]))
    ensures Awaited(ops[o := op], respWait) && Complete(ops[o := op], respWait)
  {
    SameAwaits(ops, ops[o := op], respWait);
  }

  lemma OneSubscribed(ops: Ops, o: OpId, op: Op, subs: map<SubId, OpId>, shadowed: set<OpId>)
    requires Subscribed(ops, subs, shadowed) && o in ops && op.starts == ops[o].starts && op.quit == ops[o].quit
    ensures Subscribed(ops[o := op], subs, shadowed)
  {
    SameSubscribed(ops, ops[o := op], subs, shadowed);
  }

  // The steps of a sender leave everything but its own position alone.
  lemma SetPcKeeps(r: Registry, owner: map<Id, OpId>, o: OpId, pc: Pc)
    requires RegInv(r, owner) && o in r.ops
    requires if r.ops[o].Accepted() then !pc.Idle? && !pc.Refused? && !r.ops[o].pc.Sent? else pc.Refused?
    ensures RegInv(SetPc(r, o, pc), owner)
  {
    assert OpInv(r.ops[o]);
    OneOpKeeps(r, owner, o, r.ops[o].(pc := pc));
  }

  lemma ReceiveKeeps(r: Registry, owner: map<Id, OpId>, o: OpId)
    requires RegInv(r, owner) && o in r.ops && CanTake(r.ops[o])
    ensures RegInv(Receive(r, o), owner)
  {
    ReceiveKeepsOp(r.ops[o]);
    OneOpKeeps(r, owner, o, Receive(r, o).ops[o]);
  }

  lemma ReturnKeeps(r: Registry, owner: map<Id, OpId>, o: OpId)
    requires RegInv(r, owner) && o in r.ops && r.ops[o].held.Some?
    ensures RegInv(Return(r, o), owner)
  {
    ReturnKeepsOp(r.ops[o]);
    OneOpKeeps(r, owner, o, Return(r, o).ops[o]);
  }

  lemma ReturnKeepsOp(op: Op)
    requires OpInv(op) && op.held.Some?
    ensures OpInv(ReturnOp(op))
  {
    assert Received(ReturnOp(op)) == Received(op);
  }

  lemma ReceiveKeepsOp(op: Op)
    requires OpInv(op) && CanTake(op)
    ensures OpInv(ReceiveOp(op))
  {
    assert Received(ReceiveOp(op)) == Received(op) + [op.resp.buf[0]];
    assert Received(op) + [op.resp.buf[0]] + op.resp.buf[1..] == Received(op) + op.resp.buf;
  }

  lemma AcceptKeeps(r: Registry, owner: map<Id, OpId>, o: OpId)
    requires RegInv(r, owner) && o in r.ops && r.ops[o].pc.Idle?
    ensures RegInv(Register(SetPc(r, o, Writing), o), owner)
  {
    var op := r.ops[o].(pc := Writing);
    AcceptKeepsOp(r.ops[o]);
    OneOp(r.ops, o, op);
    OneOwned(r.ops, o, op, owner);
    AcceptAwaits(r.ops, owner, r.respWait, o, op);
    OneSubscribed(r.ops, o, op, r.subs, Shadowed(r.grants));
  }

  lemma AcceptKeepsOp(op: Op)
    requires OpInv(op) && op.pc.Idle?
    ensures OpInv(op.(pc := Writing)) && Waiting(op.(pc := Writing)) && op.answered == {}
  {
    assert Received(op.(pc := Writing)) == Received(op) && Replies(op.(pc := Writing));
  }

  lemma RemovalKeepsOp(op: Op)
    requires OpInv(op) && op.pc.Sent? && op.pc.res.Some?
    ensures OpInv(op.(removed := true)) && !Waiting(op.(removed := true))
  {
  }

  lemma AcceptAwaits(ops: Ops, owner: map<Id, OpId>, respWait: map<Id, OpId>, o: OpId, op: Op)
    requires Owned(ops, owner) && Awaited(ops, respWait) && Complete(ops, respWait)
    requires o in ops && op.ids == ops[o].ids && op.answered == {} && Waiting(op)
    ensures Awaited(ops[o := op], respWait + map id | id in op.ids :: o)
    ensures Complete(ops[o := op], respWait + map id | id in op.ids :: o)
  {
    var ops', more := ops[o := op], map id | id in op.ids :: o;
    assert forall id :: id in more <==> Among(id, op.ids);
    forall p, id | Awaits(ops', p, id)
      ensures id in respWait + more && (respWait + more)[id] == p
    {
      OtherIds(ops, owner, p, o, id);
      assert p != o ==> Awaits(ops, p, id);
    }
    forall id | id in respWait + more
      ensures Awaits(ops', (respWait + more)[id], id)
    {
      assert id !in more ==> Awaits(ops, respWait[id], id);
    }
  }

  lemma DeregisterKeeps(r: Registry, owner: map<Id, OpId>, o: OpId)
    requires RegInv(r, owner) && o in r.ops && r.ops[o].pc.Sent? && r.ops[o].pc.res.Some?
    ensures RegInv(Deregister(r, o), owner)
  {
    var op := r.ops[o].(removed := true);
    RemovalKeepsOp(r.ops[o]);
    OneOp(r.ops, o, op);
    OneOwned(r.ops, o, op, owner);
    StopsAwaiting(r.ops, owner, r.respWait, o, op, IdSet(op.ids));
    OneSubscribed(r.ops, o, op, r.subs, Shadowed(r.grants));
  }

  lemma OtherIds(ops: Ops, owner: map<Id, OpId>, p: OpId, o: OpId, id: Id)
    requires Owned(ops, owner) && p in ops && o in ops
    ensures Among(id, ops[p].ids) && Among(id, ops[o].ids) ==> p == o
  {
    assert Among(id, ops[p].ids) ==> owner[id] == p;
    assert Among(id, ops[o].ids) ==> owner[id] == o;
  }

  // Ids that are waited for no longer leave the map.
  lemma FewerAwaits(ops: Ops, ops': Ops, respWait: map<Id, OpId>, gone: set<Id>)
    requires Awaited(ops, respWait) && Complete(ops, respWait)
    requires forall o, id :: Awaits(ops', o, id) <==> Awaits(ops, o, id) && id !in gone
    ensures Awaited(ops', respWait - gone) && Complete(ops', respWait - gone)
  {
    forall id | id in respWait - gone
      ensures Awaits(ops', respWait[id], id)
    {
      assert Awaits(ops, respWait[id], id);
    }
  }

  // An operation that no longer waits, and whose ids are gone from the map.
  lemma StopsAwaiting(ops: Ops, owner: map<Id, OpId>, respWait: map<Id, OpId>, o: OpId, op: Op, gone: set<Id>)
    requires Owned(ops, owner) && Awaited(ops, respWait) && Complete(ops, respWait)
    requires o in ops && op.ids == ops[o].ids && !Waiting(op) && gone == IdSet(op.ids)
    ensures Awaited(ops[o := op], respWait - gone) && Complete(ops[o := op], respWait - gone)
  {
    forall p, id
      ensures Awaits(ops[o := op], p, id) <==> Awaits(ops, p, id) && id !in gone
    {
      assert id in gone <==> Among(id, op.ids);
      if p in ops {
        OtherIds(ops, owner, p, o, id);
      }
    }
    FewerAwaits(ops, ops[o := op], respWait, gone);
  }

  // An operation that goes on waiting, one of its ids answered.
  lemma AwaitsLess(ops: Ops, owner: map<Id, OpId>, respWait: map<Id, OpId>, o: OpId, op: Op, id: Id)
    requires Owned(ops, owner) && Awaited(ops, respWait) && Complete(ops, respWait)
    requires o in ops && op.ids == ops[o].ids && Among(id, op.ids) && op.answered == ops[o].answered + {id}
    requires Waiting(op) && Waiting(ops[o])
    ensures Awaited(ops[o := op], respWait - {id}) && Complete(ops[o := op], respWait - {id})
  {
    forall p, x
      ensures Awaits(ops[o := op], p, x) <==> Awaits(ops, p, x) && x !in {id}
    {
      if p in ops {
        OtherIds(ops, owner, p, o, id);
      }
    }
    FewerAwaits(ops, ops[o := op], respWait, {id});
  }

  lemma ResponseKeeps(r: Registry, owner: map<Id, OpId>, id: Id, body: Body)
    requires RegInv(r, owner)
    ensures Closed(r) && RegInv(HandleResponse(r, id, body), owner)
  {
    AwaitedClosed(r);
    if id in r.respWait {
      ResponseAllOps(r, id, body);
      ResponseOwned(r, owner, id, body);
      ResponseAwaited(r, owner, id, body);
      ResponseSubscribes(r, id, body);
    }
  }

  lemma AwaitedClosed(r: Registry)
    requires Awaited(r.ops, r.respWait) && Subscribed(r.ops, r.subs, Shadowed(r.grants))
    ensures Closed(r)
  {
    forall id | id in r.respWait
      ensures r.respWait[id] in r.ops
    {
      assert Awaits(r.ops, r.respWait[id], id);
    }
  }

  lemma ResponseAllOps(r: Registry, id: Id, body: Body)
    requires AllOps(r.ops) && Awaited(r.ops, r.respWait) && Closed(r) && id in r.respWait
    ensures AllOps(HandleResponse(r, id, body).ops) && r.ops[r.respWait[id]].starts == 0
  {
    var o, r' := r.respWait[id], HandleResponse(r, id, body);
    assert Awaits(r.ops, o, id);
    ResponseChangesOne(r, id, body);
    ResponseKeepsOp(r.ops[o], id, body);
    OneOp(r.ops, o, r'.ops[o]);
  }

  lemma ResponseOwned(r: Registry, owner: map<Id, OpId>, id: Id, body: Body)
    requires Owned(r.ops, owner) && Closed(r) && id in r.respWait
    ensures Owned(HandleResponse(r, id, body).ops, owner)
  {
    ResponseChangesOne(r, id, body);
    SameOwned(r.ops, HandleResponse(r, id, body).ops, owner);
  }

  lemma ResponseAwaited(r: Registry, owner: map<Id, OpId>, id: Id, body: Body)
    requires AllOps(r.ops) && Owned(r.ops, owner) && Awaited(r.ops, r.respWait) && Complete(r.ops, r.respWait)
    requires Closed(r) && id in r.respWait
    ensures var r' := HandleResponse(r, id, body); Awaited(r'.ops, r'.respWait) && Complete(r'.ops, r'.respWait)
  {
    var o, r' := r.respWait[id], HandleResponse(r, id, body);
    assert Awaits(r.ops, o, id);
    ResponseChangesOne(r, id, body);
    ResponseKeepsOp(r.ops[o], id, body);
    ResponseAwaits(r.ops, owner, r.respWait, o, r'.ops[o], id);
  }

  // A response takes its id out of the map and changes the one operation that it is for.
  lemma ResponseChangesOne(r: Registry, id: Id, body: Body)
    requires Closed(r) && id in r.respWait
    ensures var o, r' := r.respWait[id], HandleResponse(r, id, body);
            && r'.respWait == r.respWait - {id} && o in r'.ops && r'.ops == r.ops[o := r'.ops[o]]
            && AfterResponse(r.ops[o], r'.ops[o], id, body)
  {
  }

  ghost predicate AfterResponse(op: Op, op': Op, id: Id, body: Body)
  {
    && op'.ids == op.ids && op'.isSub == op.isSub && op'.pc == op.pc && op'.removed == op.removed && op'.quit == op.quit
    && op'.held == op.held && op'.got == op.got && op'.lost == op.lost
    && op'.answered == op.answered + {id} && op'.delivered == op.delivered + [Response(id, body)]
    && op'.starts == op.starts + (if op.isSub && body.ResultBody? && body.subid.Some? then 1 else 0)
    && op'.resp == (if op.isSub then op.resp.Close() else op.resp.Send(Response(id, body)))
    && op'.err == (if !op.isSub then op.err
                   else match body
                        case ErrorBody => Some(ServerError)
                        case ResultBody(None) => Some(DecodeError)
                        case ResultBody(Some(_)) => None)
  }

  lemma ResponseAwaits(ops: Ops, owner: map<Id, OpId>, respWait: map<Id, OpId>, o: OpId, op: Op, id: Id)
    requires Owned(ops, owner) && Awaited(ops, respWait) && Complete(ops, respWait)
    requires o in ops && op.ids == ops[o].ids && op.answered == ops[o].answered + {id}
    requires Among(id, ops[o].ids) && Waiting(ops[o])
    requires if op.isSub then !Waiting(op) && |op.ids| == 1 else Waiting(op)
    ensures Awaited(ops[o := op], respWait - {id}) && Complete(ops[o := op], respWait - {id})
  {
    assert Among(id, op.ids);
    if op.isSub {
      StopsAwaiting(ops, owner, respWait, o, op, {id});
    } else {
      AwaitsLess(ops, owner, respWait, o, op, id);
    }
  }

  lemma ResponseKeepsOp(op: Op, id: Id, body: Body)
    requires OpInv(op) && Among(id, op.ids) && id !in op.answered && Waiting(op)
    ensures op.starts == 0
    ensures forall op' :: AfterResponse(op, op', id, body) ==> OpInv(op') && (op.isSub <==> !Waiting(op'))
  {
    assert Among(id, op.ids);
    if !op.isSub {
      MailboxHasRoom(op, id);
    }
    forall op' | AfterResponse(op, op', id, body)
      ensures OpInv(op') && (op.isSub <==> !Waiting(op'))
    {
      assert Replies(op') && Received(op') == Received(op);
      assert !op.isSub ==> !op'.resp.closed;
    }
  }

  lemma ResponseSubscribes(r: Registry, id: Id, body: Body)
    requires Subscribed(r.ops, r.subs, Shadowed(r.grants)) && r.subs == Active(r.grants)
    requires Closed(r) && id in r.respWait
    requires r.ops[r.respWait[id]].starts == 0
    ensures var r' := HandleResponse(r, id, body);
            Subscribed(r'.ops, r'.subs, Shadowed(r'.grants)) && r'.subs == Active(r'.grants)
  {
    var o, r' := r.respWait[id], HandleResponse(r, id, body);
    ResponseChangesOne(r, id, body);
    if r.ops[o].isSub && body.ResultBody? && body.subid.Some? {
      var x := body.subid.value;
      assert r'.grants[..|r.grants|] == r.grants;
      OneMoreSubscribed(r.ops, r.subs, Shadowed(r.grants), x, o, r'.ops[o]);
    } else {
      SameSubscribed(r.ops, r'.ops, r.subs, Shadowed(r.grants));
    }
  }

  // The server grants an id: whoever had it while it was active is shadowed from now on.
  lemma OneMoreSubscribed(ops: Ops, subs: map<SubId, OpId>, shadowed: set<OpId>, x: SubId, o: OpId, op: Op)
    requires Subscribed(ops, subs, shadowed) && o in ops && ops[o].starts == 0 && op.starts == 1 && !op.quit
    ensures Subscribed(ops[o := op], subs[x := o], shadowed + if x in subs then {subs[x]} else {})
  {
    assert subs[x := o][x] == o;
    assert o !in shadowed && forall y :: y in subs ==> subs[y] != o;
    forall p | p in ops && p in subs.Values
      ensures p in subs[x := o].Values || (x in subs && p == subs[x])
    {
      StillActive(subs, x, o, p);
    }
  }

  lemma StillActive(subs: map<SubId, OpId>, x: SubId, o: OpId, p: OpId)
    requires p in subs.Values
    ensures p in subs[x := o].Values || (x in subs && p == subs[x])
  {
    var y :| y in subs && subs[y] == p;
    assert y != x ==> subs[x := o][y] == p;
  }

  lemma CloseKeeps(r: Registry, owner: map<Id, OpId>, err: Err)
    requires RegInv(r, owner)
    ensures RegInv(CloseRequestOps(r, err), owner)
  {
    var r' := CloseRequestOps(r, err);
    CloseAllOps(r, err);
    SameOwned(r.ops, r'.ops, owner);
    CloseEmpties(r, err);
    CloseSubscribed(r, err);
  }

  lemma CloseAllOps(r: Registry, err: Err)
    requires AllOps(r.ops) && Awaited(r.ops, r.respWait)
    ensures AllOps(CloseRequestOps(r, err).ops)
  {
    forall o | o in r.ops
      ensures OpInv(CloseRequestOps(r, err).ops[o])
    {
      if o in r.respWait.Values {
        var id :| id in r.respWait && r.respWait[id] == o;
        assert Waiting(r.ops[o]) && Among(id, r.ops[o].ids);
        assert id in IdSet(r.ops[o].ids);
      }
      CloseKeepsOp(r.ops[o], o in r.respWait.Values, err, o in r.subs.Values);
    }
  }

  lemma CloseKeepsOp(op: Op, waits: bool, err: Err, active: bool)
    requires OpInv(op) && (waits ==> Waiting(op) && op.answered != IdSet(op.ids))
    ensures OpInv(CloseOp(op, waits, err, active))
  {
  }

  lemma CloseSubscribed(r: Registry, err: Err)
    requires Subscribed(r.ops, r.subs, Shadowed(r.grants))
    ensures var r' := CloseRequestOps(r, err);
            Subscribed(r'.ops, r'.subs, Shadowed(r'.grants)) && r'.subs == Active(r'.grants)
  {
    var r' := CloseRequestOps(r, err);
    assert r'.grants[..|r.grants|] == r.grants;
    AllSubscribedEnd(r.ops, r'.ops, r.subs, Shadowed(r.grants));
  }

  lemma AllSubscribedEnd(ops: Ops, ops': Ops, subs: map<SubId, OpId>, shadowed: set<OpId>)
    requires Subscribed(ops, subs, shadowed) && ops'.Keys == ops.Keys
    requires forall o :: o in ops ==>
               ops'[o].starts == ops[o].starts && ops'[o].quit == (ops[o].quit || o in subs.Values)
    ensures Subscribed(ops', map[], shadowed)
  {
    forall o | o in ops && (o in shadowed || ops[o].starts == 0)
      ensures o !in subs.Values
    {
      assert forall x :: x in subs ==> subs[x] != o;
    }
  }

  lemma CloseEmpties(r: Registry, err: Err)
    requires Complete(r.ops, r.respWait)
    ensures var r' := CloseRequestOps(r, err); Awaited(r'.ops, r'.respWait) && Complete(r'.ops, r'.respWait)
  {
    var r' := CloseRequestOps(r, err);
    forall o, id
      ensures !Awaits(r'.ops, o, id)
    {
      if o in r.ops {
        assert Awaits(r.ops, o, id) ==> r.respWait[id] == o;
      }
    }
  }

  // ---- Repeated subscription ids ----

  // The server grants o an id, and then the same id again while o is active.
  ghost predicate GrantedAgain(grants: seq<Grant>, i: int, j: int, o: OpId)
  {
    && 0 <= i < j < |grants| && grants[i].Granted? && grants[i].op == o
    && grants[j].Granted? && grants[j].subid == grants[i].subid && AllEnded !in grants[i..j]
  }

  // The last grant of the id, with no end of all subscriptions after it.
  ghost predicate LastGrant(grants: seq<Grant>, i: int, x: SubId, o: OpId)
  {
    && 0 <= i < |grants| && grants[i] == Granted(x, o)
    && forall k :: i < k < |grants| ==> grants[k] != AllEnded && (grants[k].Granted? ==> grants[k].subid != x)
  }

  lemma {:induction false} ActiveExactly(grants: seq<Grant>, x: SubId, o: OpId)
    ensures x in Active(grants) && Active(grants)[x] == o <==> exists i :: LastGrant(grants, i, x, o)
  {
    if grants != [] {
      var n := |grants| - 1;
      ActiveExactly(grants[..n], x, o);
      if grants[n] == Granted(x, o) {
        assert LastGrant(grants, n, x, o);
      } else if i :| LastGrant(grants[..n], i, x, o) {
        assert grants[n] != AllEnded && grants[n].subid != x ==> LastGrant(grants, i, x, o);
      }
      if i :| LastGrant(grants, i, x, o) {
        assert i < n ==> LastGrant(grants[..n], i, x, o);
      }
    }
  }

  lemma {:induction false} ShadowedExactly(grants: seq<Grant>, o: OpId)
    ensures o in Shadowed(grants) <==> exists i, j :: GrantedAgain(grants, i, j, o)
  {
    if grants != [] {
      var n := |grants| - 1;
      ShadowedExactly(grants[..n], o);
      if i, j :| GrantedAgain(grants[..n], i, j, o) {
        assert grants[..n][i..j] == grants[i..j];
        assert GrantedAgain(grants, i, j, o);
      }
      if grants[n].Granted? {
        var x := grants[n].subid;
        ActiveExactly(grants[..n], x, o);
        if i :| LastGrant(grants[..n], i, x, o) {
          assert GrantedAgain(grants, i, n, o);
        }
      }
      if i, j :| GrantedAgain(grants, i, j, o) {
        RepeatIsShadowed(grants, i, j, o);
      }
    }
  }

  lemma {:induction false} RepeatIsShadowed(grants: seq<Grant>, i: int, j: int, o: OpId)
    requires GrantedAgain(grants, i, j, o)
    ensures o in Shadowed(grants)
  {
    var n := |grants| - 1;
    if k :| i < k < n && k <= j && grants[k].Granted? && grants[k].subid == grants[i].subid {
      assert grants[..n][i..k] == grants[i..j][..k - i];
      RepeatIsShadowed(grants[..n], i, k, o);
    } else {
      ActiveExactly(grants[..n], grants[i].subid, o);
      assert forall k :: i < k < n ==> grants[k] == grants[i..j][k - i];
      assert LastGrant(grants[..n], i, grants[i].subid, o);
    }
  }
}
