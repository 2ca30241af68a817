// Two runs of the client of client/client.go that end badly, step by step.

module ClientRuns {
  import opened Channels
  import opened ClientModel
  import opened ClientProtocol
  import R = ClientRegistry

  // Dispatch is at its select, reads and writes on one connection, and no sender holds the lock.
  predicate Calm(s: State)
  {
    && s.loop == Select && s.reading && s.readers == map[s.conn := Reading] && s.writeConn == Some(s.conn)
    && !s.locked && s.lastOp == None && s.sendDone == Make(1)
  }

  // ---- Steps on the way ----

  ghost predicate New(s: State, o: OpId, ids: seq<Id>, isSub: bool)
  {
    o !in s.reg.ops && R.Distinct(ids) && (isSub ==> |ids| == 1) && forall id :: id in ids ==> id !in s.owner
  }

  function Made(s: State, o: OpId, ids: seq<Id>, isSub: bool): State
  {
    s.(reg := s.reg.(ops := s.reg.ops[o := NewOp(ids, isSub)]), owner := s.owner + map id | id in ids :: o)
  }

  // The request of o is registered and its sender stands at pc.
  function Sending(s: State, o: OpId, ids: seq<Id>, isSub: bool, pc: Pc): State
  {
    s.(reg := s.reg.(ops := s.reg.ops[o := NewOp(ids, isSub).(pc := pc)],
                     respWait := s.reg.respWait + map id | id in ids :: o),
       owner := s.owner + map id | id in ids :: o)
  }

  // The same with the write lock held.
  function Locked(s: State, o: OpId, ids: seq<Id>, isSub: bool, pc: Pc): State
  {
    Sending(s, o, ids, isSub, pc).(locked := true, lastOp := Some(o))
  }

  lemma Makes(s: State, o: OpId, ids: seq<Id>, isSub: bool)
    requires Reachable(s) && New(s, o, ids, isSub)
    ensures Reachable(Made(s, o, ids, isSub))
  {
    ReachableStep(s, DoNew(o, ids, isSub));
  }

  lemma Accepts(s: State, o: OpId)
    requires Reachable(s) && s.loop == Select && !s.locked && At(s, o, Idle)
    ensures Reachable(s.(reg := Register(SetPc(s.reg, o, Writing), o), locked := true, lastOp := Some(o)))
  {
    ReachableStep(s, DoAccept(o));
  }

  lemma Registers(s: State, o: OpId, ids: seq<Id>, isSub: bool)
    ensures Register(SetPc(Made(s, o, ids, isSub).reg, o, Writing), o) == Locked(s, o, ids, isSub, Writing).reg
  {
    assert Register(SetPc(Made(s, o, ids, isSub).reg, o, Writing), o).ops == Locked(s, o, ids, isSub, Writing).reg.ops;
  }

  lemma Writes(s: State, o: OpId)
    requires Reachable(s) && At(s, o, Writing) && s.writeConn.Some?
    ensures Reachable(WithPc(s, o, Wrote(None)))
  {
    ReachableStep(s, DoWrite(o, true));
  }

  lemma Completes(s: State, o: OpId)
    requires Reachable(s) && At(s, o, Wrote(None))
    ensures Reachable(WithPc(s, o, Sent(None)).(sendDone := s.sendDone.Send(None)))
  {
    ReachableStep(s, DoSendDone(o));
  }

  lemma GoesOn(s: State, o: OpId, ids: seq<Id>, isSub: bool, pc: Pc, next: Pc)
    ensures At(Locked(s, o, ids, isSub, pc), o, pc)
    ensures WithPc(Locked(s, o, ids, isSub, pc), o, next) == Locked(s, o, ids, isSub, next)
  {
    assert WithPc(Locked(s, o, ids, isSub, pc), o, next).reg.ops == Locked(s, o, ids, isSub, next).reg.ops;
  }

  lemma Unlocks(s: State, o: OpId)
    requires Reachable(s) && s.loop == Select && s.sendDone == Make(1).Send(None)
    requires s.lastOp == Some(o) && o in s.reg.ops
    ensures Reachable(s.(sendDone := Make(1), locked := false, lastOp := None))
  {
    ReachableStep(s, DoTakeDone);
    assert s.sendDone.Rest() == Make(1);
  }

  lemma Reads(s: State, c: Conn, msgs: seq<Msg>)
    requires Reachable(s) && c in s.readers && s.readers[c] == Reading
    ensures Reachable(s.(readers := s.readers[c := OfferBatch(msgs)]))
  {
    ReachableStep(s, DoRead(c, msgs));
  }

  lemma TakesBatch(s: State, c: Conn, msgs: seq<Msg>)
    requires Reachable(s) && s.loop == Select && c in s.readers && s.readers[c] == OfferBatch(msgs)
    ensures Reachable(s.(readers := s.readers[c := Reading], loop := Batch(msgs)))
  {
    ReachableStep(s, DoTakeBatch(c));
  }

  lemma Handles(s: State, id: Id, body: Body)
    requires Reachable(s) && s.loop == Batch([Response(id, body)]) && Closed(s.reg)
    ensures Reachable(s.(reg := HandleResponse(s.reg, id, body), loop := Batch([])))
  {
    assert s.loop.msgs[1..] == [];
    ReachableStep(s, DoMessage);
  }

  lemma EndsBatch(s: State)
    requires Reachable(s) && s.loop == Batch([])
    ensures Reachable(s.(loop := Select))
  {
    ReachableStep(s, DoBatchEnd);
  }

  lemma Closes(s: State)
    requires Reachable(s) && s.loop == Select && s.reading
    ensures Reachable(s.(reg := CloseRequestOps(s.reg, ClientQuit), loop := Drain))
  {
    ReachableStep(s, DoClose);
  }

  lemma FailsToRead(s: State, c: Conn)
    requires Reachable(s) && c in s.readers && s.readers[c] == Reading
    ensures Reachable(s.(readers := s.readers[c := OfferErr]))
  {
    ReachableStep(s, DoReadFail(c));
  }

  lemma Returns(s: State, c: Conn)
    requires Reachable(s) && s.loop == Drain && c in s.readers && s.readers[c] == OfferErr
    ensures Reachable(s.(readers := s.readers - {c}, loop := Quit))
  {
    ReachableStep(s, DoTakeErr(c));
  }

  lemma Receives(s: State, o: OpId)
    requires Reachable(s) && o in s.reg.ops && R.CanTake(s.reg.ops[o])
    ensures Reachable(s.(reg := Receive(s.reg, o)))
  {
    ReachableStep(s, DoReceive(o));
  }

  lemma ReturnsResponse(s: State, o: OpId)
    requires Reachable(s) && o in s.reg.ops && s.reg.ops[o].held.Some?
    ensures Reachable(s.(reg := Return(s.reg, o)))
  {
    ReachableStep(s, DoReturn(o));
  }

  // ---- Stretches ----

  // A request that is made, accepted, written and released.
  lemma SendsRequest(s: State, o: OpId, ids: seq<Id>, isSub: bool)
    requires Reachable(s) && Calm(s) && New(s, o, ids, isSub)
    ensures Reachable(Sending(s, o, ids, isSub, Sent(None)))
  {
    Makes(s, o, ids, isSub);
    Accepts(Made(s, o, ids, isSub), o);
    Registers(s, o, ids, isSub);
    GoesOn(s, o, ids, isSub, Writing, Wrote(None));
    Writes(Locked(s, o, ids, isSub, Writing), o);
    GoesOn(s, o, ids, isSub, Wrote(None), Sent(None));
    Completes(Locked(s, o, ids, isSub, Wrote(None)), o);
    Unlocks(Locked(s, o, ids, isSub, Sent(None)).(sendDone := Make(1).Send(None)), o);
  }

  // A response that is read and handled.
  lemma HandlesResponse(s: State, id: Id, body: Body)
    requires Reachable(s) && Calm(s) && Closed(s.reg)
    ensures Reachable(s.(reg := HandleResponse(s.reg, id, body)))
  {
    var batch := [Response(id, body)];
    Reads(s, s.conn, batch);
    var s1 := s.(readers := s.readers[s.conn := OfferBatch(batch)]);
    TakesBatch(s1, s.conn, batch);
    assert s1.readers[s.conn := Reading] == s.readers;
    var s2 := s.(loop := Batch(batch));
    Handles(s2, id, body);
    EndsBatch(s2.(reg := HandleResponse(s.reg, id, body), loop := Batch([])));
  }

  function Ended(s: State): State
  {
    s.(reg := CloseRequestOps(s.reg, ClientQuit), readers := map[], loop := Quit)
  }

  // The client is closed, the read loop fails and dispatch returns.
  lemma Quits(s: State)
    requires Reachable(s) && Calm(s)
    ensures Reachable(Ended(s))
  {
    Closes(s);
    var s1 := s.(reg := CloseRequestOps(s.reg, ClientQuit), loop := Drain);
    FailsToRead(s1, s.conn);
    var s2 := s1.(readers := s.readers[s.conn := OfferErr]);
    Returns(s2, s.conn);
    assert s2.readers - {s.conn} == map[];
  }

  // ---- The runs ----

  lemma InitReachable()
    ensures Reachable(Init()) && Calm(Init())
  {
    assert Runnable(Init(), []);
  }

  // The server answers two subscriptions with the same id: the first one is open when the client has quit.
  lemma RepeatedIdStaysOpen(x: SubId) returns (s: State)
    ensures Reachable(s) && s.loop.Quit? && 0 in s.reg.ops && s.reg.ops[0].starts == 1 && !s.reg.ops[0].quit
  {
    var s2 := TwoRequests();
    var body := ResultBody(Some(x));
    HandlesResponse(s2, 1, body);
    var s3 := s2.(reg := HandleResponse(s2.reg, 1, body));
    GrantsFirst(s2.reg, x);
    HandlesResponse(s3, 2, body);
    var s4 := s3.(reg := HandleResponse(s3.reg, 2, body));
    GrantsSecond(s3.reg, x);
    Quits(s4);
    s := Ended(s4);
  }

  ghost predicate Unanswered(r: Registry, o: OpId, id: Id)
  {
    o in r.ops && r.ops[o] == NewOp([id], true).(pc := Sent(None)) && id in r.respWait && r.respWait[id] == o
  }

  lemma SubscriptionSent(s: State, o: OpId, id: Id)
    requires Calm(s) && Closed(s.reg) && o !in s.reg.ops
    ensures var t := Sending(s, o, [id], true, Sent(None));
            && Calm(t) && Closed(t.reg) && Unanswered(t.reg, o, id) && t.reg.subs == s.reg.subs
            && t.reg.ops == s.reg.ops[o := t.reg.ops[o]] && t.owner == s.owner[id := o]
            && t.reg.respWait == s.reg.respWait[id := o]
  {
    assert s.owner + (map i | i in [id] :: o) == s.owner[id := o];
    assert s.reg.respWait + (map i | i in [id] :: o) == s.reg.respWait[id := o];
  }

  lemma TwoRequests() returns (s: State)
    ensures Reachable(s) && Calm(s) && Closed(s.reg) && Unanswered(s.reg, 0, 1) && Unanswered(s.reg, 1, 2)
    ensures s.reg.subs == map[]
  {
    InitReachable();
    SubscriptionSent(Init(), 0, 1);
    SendsRequest(Init(), 0, [1], true);
    var s1 := Sending(Init(), 0, [1], true, Sent(None));
    SubscriptionSent(s1, 1, 2);
    SendsRequest(s1, 1, [2], true);
    s := Sending(s1, 1, [2], true, Sent(None));
  }

  lemma GrantsFirst(r: Registry, x: SubId)
    requires Closed(r) && Unanswered(r, 0, 1) && Unanswered(r, 1, 2) && r.subs == map[]
    ensures var r' := HandleResponse(r, 1, ResultBody(Some(x)));
            && Closed(r') && Unanswered(r', 1, 2) && r'.subs == map[x := 0]
            && 0 in r'.ops && r'.ops[0].starts == 1 && !r'.ops[0].quit
  {
  }

  lemma GrantsSecond(r: Registry, x: SubId)
    requires Closed(r) && Unanswered(r, 1, 2) && r.subs == map[x := 0]
    requires 0 in r.ops && r.ops[0].starts == 1 && !r.ops[0].quit
    ensures var r' := HandleResponse(r, 2, ResultBody(Some(x)));
            r'.subs == map[x := 1] && 0 in r'.ops && r'.ops[0].starts == 1 && !r'.ops[0].quit
  {
  }

  // A batch of two receives one response, then the client is closed, and wait returns that response with the error.
  lemma CloseLosesResponse(body: Body) returns (s: State)
    ensures Reachable(s) && 0 in s.reg.ops && s.reg.ops[0].lost == Some((Response(1, body), ClientQuit))
  {
    InitReachable();
    SendsRequest(Init(), 0, [1, 2], false);
    var s1 := Sending(Init(), 0, [1, 2], false, Sent(None));
    BatchSent();
    HandlesResponse(s1, 1, body);
    var s2 := s1.(reg := HandleResponse(s1.reg, 1, body));
    FirstOfTwo(s1.reg, body);
    Receives(s2, 0);
    var s3 := s2.(reg := Receive(s2.reg, 0));
    ClosedWhileHeld(s2.reg);
    Quits(s3);
    var s4 := Ended(s3);
    ReturnsResponse(s4, 0);
    s := s4.(reg := Return(s4.reg, 0));
  }

  lemma ClosedWhileHeld(r: Registry)
    requires 0 in r.ops && R.CanTake(r.ops[0]) && 2 in r.respWait && r.respWait[2] == 0
    ensures var r' := CloseRequestOps(Receive(r, 0), ClientQuit);
            && 0 in r'.ops && r'.ops[0].held == Some(r.ops[0].resp.buf[0]) && r'.ops[0].err == Some(ClientQuit)
  {
    assert Receive(r, 0).respWait[2] == 0;
  }

  lemma BatchSent()
    ensures var s := Sending(Init(), 0, [1, 2], false, Sent(None));
            && Calm(s) && Closed(s.reg) && 0 in s.reg.ops && s.reg.ops[0] == NewOp([1, 2], false).(pc := Sent(None))
            && 1 in s.reg.respWait && s.reg.respWait[1] == 0 && 2 in s.reg.respWait && s.reg.respWait[2] == 0
  {
  }

  lemma FirstOfTwo(r: Registry, body: Body)
    requires Closed(r) && 0 in r.ops && r.ops[0] == NewOp([1, 2], false).(pc := Sent(None))
    requires 1 in r.respWait && r.respWait[1] == 0 && 2 in r.respWait && r.respWait[2] == 0
    ensures var r1 := HandleResponse(r, 1, body);
            && 0 in r1.ops && r1.ops[0].resp.buf == [Response(1, body)] && R.CanTake(r1.ops[0])
            && 2 in r1.respWait && r1.respWait[2] == 0
  {
  }
}
