// The client of client/client.go as a transition system: any number of goroutines in send and wait, the write path
// with reconnection, the dispatch loop with its nested waits, and the read loops. Every step is what one goroutine
// does between two points at which others can be seen or waited for.

module ClientProtocol {
  import opened Channels
  import opened ClientModel
  import opened ClientRegistry

  // Where the dispatch goroutine stands.
  datatype LoopPc =
    | Select                        // at the head of the loop
    | Batch(msgs: seq<Msg>)         // in the loop over a batch that was read
    | Delivering(rest: seq<Msg>)    // in deliver, waiting for a forwarder or for its end
    | AwaitErr(next: Conn)          // took a new connection, waits for the old read loop
    | Drain                         // quitting, waits for the read loop
    | Quit                          // returned; didQuit is closed

  datatype ReaderPc = Reading | OfferBatch(msgs: seq<Msg>) | OfferErr

  datatype Offer = Offer(subid: SubId, op: OpId, result: int)

  datatype State = State(
    reg: Registry, owner: map<Id, OpId>,
    sendDone: Chan<Option<Err>>, writeConn: Option<Conn>, nextConn: Conn,
    locked: bool, lastOp: Option<OpId>, reading: bool, conn: Conn,
    readers: map<Conn, ReaderPc>, loop: LoopPc, offers: seq<Offer>)

  // locked says that requestOpLock is nil; offers records what dispatch has called deliver with.
  function Init(): State
  {
    State(Registry(map[], map[], map[], []), map[], Make(1), Some(0), 1, false, None, true, 0, map[0 := Reading],
          Select, [])
  }

  datatype Action =
    // a caller makes an operation and, in send, is accepted or gives up
    | DoNew(o: OpId, ids: seq<Id>, isSub: bool)
    | DoAccept(o: OpId)
    | DoRefuse(o: OpId)
    // the accepted sender dials, hands the connection to dispatch, writes, and releases the lock
    | DoRedial(o: OpId, ok: bool)
    | DoHandOver(o: OpId)
    | DoAbandon(o: OpId)
    | DoWrite(o: OpId, ok: bool)
    | DoSendDone(o: OpId)
    | DoTakeDone
    // read loops
    | DoRead(c: Conn, msgs: seq<Msg>)
    | DoReadFail(c: Conn)
    | DoTakeBatch(c: Conn)
    | DoTakeErr(c: Conn)
    // dispatch inside a batch
    | DoMessage
    | DoDelivered
    | DoBatchEnd
    // a caller in wait receives a response, and returns it with the error of the operation; Close
    | DoReceive(o: OpId)
    | DoReturn(o: OpId)
    | DoClose

  predicate At(s: State, o: OpId, pc: Pc)
  {
    o in s.reg.ops && s.reg.ops[o].pc == pc
  }

  ghost predicate Enabled(s: State, a: Action)
  {
    match a
    case DoNew(o, ids, isSub) =>
      o !in s.reg.ops && Distinct(ids) && (isSub ==> |ids| == 1) && forall id :: id in ids ==> id !in s.owner
    case DoAccept(o) => s.loop == Select && !s.locked && At(s, o, Idle)
    case DoRefuse(o) => At(s, o, Idle)
    case DoRedial(o, _) => At(s, o, Writing) && s.writeConn.None?
    case DoHandOver(o) => s.loop == Select && o in s.reg.ops && s.reg.ops[o].pc.Redialed?
    case DoAbandon(o) => s.loop == Quit && o in s.reg.ops && s.reg.ops[o].pc.Redialed?
    case DoWrite(o, _) => At(s, o, Writing) && s.writeConn.Some?
    case DoSendDone(o) => o in s.reg.ops && s.reg.ops[o].pc.Wrote?
    case DoTakeDone => s.loop == Select && s.sendDone.buf != [] && s.lastOp.Some? && s.lastOp.value in s.reg.ops
    case DoRead(c, _) => c in s.readers && s.readers[c] == Reading
    case DoReadFail(c) => c in s.readers && s.readers[c] == Reading
    case DoTakeBatch(c) => (s.loop == Select || s.loop == Drain) && c in s.readers && s.readers[c].OfferBatch?
    case DoTakeErr(c) =>
      (s.loop == Select || s.loop == Drain || s.loop.AwaitErr?) && c in s.readers && s.readers[c] == OfferErr
    case DoMessage => s.loop.Batch? && s.loop.msgs != [] && Closed(s.reg)
    case DoDelivered => s.loop.Delivering?
    case DoBatchEnd => s.loop == Batch([])
    case DoReceive(o) => o in s.reg.ops && CanTake(s.reg.ops[o])
    case DoReturn(o) => o in s.reg.ops && s.reg.ops[o].held.Some?
    case DoClose => s.loop == Select
  }

  function WithPc(s: State, o: OpId, pc: Pc): State
    requires o in s.reg.ops
  {
    s.(reg := SetPc(s.reg, o, pc))
  }

  ghost function Apply(s: State, a: Action): State
    requires Enabled(s, a)
  {
    match a
    case DoNew(o, ids, isSub) =>
      s.(reg := s.reg.(ops := s.reg.ops[o := NewOp(ids, isSub)]), owner := s.owner + map id | id in ids :: o)
    case DoAccept(o) => s.(reg := Register(SetPc(s.reg, o, Writing), o), locked := true, lastOp := Some(o))
    case DoRefuse(o) => WithPc(s, o, Refused)
    case DoRedial(o, ok) =>
      if ok then WithPc(s, o, Redialed(s.nextConn)).(nextConn := s.nextConn + 1)
      else WithPc(s, o, Wrote(Some(DialError)))
    case DoHandOver(o) =>
      var c := s.reg.ops[o].pc.conn;
      var s' := WithPc(s, o, Writing).(writeConn := Some(c));
      if s.reading then s'.(loop := AwaitErr(c))
      else s'.(readers := s.readers[c := Reading], reading := true, conn := c)
    case DoAbandon(o) => WithPc(s, o, Wrote(Some(ClientQuit)))
    case DoWrite(o, ok) =>
      if ok then WithPc(s, o, Wrote(None)) else WithPc(s, o, Wrote(Some(WriteError))).(writeConn := None)
    case DoSendDone(o) =>
      var res := s.reg.ops[o].pc.res;
      WithPc(s, o, Sent(res)).(sendDone := s.sendDone.Send(res))
    case DoTakeDone =>
      s.(reg := if s.sendDone.buf[0].Some? then Deregister(s.reg, s.lastOp.value) else s.reg,
         sendDone := s.sendDone.Rest(), locked := false, lastOp := None)
    case DoRead(c, msgs) => s.(readers := s.readers[c := OfferBatch(msgs)])
    case DoReadFail(c) => s.(readers := s.readers[c := OfferErr])
    case DoTakeBatch(c) =>
      s.(readers := s.readers[c := Reading], loop := if s.loop == Select then Batch(s.readers[c].msgs) else Drain)
    case DoTakeErr(c) =>
      var s' := s.(readers := s.readers - {c});
      (match s.loop
       case AwaitErr(next) => s'.(readers := s'.readers[next := Reading], reading := true, conn := next, loop := Select)
       case Drain => s'.(loop := Quit)
       case _ => s'.(reg := CloseRequestOps(s.reg, ReadError), reading := false))
    case DoMessage =>
      var m, rest := s.loop.msgs[0], s.loop.msgs[1..];
      (match m
       case Response(id, body) => s.(reg := HandleResponse(s.reg, id, body), loop := Batch(rest))
       case Notification(Some(x), result) =>
         if x in s.reg.subs then s.(loop := Delivering(rest), offers := s.offers + [Offer(x, s.reg.subs[x], result)])
         else s.(loop := Batch(rest))
       case _ => s.(loop := Batch(rest)))
    case DoDelivered => s.(loop := Batch(s.loop.rest))
    case DoBatchEnd => s.(loop := Select)
    case DoReceive(o) => s.(reg := Receive(s.reg, o))
    case DoReturn(o) => s.(reg := Return(s.reg, o))
    case DoClose => s.(reg := CloseRequestOps(s.reg, ClientQuit), loop := if s.reading then Drain else Quit)
  }

  // ---- The write lock ----

  // Between acceptance on requestOp and the send on sendDone.
  predicate Critical(op: Op)
  {
    op.pc.Writing? || op.pc.Redialed? || op.pc.Wrote?
  }

  ghost predicate LockInv(s: State)
  {
    && (s.locked <==> s.lastOp.Some?)
    && s.sendDone.cap == 1 && !s.sendDone.closed && !s.sendDone.fault && |s.sendDone.buf| <= 1
    && (forall o :: o in s.reg.ops && Critical(s.reg.ops[o]) ==> s.lastOp == Some(o) && s.sendDone.buf == [])
    && (s.lastOp.Some? ==> s.lastOp.value in s.reg.ops)
    && (s.lastOp.Some? && s.sendDone.buf == [] ==> Critical(s.reg.ops[s.lastOp.value]))
    && (s.sendDone.buf != [] ==> s.lastOp.Some? && s.reg.ops[s.lastOp.value].pc == Sent(s.sendDone.buf[0]))
  }

  // ---- The read loops ----

  predicate Running(s: State)
  {
    s.loop.Select? || s.loop.Batch? || s.loop.Delivering?
  }

  ghost predicate ReaderInv(s: State)
  {
    && s.conn < s.nextConn
    // One read loop on the current connection, or none.
    && (Running(s) ==> s.readers.Keys == if s.reading then {s.conn} else {})
    && (s.loop.AwaitErr? ==>
          s.reading && s.readers.Keys == {s.conn} && s.loop.next < s.nextConn && s.loop.next != s.conn)
    && (s.loop.Drain? ==> s.readers.Keys == {s.conn})
    && (s.loop.Quit? ==> s.readers == map[])
    // A connection that is being handed over is new to everyone.
    && (forall o :: o in s.reg.ops && s.reg.ops[o].pc.Redialed? ==>
          s.writeConn == None && s.reg.ops[o].pc.conn < s.nextConn && s.reg.ops[o].pc.conn != s.conn
          && !(s.loop.AwaitErr? && s.loop.next == s.reg.ops[o].pc.conn))
    // Requests are written to the connection that responses are read from, or are about to be.
    && (s.writeConn.Some? ==> s.writeConn.value == if s.loop.AwaitErr? then s.loop.next else s.conn)
    && (s.loop.Drain? || s.loop.Quit? ==> s.reg.respWait == map[] && s.reg.subs == map[])
  }

  ghost predicate Inv(s: State)
  {
    RegInv(s.reg, s.owner) && LockInv(s) && ReaderInv(s)
  }

  lemma InitInv()
    ensures Inv(Init())
  {
  }

  // ---- Every step keeps the registry's invariant ----

  predicate SenderStep(a: Action)
  {
    a.DoRefuse? || a.DoRedial? || a.DoHandOver? || a.DoAbandon? || a.DoWrite? || a.DoSendDone?
  }

  predicate CallerStep(a: Action)
  {
    a.DoNew? || a.DoAccept? || a.DoReceive? || a.DoReturn?
  }

  // The dispatch loop takes a write completion, or goes on in a batch.
  predicate LoopStep(a: Action)
  {
    a.DoTakeDone? || a.DoDelivered? || a.DoBatchEnd?
  }

  predicate ReaderStep(a: Action)
  {
    a.DoRead? || a.DoReadFail? || a.DoTakeBatch? || a.DoTakeErr? || a.DoClose?
  }

  lemma KindsOfSteps(a: Action)
    ensures SenderStep(a) || CallerStep(a) || LoopStep(a) || ReaderStep(a) || a == DoMessage
  {
  }

  // Where a step of the sender takes it.
  function NextPc(s: State, a: Action): Pc
    requires SenderStep(a) && a.o in s.reg.ops && (a.DoSendDone? ==> s.reg.ops[a.o].pc.Wrote?)
  {
    match a
    case DoRefuse(_) => Refused
    case DoRedial(_, ok) => if ok then Redialed(s.nextConn) else Wrote(Some(DialError))
    case DoHandOver(_) => Writing
    case DoAbandon(_) => Wrote(Some(ClientQuit))
    case DoWrite(_, ok) => Wrote(if ok then None else Some(WriteError))
    case DoSendDone(o) => Sent(s.reg.ops[o].pc.res)
  }

  predicate SenderAllowed(s: State, a: Action)
    requires SenderStep(a)
  {
    && a.o in s.reg.ops && (a.DoSendDone? ==> s.reg.ops[a.o].pc.Wrote?)
    && if a.DoRefuse? then s.reg.ops[a.o].pc == Idle else Critical(s.reg.ops[a.o])
  }

  lemma SenderStepAllowed(s: State, a: Action)
    requires Enabled(s, a) && SenderStep(a)
    ensures SenderAllowed(s, a)
  {
  }

  lemma SenderStepMoves(s: State, a: Action)
    requires Enabled(s, a) && SenderStep(a)
    ensures SenderAllowed(s, a)
    ensures Apply(s, a).reg == SetPc(s.reg, a.o, NextPc(s, a)) && Apply(s, a).owner == s.owner
  {
    SenderStepAllowed(s, a);
    match a
    case DoRefuse(_) =>
    case DoRedial(_, _) =>
    case DoHandOver(_) =>
    case DoAbandon(_) =>
    case DoWrite(_, _) =>
    case DoSendDone(_) =>
  }

  lemma SenderKeepsReg(s: State, a: Action)
    requires RegInv(s.reg, s.owner) && Enabled(s, a) && SenderStep(a)
    ensures RegInv(Apply(s, a).reg, Apply(s, a).owner)
  {
    SenderStepMoves(s, a);
    SetPcKeeps(s.reg, s.owner, a.o, NextPc(s, a));
  }

  lemma TakeDoneKeepsReg(s: State)
    requires RegInv(s.reg, s.owner) && LockInv(s) && Enabled(s, DoTakeDone)
    ensures RegInv(Apply(s, DoTakeDone).reg, s.owner)
  {
    if s.sendDone.buf[0].Some? {
      DeregisterKeeps(s.reg, s.owner, s.lastOp.value);
    }
  }

  // A message changes the registry only as handleResponse does, and the loop goes on in its batch.
  lemma MessageEffect(s: State)
    requires Enabled(s, DoMessage)
    ensures var s', m := Apply(s, DoMessage), s.loop.msgs[0];
            && s' == s.(reg := s'.reg, loop := s'.loop, offers := s'.offers) && (s'.loop.Batch? || s'.loop.Delivering?)
            && s'.reg == (if m.Response? then HandleResponse(s.reg, m.id, m.body) else s.reg)
  {
  }

  lemma MessageKeepsReg(s: State)
    requires RegInv(s.reg, s.owner) && Enabled(s, DoMessage)
    ensures RegInv(Apply(s, DoMessage).reg, Apply(s, DoMessage).owner)
  {
    MessageEffect(s);
    var m := s.loop.msgs[0];
    if m.Response? {
      ResponseKeeps(s.reg, s.owner, m.id, m.body);
    }
  }

  // The error that closes all operations, if the step closes them.
  function Closes(s: State, a: Action): Option<Err>
  {
    if a.DoClose? then Some(ClientQuit)
    else if a.DoTakeErr? && s.loop == Select then Some(ReadError)
    else None
  }

  lemma ReaderStepReg(s: State, a: Action)
    requires Enabled(s, a) && ReaderStep(a)
    ensures var e := Closes(s, a);
            Apply(s, a).reg == (if e.Some? then CloseRequestOps(s.reg, e.value) else s.reg)
    ensures Apply(s, a).owner == s.owner
  {
  }

  lemma CallerKeepsReg(s: State, a: Action)
    requires RegInv(s.reg, s.owner) && Enabled(s, a) && CallerStep(a)
    ensures RegInv(Apply(s, a).reg, Apply(s, a).owner)
  {
    match a
    case DoNew(o, ids, isSub) => NewOpKeeps(s.reg, s.owner, o, ids, isSub);
    case DoAccept(o) => AcceptKeeps(s.reg, s.owner, o);
    case DoReceive(o) => ReceiveKeeps(s.reg, s.owner, o);
    case DoReturn(o) => ReturnKeeps(s.reg, s.owner, o);
  }

  lemma ReaderKeepsReg(s: State, a: Action)
    requires RegInv(s.reg, s.owner) && Enabled(s, a) && ReaderStep(a)
    ensures RegInv(Apply(s, a).reg, Apply(s, a).owner)
  {
    ReaderStepReg(s, a);
    var e := Closes(s, a);
    if e.Some? {
      CloseKeeps(s.reg, s.owner, e.value);
    }
  }

  lemma LoopKeepsReg(s: State, a: Action)
    requires RegInv(s.reg, s.owner) && LockInv(s) && Enabled(s, a) && LoopStep(a)
    ensures RegInv(Apply(s, a).reg, Apply(s, a).owner)
  {
    match a
    case DoTakeDone => TakeDoneKeepsReg(s);
    case DoDelivered =>
    case DoBatchEnd =>
  }

  lemma StepKeepsReg(s: State, a: Action)
    requires RegInv(s.reg, s.owner) && LockInv(s) && Enabled(s, a)
    ensures RegInv(Apply(s, a).reg, Apply(s, a).owner)
  {
    KindsOfSteps(a);
    if SenderStep(a) {
      SenderKeepsReg(s, a);
    } else if CallerStep(a) {
      CallerKeepsReg(s, a);
    } else if LoopStep(a) {
      LoopKeepsReg(s, a);
    } else if a.DoMessage? {
      MessageKeepsReg(s);
    } else {
      ReaderKeepsReg(s, a);
    }
  }

  // ---- Every step keeps the write lock's invariant ----

  // Handling responses, closing and receiving leave every sender where it is.
  ghost predicate SamePcs(r: Registry, r': Registry)
  {
    r'.ops.Keys == r.ops.Keys && forall o :: o in r.ops ==> r'.ops[o].pc == r.ops[o].pc
  }

  lemma MessageSamePcs(s: State)
    requires Enabled(s, DoMessage)
    ensures SamePcs(s.reg, Apply(s, DoMessage).reg)
  {
    MessageEffect(s);
    var m := s.loop.msgs[0];
    if m.Response? && m.id in s.reg.respWait {
      ResponseChangesOne(s.reg, m.id, m.body);
    }
  }

  lemma ReaderSamePcs(s: State, a: Action)
    requires Enabled(s, a) && ReaderStep(a)
    ensures SamePcs(s.reg, Apply(s, a).reg)
  {
    ReaderStepReg(s, a);
  }

  lemma SenderKeepsLock(s: State, a: Action)
    requires LockInv(s) && Enabled(s, a) && SenderStep(a)
    ensures LockInv(Apply(s, a))
  {
    SenderStepMoves(s, a);
    SenderSignals(s, a);
    MoveKeepsLock(s, Apply(s, a), a.o, NextPc(s, a));
  }

  // A sender leaves the lock's variables alone, but for the completion that it sends at its end.
  lemma SenderSignals(s: State, a: Action)
    requires Enabled(s, a) && SenderStep(a) && SenderAllowed(s, a)
    ensures var s', pc := Apply(s, a), NextPc(s, a);
            && s'.locked == s.locked && s'.lastOp == s.lastOp
            && s'.sendDone == (if pc.Sent? then s.sendDone.Send(pc.res) else s.sendDone)
            && (pc.Refused? || pc.Sent? || Critical(s.reg.ops[a.o].(pc := pc)))
            && (pc.Refused? <==> a.DoRefuse?)
  {
    match a
    case DoRefuse(_) =>
    case DoRedial(_, _) =>
    case DoHandOver(_) =>
    case DoAbandon(_) =>
    case DoWrite(_, _) =>
    case DoSendDone(_) =>
  }

  lemma MoveKeepsLock(s: State, s': State, o: OpId, pc: Pc)
    requires LockInv(s) && o in s.reg.ops && s'.reg == SetPc(s.reg, o, pc)
    requires s'.locked == s.locked && s'.lastOp == s.lastOp
    requires s'.sendDone == if pc.Sent? then s.sendDone.Send(pc.res) else s.sendDone
    requires if pc.Refused? then s.reg.ops[o].pc == Idle else Critical(s.reg.ops[o])
    requires pc.Refused? || pc.Sent? || Critical(s.reg.ops[o].(pc := pc))
    ensures LockInv(s')
  {
  }

  lemma CallerKeepsLock(s: State, a: Action)
    requires LockInv(s) && Enabled(s, a) && CallerStep(a)
    ensures LockInv(Apply(s, a))
  {
    match a
    case DoNew(o, ids, isSub) => NewKeepsLock(s, o, ids, isSub);
    case DoAccept(o) => AcceptKeepsLock(s, o);
    case DoReceive(o) => ReceiveKeepsLock(s, o);
    case DoReturn(o) => ReturnKeepsLock(s, o);
  }

  lemma NewKeepsLock(s: State, o: OpId, ids: seq<Id>, isSub: bool)
    requires LockInv(s) && Enabled(s, DoNew(o, ids, isSub))
    ensures LockInv(Apply(s, DoNew(o, ids, isSub)))
  {
  }

  lemma AcceptKeepsLock(s: State, o: OpId)
    requires LockInv(s) && Enabled(s, DoAccept(o))
    ensures LockInv(Apply(s, DoAccept(o)))
  {
  }

  lemma ReturnKeepsLock(s: State, o: OpId)
    requires LockInv(s) && Enabled(s, DoReturn(o))
    ensures LockInv(Apply(s, DoReturn(o)))
  {
  }

  lemma ReceiveKeepsLock(s: State, o: OpId)
    requires LockInv(s) && Enabled(s, DoReceive(o))
    ensures LockInv(Apply(s, DoReceive(o)))
  {
  }

  lemma LoopKeepsLock(s: State, a: Action)
    requires LockInv(s) && Enabled(s, a) && LoopStep(a)
    ensures LockInv(Apply(s, a))
  {
    match a
    case DoTakeDone =>
    case DoDelivered =>
    case DoBatchEnd =>
  }

  lemma MessageKeepsLock(s: State)
    requires LockInv(s) && Enabled(s, DoMessage)
    ensures LockInv(Apply(s, DoMessage))
  {
    MessageEffect(s);
    MessageSamePcs(s);
  }

  lemma ReaderKeepsLock(s: State, a: Action)
    requires LockInv(s) && Enabled(s, a) && ReaderStep(a)
    ensures LockInv(Apply(s, a))
  {
    ReaderSamePcs(s, a);
  }

  lemma StepKeepsLock(s: State, a: Action)
    requires LockInv(s) && Enabled(s, a)
    ensures LockInv(Apply(s, a))
  {
    KindsOfSteps(a);
    if SenderStep(a) {
      SenderKeepsLock(s, a);
    } else if CallerStep(a) {
      CallerKeepsLock(s, a);
    } else if LoopStep(a) {
      LoopKeepsLock(s, a);
    } else if a.DoMessage? {
      MessageKeepsLock(s);
    } else {
      ReaderKeepsLock(s, a);
    }
  }

  // ---- Every step keeps the read loops' invariant ----

  lemma HandOverKeepsReaders(s: State, o: OpId)
    requires LockInv(s) && ReaderInv(s) && Enabled(s, DoHandOver(o))
    ensures ReaderInv(Apply(s, DoHandOver(o)))
  {
    var s' := Apply(s, DoHandOver(o));
    SenderStepMoves(s, DoHandOver(o));
    assert forall p :: p in s'.reg.ops && s'.reg.ops[p].pc.Redialed? ==> p != o && Critical(s.reg.ops[p]);
  }

  lemma RedialKeepsReaders(s: State, o: OpId, ok: bool)
    requires LockInv(s) && ReaderInv(s) && Enabled(s, DoRedial(o, ok))
    ensures ReaderInv(Apply(s, DoRedial(o, ok)))
  {
    var s' := Apply(s, DoRedial(o, ok));
    assert forall p :: p in s'.reg.ops && s'.reg.ops[p].pc.Redialed? && p != o ==> Critical(s.reg.ops[p]);
  }

  lemma WriterKeepsReaders(s: State, a: Action)
    requires LockInv(s) && ReaderInv(s) && Enabled(s, a) && (a.DoRefuse? || a.DoAbandon? || a.DoWrite? || a.DoSendDone?)
    ensures ReaderInv(Apply(s, a))
  {
    SenderStepMoves(s, a);
    match a
    case DoRefuse(_) =>
    case DoAbandon(_) =>
    case DoWrite(_, _) =>
    case DoSendDone(_) =>
  }

  lemma SenderKeepsReaders(s: State, a: Action)
    requires LockInv(s) && ReaderInv(s) && Enabled(s, a) && SenderStep(a)
    ensures ReaderInv(Apply(s, a))
  {
    if a.DoHandOver? {
      HandOverKeepsReaders(s, a.o);
    } else if a.DoRedial? {
      RedialKeepsReaders(s, a.o, a.ok);
    } else {
      WriterKeepsReaders(s, a);
    }
  }

  lemma CallerKeepsReaders(s: State, a: Action)
    requires ReaderInv(s) && Enabled(s, a) && CallerStep(a)
    ensures ReaderInv(Apply(s, a))
  {
    match a
    case DoNew(o, ids, isSub) => NewKeepsReaders(s, o, ids, isSub);
    case DoAccept(o) => AcceptKeepsReaders(s, o);
    case DoReceive(o) => ReceiveKeepsReaders(s, o);
    case DoReturn(o) => ReturnKeepsReaders(s, o);
  }

  lemma NewKeepsReaders(s: State, o: OpId, ids: seq<Id>, isSub: bool)
    requires ReaderInv(s) && Enabled(s, DoNew(o, ids, isSub))
    ensures ReaderInv(Apply(s, DoNew(o, ids, isSub)))
  {
  }

  lemma AcceptKeepsReaders(s: State, o: OpId)
    requires ReaderInv(s) && Enabled(s, DoAccept(o))
    ensures ReaderInv(Apply(s, DoAccept(o)))
  {
  }

  lemma ReceiveKeepsReaders(s: State, o: OpId)
    requires ReaderInv(s) && Enabled(s, DoReceive(o))
    ensures ReaderInv(Apply(s, DoReceive(o)))
  {
  }

  lemma ReturnKeepsReaders(s: State, o: OpId)
    requires ReaderInv(s) && Enabled(s, DoReturn(o))
    ensures ReaderInv(Apply(s, DoReturn(o)))
  {
  }

  lemma LoopKeepsReaders(s: State, a: Action)
    requires ReaderInv(s) && Enabled(s, a) && LoopStep(a)
    ensures ReaderInv(Apply(s, a))
  {
    match a
    case DoTakeDone =>
    case DoDelivered =>
    case DoBatchEnd =>
  }

  lemma MessageKeepsReaders(s: State)
    requires ReaderInv(s) && Enabled(s, DoMessage)
    ensures ReaderInv(Apply(s, DoMessage))
  {
    MessageEffect(s);
    MessageSamePcs(s);
  }

  lemma ReaderKeepsReaders(s: State, a: Action)
    requires ReaderInv(s) && Enabled(s, a) && ReaderStep(a)
    ensures ReaderInv(Apply(s, a))
  {
    ReaderSamePcs(s, a);
  }

  lemma StepKeepsReaders(s: State, a: Action)
    requires LockInv(s) && ReaderInv(s) && Enabled(s, a)
    ensures ReaderInv(Apply(s, a))
  {
    KindsOfSteps(a);
    if SenderStep(a) {
      SenderKeepsReaders(s, a);
    } else if CallerStep(a) {
      CallerKeepsReaders(s, a);
    } else if LoopStep(a) {
      LoopKeepsReaders(s, a);
    } else if a.DoMessage? {
      MessageKeepsReaders(s);
    } else {
      ReaderKeepsReaders(s, a);
    }
  }

  lemma StepKeeps(s: State, a: Action)
    requires Inv(s) && Enabled(s, a)
    ensures Inv(Apply(s, a))
  {
    StepKeepsReg(s, a);
    StepKeepsLock(s, a);
    StepKeepsReaders(s, a);
  }

  // ---- Runs ----

  ghost predicate Runnable(s: State, acts: seq<Action>)
    decreases |acts|
  {
    acts == [] || (Enabled(s, acts[0]) && Runnable(Apply(s, acts[0]), acts[1..]))
  }

  ghost function Run(s: State, acts: seq<Action>): State
    requires Runnable(s, acts)
    decreases |acts|
  {
    if acts == [] then s else Run(Apply(s, acts[0]), acts[1..])
  }

  lemma {:induction false} RunKeeps(s: State, acts: seq<Action>)
    requires Inv(s) && Runnable(s, acts)
    ensures Inv(Run(s, acts))
    decreases |acts|
  {
    if acts != [] {
      StepKeeps(s, acts[0]);
      RunKeeps(Apply(s, acts[0]), acts[1..]);
    }
  }

  // The states that the client can be in.
  ghost predicate Reachable(s: State)
  {
    exists acts :: Runnable(Init(), acts) && Run(Init(), acts) == s
  }

  lemma ReachableInv(s: State)
    requires Reachable(s)
    ensures Inv(s)
  {
    InitInv();
    var acts :| Runnable(Init(), acts) && Run(Init(), acts) == s;
    RunKeeps(Init(), acts);
  }

  lemma {:induction false} RunThenStep(s: State, acts: seq<Action>, a: Action)
    requires Runnable(s, acts) && Enabled(Run(s, acts), a)
    ensures Runnable(s, acts + [a]) && Run(s, acts + [a]) == Apply(Run(s, acts), a)
    decreases |acts|
  {
    if acts == [] {
      assert ([] + [a])[1..] == [];
      assert Runnable(Apply(s, a), []);
    } else {
      assert (acts + [a])[1..] == acts[1..] + [a];
      RunThenStep(Apply(s, acts[0]), acts[1..], a);
    }
  }

  lemma ReachableStep(s: State, a: Action)
    requires Reachable(s) && Enabled(s, a)
    ensures Reachable(Apply(s, a))
  {
    var acts :| Runnable(Init(), acts) && Run(Init(), acts) == s;
    RunThenStep(Init(), acts, a);
  }

  // ---- What this means for the client ----

  function Pending(r: Registry, o: OpId): set<Id>
  {
    set id | id in r.respWait && r.respWait[id] == o
  }

  // An accepted operation that is neither closed nor deregistered is accounted for id by id: each has been answered
  // or is waited for, and not both.
  lemma EveryIdAccounted(s: State, o: OpId)
    requires Reachable(s) && o in s.reg.ops && Waiting(s.reg.ops[o])
    ensures s.reg.ops[o].answered + Pending(s.reg, o) == IdSet(s.reg.ops[o].ids)
    ensures s.reg.ops[o].answered * Pending(s.reg, o) == {}
  {
    ReachableInv(s);
    Accounted(s.reg, o);
  }

  lemma Accounted(r: Registry, o: OpId)
    requires Awaited(r.ops, r.respWait) && Complete(r.ops, r.respWait) && o in r.ops && Waiting(r.ops[o])
    requires r.ops[o].answered <= IdSet(r.ops[o].ids)
    ensures r.ops[o].answered + Pending(r, o) == IdSet(r.ops[o].ids) && r.ops[o].answered * Pending(r, o) == {}
  {
    forall id
      ensures id in Pending(r, o) <==> id in IdSet(r.ops[o].ids) && id !in r.ops[o].answered
    {
      assert id in IdSet(r.ops[o].ids) <==> Among(id, r.ops[o].ids);
      assert Awaits(r.ops, o, id) ==> id in Pending(r, o);
      assert id in Pending(r, o) ==> Awaits(r.ops, r.respWait[id], id);
    }
  }

  // Once the client has quit, every accepted operation is resolved: fully answered, closed with an error (a
  // subscription possibly by its response), or reported as failed by send.
  lemma ResolvedAfterQuit(s: State, o: OpId)
    requires Reachable(s) && s.loop.Quit? && o in s.reg.ops && s.reg.ops[o].Accepted()
    ensures var op := s.reg.ops[o];
            || op.answered == IdSet(op.ids)
            || (op.resp.closed && op.err.Some?)
            || (op.removed && op.pc.Sent? && op.pc.res.Some?)
  {
    ReachableInv(s);
    var op := s.reg.ops[o];
    if Waiting(op) {
      EveryIdAccounted(s, o);
    } else if op.resp.closed && op.err.None? {
      assert op.ids == [op.ids[0]] && op.answered <= {op.ids[0]};
    }
  }

  // No caller waits for ever: after the quit, a caller whose request was sent and who has not got all its responses
  // is about to return one, or has one in its mailbox, or finds the mailbox closed.
  lemma WaitersWake(s: State, o: OpId)
    requires Reachable(s) && s.loop.Quit? && o in s.reg.ops && s.reg.ops[o].pc == Sent(None)
    requires |s.reg.ops[o].got| < |s.reg.ops[o].ids|
    ensures s.reg.ops[o].held.Some? || s.reg.ops[o].resp.CanReceive()
  {
    ResolvedAfterQuit(s, o);
    ReachableInv(s);
    var op := s.reg.ops[o];
    IdSetSize(op.ids);
    assert op.answered == IdSet(op.ids) && !op.isSub ==>
             |Received(op)| + |op.resp.buf| == |op.delivered| == |op.ids|;
    assert op.answered == IdSet(op.ids) && op.isSub ==> op.ids[0] in op.answered;
  }

  // No send on a mailbox or on sendDone ever blocks or hits a closed channel, nothing is closed twice, no forwarder
  // is started twice, and dispatch gets through every batch.
  lemma ChannelsSafe(s: State, o: OpId)
    requires Reachable(s) && o in s.reg.ops
    ensures !s.reg.ops[o].resp.fault && !s.sendDone.fault && s.reg.ops[o].starts <= 1
    ensures s.loop.Batch? && s.loop.msgs != [] ==> Enabled(s, DoMessage)
  {
    ReachableInv(s);
  }

  // A closed mailbox is only ever drained: nothing is sent to it or closed on it again.
  lemma ClosedStaysQuiet(s: State, a: Action, o: OpId)
    requires Reachable(s) && Enabled(s, a) && o in s.reg.ops && s.reg.ops[o].resp.closed
    ensures o in Apply(s, a).reg.ops
    ensures Apply(s, a).reg.ops[o].resp == s.reg.ops[o].resp || Apply(s, a).reg.ops[o].resp == s.reg.ops[o].resp.Rest()
  {
    ReachableInv(s);
    QuietStep(s, a, o);
  }

  // Nothing happens to a mailbox but receives, and none without an error if the operation has one.
  ghost predicate Drained(op: Op, op': Op)
  {
    && (op'.resp == op.resp || op'.resp == op.resp.Rest())
    && (op.err.Some? || op.held.None? ==> op'.got == op.got)
  }

  lemma QuietStep(s: State, a: Action, o: OpId)
    requires Awaited(s.reg.ops, s.reg.respWait) && Enabled(s, a) && o in s.reg.ops && !Waiting(s.reg.ops[o])
    ensures o in Apply(s, a).reg.ops
    ensures Drained(s.reg.ops[o], Apply(s, a).reg.ops[o])
  {
    KindsOfSteps(a);
    if SenderStep(a) {
      SenderStepMoves(s, a);
    } else if a == DoMessage {
      MessageLeavesQuiet(s, o);
    } else if ReaderStep(a) {
      ReaderLeavesQuiet(s, a, o);
    } else if CallerStep(a) {
      CallerLeavesQuiet(s, a, o);
    }
  }

  lemma MessageLeavesQuiet(s: State, o: OpId)
    requires Awaited(s.reg.ops, s.reg.respWait) && Enabled(s, DoMessage) && o in s.reg.ops && !Waiting(s.reg.ops[o])
    ensures o in Apply(s, DoMessage).reg.ops && Apply(s, DoMessage).reg.ops[o] == s.reg.ops[o]
  {
    MessageEffect(s);
    var m := s.loop.msgs[0];
    if m.Response? && m.id in s.reg.respWait {
      ResponseChangesOne(s.reg, m.id, m.body);
    }
  }

  lemma ReaderLeavesQuiet(s: State, a: Action, o: OpId)
    requires Awaited(s.reg.ops, s.reg.respWait) && Enabled(s, a) && ReaderStep(a)
    requires o in s.reg.ops && !Waiting(s.reg.ops[o])
    ensures o in Apply(s, a).reg.ops && Drained(s.reg.ops[o], Apply(s, a).reg.ops[o])
  {
    ReaderStepReg(s, a);
    assert forall id :: id in s.reg.respWait ==> Awaits(s.reg.ops, s.reg.respWait[id], id);
    assert o !in s.reg.respWait.Values;
  }

  lemma CallerLeavesQuiet(s: State, a: Action, o: OpId)
    requires Enabled(s, a) && CallerStep(a) && o in s.reg.ops
    ensures o in Apply(s, a).reg.ops
    ensures Drained(s.reg.ops[o], Apply(s, a).reg.ops[o])
  {
    match a
    case DoNew(_, _, _) =>
    case DoAccept(_) =>
    case DoReceive(_) =>
    case DoReturn(_) =>
  }

  // ---- What a caller gets from its mailbox ----

  // wait returns a response without an error exactly when the mailbox has not been closed by then, even if it received
  // the response before the close.
  lemma ErrorFreeReturn(s: State, o: OpId)
    requires Reachable(s) && Enabled(s, DoReturn(o))
    ensures var op, op' := s.reg.ops[o], Apply(s, DoReturn(o)).reg.ops[o];
            if op.resp.closed then op'.got == op.got && op'.lost.Some? && op'.lost.value.0 == op.held.value
            else op'.got == op.got + [op.held.value] && op'.lost.None?
  {
    ReachableInv(s);
    ReturnEffect(s, o);
    assert OpInv(s.reg.ops[o]);
  }

  // What wait has not returned without an error when the mailbox is closed, it never will.
  lemma {:induction false} NothingAfterClose(s: State, acts: seq<Action>, o: OpId)
    requires Inv(s) && Runnable(s, acts) && o in s.reg.ops && s.reg.ops[o].resp.closed
    ensures o in Run(s, acts).reg.ops && Run(s, acts).reg.ops[o].resp.closed
    ensures Run(s, acts).reg.ops[o].got == s.reg.ops[o].got
    decreases |acts|
  {
    if acts != [] {
      assert OpInv(s.reg.ops[o]);
      StepKeeps(s, acts[0]);
      QuietStep(s, acts[0], o);
      NothingAfterClose(Apply(s, acts[0]), acts[1..], o);
    }
  }

  // Only a caller that waits for several responses can lose one, and only one whose request is not fully answered: a
  // Call gets its response, whatever is closed after it.
  lemma LossNeedsMissing(s: State, o: OpId)
    requires Reachable(s) && o in s.reg.ops && s.reg.ops[o].lost.Some?
    ensures 1 < |s.reg.ops[o].ids| && |s.reg.ops[o].delivered| < |s.reg.ops[o].ids|
  {
    ReachableInv(s);
    var op := s.reg.ops[o];
    IdSetSize(op.ids);
    SubsetSize(op.answered, IdSet(op.ids));
    assert |Received(op)| >= 1;
  }

  // The steps in which a caller gets its next response.
  function Getting(op: Op, o: OpId): seq<Action>
  {
    if op.held.Some? then [DoReturn(o)] else [DoReceive(o), DoReturn(o)]
  }

  // When all operations are closed, because the client is closed or the connection is lost, the next response that an
  // open mailbox or a caller in wait holds is lost exactly when an id of the request is still waited for.
  lemma CloseLosesIffPending(s: State, a: Action, o: OpId)
    requires Reachable(s) && Enabled(s, a) && Closes(s, a).Some?
    requires o in s.reg.ops && !s.reg.ops[o].resp.closed && (s.reg.ops[o].held.Some? || s.reg.ops[o].resp.buf != [])
    ensures var s', acts := Apply(s, a), Getting(s.reg.ops[o], o);
            && Runnable(s', acts) && o in Run(s', acts).reg.ops
            && (Run(s', acts).reg.ops[o].lost.Some? <==> Pending(s.reg, o) != {})
  {
    OpenOp(s, o);
    PendingIsWaitedFor(s.reg, o);
    ReaderStepReg(s, a);
    ClosedOp(s.reg, o, Closes(s, a).value);
    Gets(Apply(s, a), o);
  }

  lemma OpenOp(s: State, o: OpId)
    requires Reachable(s) && o in s.reg.ops && !s.reg.ops[o].resp.closed
    requires s.reg.ops[o].held.Some? || s.reg.ops[o].resp.buf != []
    ensures s.reg.ops[o].err.None? && s.reg.ops[o].lost.None?
  {
    ReachableInv(s);
    assert OpInv(s.reg.ops[o]);
  }

  lemma ClosedOp(r: Registry, o: OpId, err: Err)
    requires o in r.ops && r.ops[o].err.None?
    ensures var op, r' := r.ops[o], CloseRequestOps(r, err);
            && o in r'.ops && (r'.ops[o].err.Some? <==> o in r.respWait.Values)
            && r'.ops[o].held == op.held && r'.ops[o].lost == op.lost && r'.ops[o].resp.buf == op.resp.buf
  {
  }

  // A caller gets its next response, with the error of the operation if there is one.
  lemma Gets(s: State, o: OpId)
    requires o in s.reg.ops && s.reg.ops[o].lost.None? && (s.reg.ops[o].held.Some? || s.reg.ops[o].resp.buf != [])
    ensures var acts := Getting(s.reg.ops[o], o);
            && Runnable(s, acts) && o in Run(s, acts).reg.ops
            && (Run(s, acts).reg.ops[o].lost.Some? <==> s.reg.ops[o].err.Some?)
  {
    if s.reg.ops[o].held.Some? {
      Returns(s, o);
    } else {
      ReceiveEffect(s, o);
      var t := Apply(s, DoReceive(o));
      Returns(t, o);
      assert [DoReceive(o), DoReturn(o)][1..] == [DoReturn(o)];
    }
  }

  lemma Returns(s: State, o: OpId)
    requires o in s.reg.ops && s.reg.ops[o].lost.None? && s.reg.ops[o].held.Some?
    ensures Runnable(s, [DoReturn(o)]) && o in Run(s, [DoReturn(o)]).reg.ops
    ensures Run(s, [DoReturn(o)]).reg.ops[o].lost.Some? <==> s.reg.ops[o].err.Some?
  {
    ReturnEffect(s, o);
    var t := Apply(s, DoReturn(o));
    assert [DoReturn(o)][1..] == [];
    assert Runnable(t, []) && Run(t, []) == t;
  }

  lemma ReceiveEffect(s: State, o: OpId)
    ensures Enabled(s, DoReceive(o)) <==> o in s.reg.ops && CanTake(s.reg.ops[o])
    ensures Enabled(s, DoReceive(o)) ==> Apply(s, DoReceive(o)).reg == Receive(s.reg, o)
  {
  }

  lemma ReturnEffect(s: State, o: OpId)
    ensures Enabled(s, DoReturn(o)) <==> o in s.reg.ops && s.reg.ops[o].held.Some?
    ensures Enabled(s, DoReturn(o)) ==> Apply(s, DoReturn(o)).reg == Return(s.reg, o)
  {
  }

  lemma PendingIsWaitedFor(r: Registry, o: OpId)
    ensures Pending(r, o) != {} <==> o in r.respWait.Values
  {
    if o in r.respWait.Values {
      var id :| id in r.respWait && r.respWait[id] == o;
      assert id in Pending(r, o);
    }
    if Pending(r, o) != {} {
      var id: Id :| id in Pending(r, o);
      assert r.respWait[id] in r.respWait.Values;
    }
  }

  // Of any number of senders at most one is between its acceptance and the end of its write. It is the one that
  // dispatch remembers, and it finds room in sendDone.
  lemma OneWriter(s: State, o: OpId, p: OpId)
    requires Reachable(s) && o in s.reg.ops && p in s.reg.ops && Critical(s.reg.ops[o]) && Critical(s.reg.ops[p])
    ensures o == p && s.lastOp == Some(o) && s.locked && |s.sendDone.buf| < s.sendDone.cap
  {
    ReachableInv(s);
  }

  // The steps in which write and reconnect look at writeConn, write on it or change it.
  predicate UsesConn(a: Action)
  {
    a.DoRedial? || a.DoHandOver? || a.DoWrite?
  }

  // Whoever looks at the write connection, writes on it or changes it holds the write lock.
  lemma OnlyWriterTouchesConn(s: State, a: Action)
    requires Reachable(s) && Enabled(s, a) && (UsesConn(a) || Apply(s, a).writeConn != s.writeConn)
    ensures UsesConn(a) && a.o in s.reg.ops && Critical(s.reg.ops[a.o]) && s.lastOp == Some(a.o)
  {
    ReachableInv(s);
    if a == DoMessage {
      MessageEffect(s);
    }
  }

  // When a write completion is there to be taken, dispatch knows the operation it belongs to and its result.
  lemma CompletionHasOp(s: State)
    requires Reachable(s) && s.sendDone.buf != []
    ensures s.lastOp.Some? && s.lastOp.value in s.reg.ops && s.reg.ops[s.lastOp.value].pc == Sent(s.sendDone.buf[0])
    ensures s.loop.Select? ==> Enabled(s, DoTakeDone)
  {
    ReachableInv(s);
  }

  // At the head of the loop exactly one read loop runs if reading is set, on the current connection, and none
  // otherwise; writes go to that connection; and after the quit no read loop is left.
  lemma SingleReader(s: State)
    requires Reachable(s)
    ensures s.loop.Select? ==> s.readers.Keys == if s.reading then {s.conn} else {}
    ensures s.loop.Select? && s.writeConn.Some? ==> s.writeConn.value == s.conn
    ensures s.loop.Quit? ==> s.readers == map[]
  {
    ReachableInv(s);
  }

  // What a caller has received without an error: responses to different ids of its own request, in the order in
  // which dispatch forwarded them; so as many responses as ids answer every id exactly once.
  lemma RepliesAreABijection(s: State, o: OpId)
    requires Reachable(s) && o in s.reg.ops
    ensures var op := s.reg.ops[o];
            && op.got <= op.delivered
            && (forall k :: 0 <= k < |op.got| ==> op.got[k].Response? && op.got[k].id in op.ids)
            && (forall j, k :: 0 <= j < k < |op.got| ==> op.got[j].id != op.got[k].id)
            && (|op.got| == |op.ids| ==>
                  forall id :: id in op.ids ==> exists k :: 0 <= k < |op.got| && op.got[k].id == id)
  {
    ReachableInv(s);
    var op := s.reg.ops[o];
    assert op.got <= op.delivered;
    assert forall k :: 0 <= k < |op.got| ==> op.got[k] == op.delivered[k];
    if |op.got| == |op.ids| {
      AllAnswered(op);
    }
  }

  lemma AllAnswered(op: Op)
    requires OpInv(op) && |op.got| == |op.ids| && op.got <= op.delivered
    ensures forall id :: id in op.ids ==> exists k :: 0 <= k < |op.got| && op.got[k].id == id
  {
    var received := set k | 0 <= k < |op.got| :: op.got[k].id;
    IdSetSize(op.ids);
    var ids := seq(|op.got|, k requires 0 <= k < |op.got| => op.got[k].id);
    IdSetSize(ids);
    forall x | x in IdSet(ids)
      ensures x in IdSet(op.ids)
    {
      var k :| 0 <= k < |ids| && ids[k] == x;
    }
    SubsetSize(IdSet(ids), IdSet(op.ids));
    forall id | id in op.ids
      ensures exists k :: 0 <= k < |op.got| && op.got[k].id == id
    {
      assert id in IdSet(ids);
      var k :| 0 <= k < |ids| && ids[k] == id;
    }
  }

  // A subscription whose forwarder was started is active, or has been ended by dispatch, or the server granted its id
  // again while it was active; and only one of these. So one stays open beyond the quit exactly when that happened.
  lemma SubscriptionsEnd(s: State, o: OpId)
    requires Reachable(s) && o in s.reg.ops && s.reg.ops[o].starts == 1
    ensures !s.reg.ops[o].quit <==> o in s.reg.subs.Values || exists i, j :: GrantedAgain(s.reg.grants, i, j, o)
    ensures o !in s.reg.subs.Values || !exists i, j :: GrantedAgain(s.reg.grants, i, j, o)
    ensures s.loop.Quit? ==> (!s.reg.ops[o].quit <==> exists i, j :: GrantedAgain(s.reg.grants, i, j, o))
  {
    ReachableInv(s);
    ShadowedExactly(s.reg.grants, o);
  }
}
