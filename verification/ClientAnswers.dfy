// What the dispatch loop of client/client.go does with a batch of messages and with failed sends, over all runs.

module ClientAnswers {
  import opened Channels
  import opened ClientModel
  import opened ClientRegistry
  import opened ClientProtocol

  // ---- What should become of a batch ----

  // The responses to the given ids, each id being answered once.
  function Answers(msgs: seq<Msg>, ids: set<Id>): seq<Msg>
  {
    if msgs == [] then []
    else if msgs[0].Response? && msgs[0].id in ids then [msgs[0]] + Answers(msgs[1..], ids - {msgs[0].id})
    else Answers(msgs[1..], ids)
  }

  predicate Responds(msg: Msg, id: Id)
  {
    msg.Response? && msg.id == id
  }

  function AnsweredIds(msgs: seq<Msg>): set<Id>
  {
    set k | 0 <= k < |msgs| && msgs[k].Response? :: msgs[k].id
  }

  // The results that the notifications for a subscription carry.
  function Results(msgs: seq<Msg>, x: SubId): seq<int>
  {
    if msgs == [] then []
    else (if msgs[0].Notification? && msgs[0].subid == Some(x) then [msgs[0].result] else []) + Results(msgs[1..], x)
  }

  function To(o: OpId, results: seq<int>): (offers: seq<(OpId, int)>)
    ensures |offers| == |results| && forall k :: 0 <= k < |results| ==> offers[k] == (o, results[k])
  {
    seq(|results|, k requires 0 <= k < |results| => (o, results[k]))
  }

  // What deliver was called with for a subscription id, and on which subscription.
  function OffersFor(offers: seq<Offer>, x: SubId): seq<(OpId, int)>
  {
    if offers == [] then []
    else
      var last := offers[|offers| - 1];
      OffersFor(offers[..|offers| - 1], x) + if last.subid == x then [(last.op, last.result)] else []
  }

  predicate Grants(msg: Msg, x: SubId)
  {
    msg.Response? && msg.body == ResultBody(Some(x))
  }

  // ---- Inside a batch ----

  predicate InBatch(loop: LoopPc)
  {
    loop.Batch? || loop.Delivering?
  }

  function Remaining(loop: LoopPc): seq<Msg>
  {
    match loop
    case Batch(msgs) => msgs
    case Delivering(rest) => rest
    case _ => []
  }

  // What other goroutines do meanwhile, and the end of a delivery, change nothing that the batch is about.
  ghost predicate SameForBatch(s: State, t: State)
  {
    && InBatch(t.loop) && Remaining(t.loop) == Remaining(s.loop) && t.offers == s.offers
    && t.reg.respWait == s.reg.respWait && t.reg.subs == s.reg.subs
    && (forall o :: o in s.reg.ops ==> o in t.reg.ops && t.reg.ops[o].delivered == s.reg.ops[o].delivered)
  }

  lemma OtherStep(s: State, a: Action)
    requires InBatch(s.loop) && Enabled(s, a) && a != DoMessage && a != DoBatchEnd
    ensures SameForBatch(s, Apply(s, a))
  {
    KindsOfSteps(a);
    if SenderStep(a) {
      SenderStepMoves(s, a);
      SenderInBatch(s, a);
    } else if CallerStep(a) {
      CallerInBatch(s, a);
    } else {
      LoopInBatch(s, a);
    }
  }

  lemma SenderInBatch(s: State, a: Action)
    requires InBatch(s.loop) && Enabled(s, a) && SenderStep(a)
    ensures Apply(s, a).loop == s.loop && Apply(s, a).offers == s.offers
  {
    match a
    case DoRefuse(_) =>
    case DoRedial(_, _) =>
    case DoHandOver(_) =>
    case DoAbandon(_) =>
    case DoWrite(_, _) =>
    case DoSendDone(_) =>
  }

  lemma CallerInBatch(s: State, a: Action)
    requires InBatch(s.loop) && Enabled(s, a) && CallerStep(a)
    ensures SameForBatch(s, Apply(s, a))
  {
    match a
    case DoNew(_, _, _) =>
    case DoAccept(_) =>
    case DoReceive(_) =>
    case DoReturn(_) =>
  }

  lemma LoopInBatch(s: State, a: Action)
    requires InBatch(s.loop) && Enabled(s, a) && a != DoBatchEnd && (LoopStep(a) || ReaderStep(a))
    ensures SameForBatch(s, Apply(s, a))
  {
    match a
    case DoTakeDone =>
    case DoDelivered =>
    case DoRead(_, _) =>
    case DoReadFail(_) =>
    case DoTakeBatch(_) =>
    case DoTakeErr(_) =>
    case DoClose =>
  }

  // How far a batch has come: n of its messages are dealt with as far as o is concerned.
  ghost predicate Handled(s: State, t: State, n: nat, o: OpId)
  {
    && InBatch(t.loop) && n <= |Remaining(s.loop)| && Remaining(t.loop) == Remaining(s.loop)[n..]
    && o in s.reg.ops && o in t.reg.ops
    && t.reg.ops[o].delivered == s.reg.ops[o].delivered + Answers(Remaining(s.loop)[..n], Pending(s.reg, o))
    && Pending(t.reg, o) == Pending(s.reg, o) - AnsweredIds(Remaining(s.loop)[..n])
  }

  // What a response does to the operation that it is for, and to the others.
  lemma ResponseDelivers(r: Registry, id: Id, body: Body, o: OpId)
    requires Closed(r) && o in r.ops
    ensures var r', answer := HandleResponse(r, id, body), [Response(id, body)];
            && o in r'.ops
            && r'.ops[o].delivered == r.ops[o].delivered + (if id in Pending(r, o) then answer else [])
            && Pending(r', o) == Pending(r, o) - {id}
  {
    if id in r.respWait {
      ResponseChangesOne(r, id, body);
    }
  }

  lemma OneAnswer(m: Msg, ids: set<Id>)
    ensures Answers([m], ids) == if m.Response? && m.id in ids then [m] else []
    ensures AnsweredIds([m]) == if m.Response? then {m.id} else {}
  {
    assert [m][0] == m;
  }

  lemma OneMessage(s: State, o: OpId)
    requires Enabled(s, DoMessage) && o in s.reg.ops
    ensures Handled(s, Apply(s, DoMessage), 1, o)
  {
    MessageMoves(s);
    MessageEffect(s);
    MessageHandled(s, Apply(s, DoMessage), o);
  }

  lemma MessageHandled(s: State, t: State, o: OpId)
    requires s.loop.Batch? && s.loop.msgs != [] && Closed(s.reg) && o in s.reg.ops
    requires InBatch(t.loop) && Remaining(t.loop) == s.loop.msgs[1..]
    requires var m := s.loop.msgs[0]; t.reg == if m.Response? then HandleResponse(s.reg, m.id, m.body) else s.reg
    ensures Handled(s, t, 1, o)
  {
    var m := s.loop.msgs[0];
    assert s.loop.msgs[..1] == [m];
    OneAnswer(m, Pending(s.reg, o));
    if m.Response? {
      ResponseDelivers(s.reg, m.id, m.body, o);
    }
  }

  lemma MessageMoves(s: State)
    requires Enabled(s, DoMessage)
    ensures Remaining(Apply(s, DoMessage).loop) == s.loop.msgs[1..] && InBatch(Apply(s, DoMessage).loop)
  {
  }

  lemma {:induction false} AnswersSplit(first: seq<Msg>, second: seq<Msg>, ids: set<Id>)
    ensures Answers(first + second, ids) == Answers(first, ids) + Answers(second, ids - AnsweredIds(first))
  {
    if first == [] {
      assert first + second == second && ids - AnsweredIds(first) == ids;
    } else {
      var m := first[0];
      assert (first + second)[1..] == first[1..] + second;
      var ids' := if m.Response? then ids - {m.id} else ids;
      AnswersSplit(first[1..], second, ids');
      AnsweredFirst(first);
      assert ids' - AnsweredIds(first[1..]) == ids - AnsweredIds(first);
      assert m.Response? && m.id !in ids ==> ids' == ids;
    }
  }

  lemma AnsweredFirst(msgs: seq<Msg>)
    requires msgs != []
    ensures AnsweredIds(msgs) == AnsweredIds(msgs[1..]) + if msgs[0].Response? then {msgs[0].id} else {}
  {
    forall id
      ensures id in AnsweredIds(msgs) <==> id in AnsweredIds(msgs[1..]) || Responds(msgs[0], id)
    {
      if id in AnsweredIds(msgs) {
        var k :| 0 <= k < |msgs| && Responds(msgs[k], id);
        assert k > 0 ==> Responds(msgs[1..][k - 1], id);
      }
      if id in AnsweredIds(msgs[1..]) {
        var k :| 0 <= k < |msgs[1..]| && Responds(msgs[1..][k], id);
        assert Responds(msgs[k + 1], id);
      }
    }
  }

  lemma AnsweredSplit(first: seq<Msg>, second: seq<Msg>)
    ensures AnsweredIds(first + second) == AnsweredIds(first) + AnsweredIds(second)
  {
    forall id
      ensures id in AnsweredIds(first + second) <==> id in AnsweredIds(first) || id in AnsweredIds(second)
    {
      if id in AnsweredIds(first) {
        var k :| 0 <= k < |first| && Responds(first[k], id);
        assert Responds((first + second)[k], id);
      }
      if id in AnsweredIds(second) {
        var k :| 0 <= k < |second| && Responds(second[k], id);
        assert Responds((first + second)[|first| + k], id);
      }
    }
  }

  lemma HandledJoins(s: State, t: State, u: State, n: nat, k: nat, o: OpId)
    requires Handled(s, t, n, o) && Handled(t, u, k, o)
    ensures Handled(s, u, n + k, o)
  {
    var msgs := Remaining(s.loop);
    var first, second := msgs[..n], msgs[n..][..k];
    assert msgs[..n + k] == first + second && msgs[n..][k..] == msgs[n + k..];
    AnswersSplit(first, second, Pending(s.reg, o));
    AnsweredSplit(first, second);
  }

  // Over every interleaving with senders, callers and read loops, dispatch works through the batch message by message.
  lemma {:induction false} BatchRun(s: State, acts: seq<Action>, o: OpId)
    requires InBatch(s.loop) && Runnable(s, acts) && DoBatchEnd !in acts && o in s.reg.ops
    ensures HandledSome(s, Run(s, acts), o)
    decreases |acts|
  {
    if acts == [] {
      NothingHandled(s, s, o);
    } else {
      BatchStep(s, acts[0], o);
      HandledIn(s, Apply(s, acts[0]), o);
      BatchRun(Apply(s, acts[0]), acts[1..], o);
      SomeJoins(s, Apply(s, acts[0]), Run(Apply(s, acts[0]), acts[1..]), o);
    }
  }

  ghost predicate HandledSome(s: State, t: State, o: OpId)
  {
    exists n: nat :: Handled(s, t, n, o)
  }

  lemma HandledIn(s: State, t: State, o: OpId)
    requires HandledSome(s, t, o)
    ensures InBatch(t.loop) && o in t.reg.ops
  {
  }

  lemma SomeJoins(s: State, t: State, u: State, o: OpId)
    requires HandledSome(s, t, o) && HandledSome(t, u, o)
    ensures HandledSome(s, u, o)
  {
    var n: nat :| Handled(s, t, n, o);
    var k: nat :| Handled(t, u, k, o);
    HandledJoins(s, t, u, n, k, o);
  }

  lemma BatchStep(s: State, a: Action, o: OpId)
    requires InBatch(s.loop) && Enabled(s, a) && a != DoBatchEnd && o in s.reg.ops
    ensures HandledSome(s, Apply(s, a), o)
  {
    if a == DoMessage {
      OneMessage(s, o);
    } else {
      OtherStep(s, a);
      NothingHandled(s, Apply(s, a), o);
    }
  }

  lemma NothingHandled(s: State, t: State, o: OpId)
    requires InBatch(s.loop) && SameForBatch(s, t) && o in s.reg.ops
    ensures HandledSome(s, t, o)
  {
    assert Remaining(s.loop)[..0] == [];
    assert Handled(s, t, 0, o);
  }

  lemma BatchEndsEmpty(s: State)
    requires Enabled(s, DoBatchEnd)
    ensures s.loop == Batch([]) && Apply(s, DoBatchEnd).loop == Select && Apply(s, DoBatchEnd).reg == s.reg
  {
  }

  // Whatever else happens meanwhile, when dispatch is through with a batch it has forwarded to every operation, in
  // their order, the responses of the batch to the ids that were waited for, and none of these is waited for any more.
  lemma BatchIsHandled(s: State, acts: seq<Action>, o: OpId)
    requires Reachable(s) && InBatch(s.loop) && o in s.reg.ops
    requires Runnable(s, acts) && DoBatchEnd !in acts && Enabled(Run(s, acts), DoBatchEnd)
    ensures var t := Apply(Run(s, acts), DoBatchEnd);
            && t.loop == Select && o in t.reg.ops
            && t.reg.ops[o].delivered == s.reg.ops[o].delivered + Answers(Remaining(s.loop), Pending(s.reg, o))
            && Pending(t.reg, o) == Pending(s.reg, o) - AnsweredIds(Remaining(s.loop))
  {
    BatchRun(s, acts, o);
    var n: nat :| Handled(s, Run(s, acts), n, o);
    BatchEndsEmpty(Run(s, acts));
    assert n == |Remaining(s.loop)|;
    assert Remaining(s.loop)[..n] == Remaining(s.loop);
  }

  // In particular what a read loop has read: the whole of it is handled, from the first message to the last.
  lemma ReadIsHandled(s: State, c: Conn, msgs: seq<Msg>, acts: seq<Action>, o: OpId)
    requires Reachable(s) && s.loop == Select && c in s.readers && s.readers[c] == Reading && o in s.reg.ops
    requires var taken := Taken(s, c, msgs);
             Runnable(taken, acts) && DoBatchEnd !in acts && Enabled(Run(taken, acts), DoBatchEnd)
    ensures var t := Apply(Run(Taken(s, c, msgs), acts), DoBatchEnd);
            && t.loop == Select && o in t.reg.ops
            && t.reg.ops[o].delivered == s.reg.ops[o].delivered + Answers(msgs, Pending(s.reg, o))
            && Pending(t.reg, o) == Pending(s.reg, o) - AnsweredIds(msgs)
  {
    ReachableStep(s, DoRead(c, msgs));
    ReachableStep(Apply(s, DoRead(c, msgs)), DoTakeBatch(c));
    TakenBatch(s, c, msgs);
    BatchIsHandled(Taken(s, c, msgs), acts, o);
  }

  // A read loop reads the messages and dispatch takes them.
  ghost function Taken(s: State, c: Conn, msgs: seq<Msg>): State
    requires s.loop == Select && c in s.readers && s.readers[c] == Reading
  {
    Apply(Apply(s, DoRead(c, msgs)), DoTakeBatch(c))
  }

  lemma TakenBatch(s: State, c: Conn, msgs: seq<Msg>)
    requires s.loop == Select && c in s.readers && s.readers[c] == Reading
    ensures Taken(s, c, msgs).loop == Batch(msgs) && Taken(s, c, msgs).reg == s.reg
  {
  }

  // And it gets there by steps of its own.
  lemma {:induction false} BatchFinishes(s: State) returns (acts: seq<Action>)
    requires Inv(s) && InBatch(s.loop)
    ensures Runnable(s, acts) && Enabled(Run(s, acts), DoBatchEnd)
    ensures forall a :: a in acts ==> a == DoMessage || a == DoDelivered
    decreases |Remaining(s.loop)|, s.loop.Delivering?
  {
    acts := [];
    if s.loop != Batch([]) {
      var a := if s.loop.Batch? then DoMessage else DoDelivered;
      AwaitedClosed(s.reg);
      StepKeeps(s, a);
      if a == DoMessage {
        MessageMoves(s);
      }
      var more := BatchFinishes(Apply(s, a));
      acts := [a] + more;
      assert acts[1..] == more;
    }
  }

  // ---- Notifications ----

  ghost predicate Offered(s: State, t: State, n: nat, x: SubId, o: OpId)
  {
    && InBatch(t.loop) && n <= |Remaining(s.loop)| && Remaining(t.loop) == Remaining(s.loop)[n..]
    && x in t.reg.subs && t.reg.subs[x] == o
    && OffersFor(t.offers, x) == OffersFor(s.offers, x) + To(o, Results(Remaining(s.loop)[..n], x))
  }

  lemma OneNotification(s: State, x: SubId, o: OpId)
    requires Enabled(s, DoMessage) && x in s.reg.subs && s.reg.subs[x] == o && !Grants(s.loop.msgs[0], x)
    ensures Offered(s, Apply(s, DoMessage), 1, x, o)
  {
    MessageMoves(s);
    MessageEffect(s);
    MessageOffers(s);
    NotificationOffered(s, Apply(s, DoMessage), x, o);
  }

  // Dispatch calls deliver on the subscription that the id of a notification stands for.
  lemma MessageOffers(s: State)
    requires Enabled(s, DoMessage)
    ensures var m := s.loop.msgs[0];
            Apply(s, DoMessage).offers ==
              s.offers + if m.Notification? && m.subid.Some? && m.subid.value in s.reg.subs
                         then [Offer(m.subid.value, s.reg.subs[m.subid.value], m.result)] else []
  {
  }

  lemma NotificationOffered(s: State, t: State, x: SubId, o: OpId)
    requires s.loop.Batch? && s.loop.msgs != [] && Closed(s.reg)
    requires x in s.reg.subs && s.reg.subs[x] == o && !Grants(s.loop.msgs[0], x)
    requires InBatch(t.loop) && Remaining(t.loop) == s.loop.msgs[1..]
    requires var m := s.loop.msgs[0];
             && t.reg == (if m.Response? then HandleResponse(s.reg, m.id, m.body) else s.reg)
             && t.offers == s.offers + if m.Notification? && m.subid.Some? && m.subid.value in s.reg.subs
                                       then [Offer(m.subid.value, s.reg.subs[m.subid.value], m.result)] else []
    ensures Offered(s, t, 1, x, o)
  {
    var m := s.loop.msgs[0];
    assert s.loop.msgs[..1] == [m];
    assert Results([m], x) == if m.Notification? && m.subid == Some(x) then [m.result] else [];
    if m.Response? {
      GrantKeepsOthers(s.reg, m.id, m.body, x);
    }
    if m.Notification? && m.subid.Some? && m.subid.value in s.reg.subs {
      assert t.offers[..|s.offers|] == s.offers;
    } else {
      assert t.offers == s.offers;
    }
  }

  lemma GrantKeepsOthers(r: Registry, id: Id, body: Body, x: SubId)
    requires Closed(r) && x in r.subs && body != ResultBody(Some(x))
    ensures var r' := HandleResponse(r, id, body); x in r'.subs && r'.subs[x] == r.subs[x]
  {
  }

  lemma {:induction false} ResultsSplit(first: seq<Msg>, second: seq<Msg>, x: SubId)
    ensures Results(first + second, x) == Results(first, x) + Results(second, x)
  {
    if first == [] {
      assert first + second == second;
    } else {
      assert (first + second)[1..] == first[1..] + second;
      ResultsSplit(first[1..], second, x);
    }
  }

  lemma ToSplit(o: OpId, first: seq<int>, second: seq<int>)
    ensures To(o, first + second) == To(o, first) + To(o, second)
  {
  }

  lemma ResultsOfBoth(msgs: seq<Msg>, n: nat, k: nat, x: SubId, o: OpId)
    requires n <= |msgs| && k <= |msgs| - n
    ensures To(o, Results(msgs[..n + k], x)) == To(o, Results(msgs[..n], x)) + To(o, Results(msgs[n..][..k], x))
  {
    assert msgs[..n + k] == msgs[..n] + msgs[n..][..k];
    ResultsSplit(msgs[..n], msgs[n..][..k], x);
    ToSplit(o, Results(msgs[..n], x), Results(msgs[n..][..k], x));
  }

  lemma OfferedJoins(s: State, t: State, u: State, n: nat, k: nat, x: SubId, o: OpId)
    requires Offered(s, t, n, x, o) && Offered(t, u, k, x, o)
    ensures Offered(s, u, n + k, x, o)
  {
    ResultsOfBoth(Remaining(s.loop), n, k, x, o);
    assert Remaining(s.loop)[n..][k..] == Remaining(s.loop)[n + k..];
  }

  ghost predicate OfferedSome(s: State, t: State, x: SubId, o: OpId)
  {
    exists n: nat :: Offered(s, t, n, x, o)
  }

  lemma OfferedIn(s: State, t: State, x: SubId, o: OpId)
    requires OfferedSome(s, t, x, o)
    ensures InBatch(t.loop) && x in t.reg.subs && t.reg.subs[x] == o
    ensures Ungranted(s, x) ==> Ungranted(t, x)
  {
    var n: nat :| Offered(s, t, n, x, o);
    assert forall k :: 0 <= k < |Remaining(t.loop)| ==> Remaining(t.loop)[k] == Remaining(s.loop)[n + k];
  }

  lemma SomeOffersJoin(s: State, t: State, u: State, x: SubId, o: OpId)
    requires OfferedSome(s, t, x, o) && OfferedSome(t, u, x, o)
    ensures OfferedSome(s, u, x, o)
  {
    var n: nat :| Offered(s, t, n, x, o);
    var k: nat :| Offered(t, u, k, x, o);
    OfferedJoins(s, t, u, n, k, x, o);
  }

  // No message that is left grants the id again.
  ghost predicate Ungranted(s: State, x: SubId)
  {
    forall k :: 0 <= k < |Remaining(s.loop)| ==> !Grants(Remaining(s.loop)[k], x)
  }

  lemma {:induction false} NotificationRun(s: State, acts: seq<Action>, x: SubId, o: OpId)
    requires InBatch(s.loop) && Runnable(s, acts) && DoBatchEnd !in acts
    requires x in s.reg.subs && s.reg.subs[x] == o && Ungranted(s, x)
    ensures OfferedSome(s, Run(s, acts), x, o)
    decreases |acts|
  {
    if acts == [] {
      NothingOffered(s, s, x, o);
    } else {
      NotificationStep(s, acts[0], x, o);
      OfferedIn(s, Apply(s, acts[0]), x, o);
      NotificationRun(Apply(s, acts[0]), acts[1..], x, o);
      SomeOffersJoin(s, Apply(s, acts[0]), Run(Apply(s, acts[0]), acts[1..]), x, o);
    }
  }

  lemma NotificationStep(s: State, a: Action, x: SubId, o: OpId)
    requires InBatch(s.loop) && Enabled(s, a) && a != DoBatchEnd
    requires x in s.reg.subs && s.reg.subs[x] == o && Ungranted(s, x)
    ensures OfferedSome(s, Apply(s, a), x, o)
  {
    if a == DoMessage {
      MessageFirst(s);
      OneNotification(s, x, o);
    } else {
      OtherStep(s, a);
      NothingOffered(s, Apply(s, a), x, o);
    }
  }

  lemma MessageFirst(s: State)
    requires Enabled(s, DoMessage)
    ensures s.loop.Batch? && s.loop.msgs != [] && s.loop.msgs[0] == Remaining(s.loop)[0]
  {
  }

  lemma NothingOffered(s: State, t: State, x: SubId, o: OpId)
    requires InBatch(s.loop) && SameForBatch(s, t) && x in s.reg.subs && s.reg.subs[x] == o
    ensures OfferedSome(s, t, x, o)
  {
    assert Remaining(s.loop)[..0] == [];
    assert Offered(s, t, 0, x, o);
  }

  // When dispatch is through with a batch it has called deliver on an active subscription with the results of the
  // notifications for its id, all of them and in their order, unless the batch grants that id again.
  lemma NotificationsAreOffered(s: State, acts: seq<Action>, x: SubId)
    requires InBatch(s.loop) && x in s.reg.subs
    requires Ungranted(s, x)
    requires Runnable(s, acts) && DoBatchEnd !in acts && Enabled(Run(s, acts), DoBatchEnd)
    ensures var o, t := s.reg.subs[x], Run(s, acts);
            OffersFor(t.offers, x) == OffersFor(s.offers, x) + To(o, Results(Remaining(s.loop), x))
  {
    NotificationRun(s, acts, x, s.reg.subs[x]);
    var n: nat :| Offered(s, Run(s, acts), n, x, s.reg.subs[x]);
    BatchEndsEmpty(Run(s, acts));
    assert n == |Remaining(s.loop)|;
    assert Remaining(s.loop)[..n] == Remaining(s.loop);
  }

  // ---- Closing ----

  // When the client is closed or the connection is lost, every operation with an unanswered id is closed with the error
  // that says which, the others are left alone, every active subscription is ended, and nothing is waited for.
  lemma AllAreClosed(s: State, a: Action, o: OpId)
    requires Reachable(s) && Enabled(s, a) && (a == DoClose || (a.DoTakeErr? && s.loop == Select)) && o in s.reg.ops
    ensures var t, op := Apply(s, a), s.reg.ops[o];
            && t.reg.respWait == map[] && t.reg.subs == map[] && o in t.reg.ops
            && (Pending(s.reg, o) != {} ==>
                  t.reg.ops[o].resp.closed && t.reg.ops[o].err == Some(if a == DoClose then ClientQuit else ReadError))
            && (Pending(s.reg, o) == {} ==> t.reg.ops[o].resp == op.resp && t.reg.ops[o].err == op.err)
            && (t.reg.ops[o].quit <==> op.quit || exists x :: x in s.reg.subs && s.reg.subs[x] == o)
  {
    ReaderStepReg(s, a);
    PendingIsWaitedFor(s.reg, o);
    OneClosed(s.reg, o, if a == DoClose then ClientQuit else ReadError);
  }

  lemma OneClosed(r: Registry, o: OpId, err: Err)
    requires o in r.ops
    ensures var r', op := CloseRequestOps(r, err), r.ops[o];
            && r'.respWait == map[] && r'.subs == map[] && o in r'.ops
            && (o in r.respWait.Values ==> r'.ops[o].resp.closed && r'.ops[o].err == Some(err))
            && (o !in r.respWait.Values ==> r'.ops[o].resp == op.resp && r'.ops[o].err == op.err)
            && (r'.ops[o].quit <==> op.quit || exists x :: x in r.subs && r.subs[x] == o)
  {
  }

  // ---- Subscription requests ----

  // How a request for a subscription ends: its mailbox is closed without an error exactly if its forwarder was started,
  // and the error says what the server answered.
  lemma SubscriptionOutcome(s: State, o: OpId)
    requires Reachable(s) && o in s.reg.ops && s.reg.ops[o].isSub
    ensures var op := s.reg.ops[o];
            && (op.resp.closed ==> (op.err.None? <==> op.starts == 1))
            && (!op.resp.closed ==> op.err.None? && op.starts == 0 && op.delivered == [])
            && |op.delivered| <= 1
            && (op.delivered != [] ==>
                  && op.delivered[0].Response? && op.ids == [op.delivered[0].id]
                  && op.err == match op.delivered[0].body
                               case ErrorBody => Some(ServerError)
                               case ResultBody(None) => Some(DecodeError)
                               case ResultBody(Some(_)) => None)
  {
    ReachableInv(s);
    OutcomeOf(s.reg.ops[o]);
  }

  lemma OutcomeOf(op: Op)
    requires OpInv(op) && op.isSub
    ensures |op.delivered| <= 1 && (op.delivered != [] ==> op.ids == [op.delivered[0].id])
  {
    IdSetSize(op.ids);
    SubsetSize(op.answered, IdSet(op.ids));
  }

  // ---- Failed sends ----

  ghost predicate Failures(s: State)
  {
    && (forall o :: o in s.reg.ops && s.reg.ops[o].pc.Sent? && s.reg.ops[o].pc.res.Some? ==>
          s.reg.ops[o].removed || s.lastOp == Some(o))
    && (forall o :: o in s.reg.ops && s.reg.ops[o].pc == Wrote(Some(WriteError)) ==> s.writeConn.None?)
  }

  lemma FailuresStep(s: State, a: Action)
    requires Inv(s) && Failures(s) && Enabled(s, a)
    ensures Failures(Apply(s, a))
  {
    KindsOfSteps(a);
    if SenderStep(a) {
      SenderFailures(s, a);
    } else if a == DoMessage {
      MessageFailures(s);
    } else if CallerStep(a) {
      CallerFailures(s, a);
    } else if a == DoTakeDone {
      TakeDoneFailures(s);
    } else {
      ReaderFailures(s, a);
    }
  }

  lemma SenderFailures(s: State, a: Action)
    requires LockInv(s) && Failures(s) && Enabled(s, a) && SenderStep(a)
    ensures Failures(Apply(s, a))
  {
    SenderStepMoves(s, a);
    SenderSignals(s, a);
    SenderConn(s, a);
    SenderMoved(s, Apply(s, a), a.o, NextPc(s, a));
  }

  lemma SenderConn(s: State, a: Action)
    requires Enabled(s, a) && SenderStep(a) && SenderAllowed(s, a)
    ensures a.DoHandOver? || Apply(s, a).writeConn == s.writeConn || Apply(s, a).writeConn.None?
    ensures NextPc(s, a) == Wrote(Some(WriteError)) ==> Apply(s, a).writeConn.None?
    ensures a.DoHandOver? ==> NextPc(s, a) == Writing
  {
    match a
    case DoRefuse(_) =>
    case DoRedial(_, _) =>
    case DoHandOver(_) =>
    case DoAbandon(_) =>
    case DoWrite(_, _) =>
    case DoSendDone(_) =>
  }

  lemma SenderMoved(s: State, s': State, o: OpId, pc: Pc)
    requires LockInv(s) && Failures(s) && o in s.reg.ops && s'.reg == SetPc(s.reg, o, pc) && s'.lastOp == s.lastOp
    requires if pc.Refused? then s.reg.ops[o].pc == Idle else Critical(s.reg.ops[o])
    requires pc == Writing || s'.writeConn == s.writeConn || s'.writeConn.None?
    requires pc == Wrote(Some(WriteError)) ==> s'.writeConn.None?
    ensures Failures(s')
  {
    assert forall p :: p in s.reg.ops && s.reg.ops[p].pc == Wrote(Some(WriteError)) ==> Critical(s.reg.ops[p]);
  }

  ghost predicate SameSenders(s: State, t: State)
  {
    && t.lastOp == s.lastOp && t.writeConn == s.writeConn
    && forall o :: o in t.reg.ops ==>
         if o in s.reg.ops then t.reg.ops[o].pc == s.reg.ops[o].pc && t.reg.ops[o].removed == s.reg.ops[o].removed
         else t.reg.ops[o].pc == Idle
  }

  lemma SameFailures(s: State, t: State)
    requires Failures(s) && SameSenders(s, t)
    ensures Failures(t)
  {
  }

  lemma MessageFailures(s: State)
    requires Failures(s) && Enabled(s, DoMessage)
    ensures Failures(Apply(s, DoMessage))
  {
    MessageEffect(s);
    var m := s.loop.msgs[0];
    if m.Response? && m.id in s.reg.respWait {
      ResponseChangesOne(s.reg, m.id, m.body);
    }
    SameFailures(s, Apply(s, DoMessage));
  }

  lemma CallerFailures(s: State, a: Action)
    requires LockInv(s) && Failures(s) && Enabled(s, a) && CallerStep(a)
    ensures Failures(Apply(s, a))
  {
    match a
    case DoNew(_, _, _) => SameFailures(s, Apply(s, a));
    case DoAccept(o) => AcceptFailures(s, o);
    case DoReceive(_) => SameFailures(s, Apply(s, a));
    case DoReturn(_) => SameFailures(s, Apply(s, a));
  }

  lemma AcceptFailures(s: State, o: OpId)
    requires LockInv(s) && Failures(s) && Enabled(s, DoAccept(o))
    ensures Failures(Apply(s, DoAccept(o)))
  {
  }

  lemma TakeDoneFailures(s: State)
    requires LockInv(s) && Failures(s) && Enabled(s, DoTakeDone)
    ensures Failures(Apply(s, DoTakeDone))
  {
  }

  lemma ReaderFailures(s: State, a: Action)
    requires Failures(s) && Enabled(s, a) && (ReaderStep(a) || a == DoDelivered || a == DoBatchEnd)
    ensures Failures(Apply(s, a))
  {
    if ReaderStep(a) {
      ReaderStepReg(s, a);
      ReaderConn(s, a);
    }
    SameFailures(s, Apply(s, a));
  }

  lemma ReaderConn(s: State, a: Action)
    requires Enabled(s, a) && ReaderStep(a)
    ensures Apply(s, a).lastOp == s.lastOp && Apply(s, a).writeConn == s.writeConn
  {
    match a
    case DoRead(_, _) =>
    case DoReadFail(_) =>
    case DoTakeBatch(_) =>
    case DoTakeErr(_) =>
    case DoClose =>
  }

  lemma {:induction false} FailuresRun(s: State, acts: seq<Action>)
    requires Inv(s) && Failures(s) && Runnable(s, acts)
    ensures Failures(Run(s, acts))
    decreases |acts|
  {
    if acts != [] {
      StepKeeps(s, acts[0]);
      FailuresStep(s, acts[0]);
      FailuresRun(Apply(s, acts[0]), acts[1..]);
    }
  }

  lemma ReachableFailures(s: State)
    requires Reachable(s)
    ensures Inv(s) && Failures(s)
  {
    ReachableInv(s);
    InitInv();
    var acts :| Runnable(Init(), acts) && Run(Init(), acts) == s;
    FailuresRun(Init(), acts);
  }

  // A request whose send was reported as failed is waited for no longer once dispatch has taken the completion.
  lemma FailedSendIsForgotten(s: State, o: OpId)
    requires Reachable(s) && o in s.reg.ops && s.reg.ops[o].pc.Sent? && s.reg.ops[o].pc.res.Some? && s.lastOp != Some(o)
    ensures Pending(s.reg, o) == {}
  {
    ReachableFailures(s);
    assert forall id :: id in s.reg.respWait ==> Awaits(s.reg.ops, s.reg.respWait[id], id);
  }

  // After a failed write nobody writes on the old connection: until a sender hands over a new one, whoever is in write
  // can dial and cannot write.
  lemma FailedWriteRedials(s: State, o: OpId, acts: seq<Action>, p: OpId)
    requires Reachable(s) && o in s.reg.ops && s.reg.ops[o].pc == Wrote(Some(WriteError))
    requires Runnable(s, acts) && (forall a :: a in acts ==> !a.DoHandOver?) && At(Run(s, acts), p, Writing)
    ensures forall ok: bool :: Enabled(Run(s, acts), DoRedial(p, ok)) && !Enabled(Run(s, acts), DoWrite(p, ok))
  {
    ReachableFailures(s);
    NoConnStays(s, acts);
    forall ok: bool
      ensures Enabled(Run(s, acts), DoRedial(p, ok)) && !Enabled(Run(s, acts), DoWrite(p, ok))
    {
      DialsOnly(Run(s, acts), p, ok);
    }
  }

  lemma DialsOnly(s: State, p: OpId, ok: bool)
    requires s.writeConn.None? && At(s, p, Writing)
    ensures Enabled(s, DoRedial(p, ok)) && !Enabled(s, DoWrite(p, ok))
  {
  }

  lemma {:induction false} NoConnStays(s: State, acts: seq<Action>)
    requires s.writeConn.None? && Runnable(s, acts) && forall a :: a in acts ==> !a.DoHandOver?
    ensures Run(s, acts).writeConn.None?
    decreases |acts|
  {
    if acts != [] {
      assert acts[0] in acts;
      NoConnStep(s, acts[0]);
      NoConnStays(Apply(s, acts[0]), acts[1..]);
    }
  }

  lemma NoConnStep(s: State, a: Action)
    requires s.writeConn.None? && Enabled(s, a) && !a.DoHandOver?
    ensures Apply(s, a).writeConn.None?
  {
    if a == DoMessage {
      MessageEffect(s);
    }
  }

  // ---- Reconnection ----

  // A new connection is taken as soon as dispatch is at its select. If no read loop runs, one is started on it at once.
  // Otherwise dispatch waits for the old one, and its error starts the new one; in both cases the client then reads
  // from the connection that it writes to.
  lemma ReconnectIsTaken(s: State, o: OpId)
    requires Reachable(s) && s.loop == Select && o in s.reg.ops && s.reg.ops[o].pc.Redialed?
    ensures Enabled(s, DoHandOver(o))
    ensures var c, t := s.reg.ops[o].pc.conn, Apply(s, DoHandOver(o));
            && t.writeConn == Some(c) && At(t, o, Writing)
            && if s.reading then t.loop == AwaitErr(c) && t.readers == s.readers else ReadsFrom(t, c)
  {
    ReachableInv(s);
    TakesConn(s, o);
    assert s.reading || s.readers == map[];
  }

  predicate ReadsFrom(s: State, c: Conn)
  {
    s.loop == Select && s.reading && s.conn == c && s.readers == map[c := Reading]
  }

  lemma TakesConn(s: State, o: OpId)
    requires s.loop == Select && o in s.reg.ops && s.reg.ops[o].pc.Redialed?
    ensures Enabled(s, DoHandOver(o))
    ensures var c, t := s.reg.ops[o].pc.conn, Apply(s, DoHandOver(o));
            && t.writeConn == Some(c) && At(t, o, Writing)
            && t.loop == (if s.reading then AwaitErr(c) else Select) && t.reading
            && t.readers == (if s.reading then s.readers else s.readers[c := Reading])
            && t.conn == if s.reading then s.conn else c
  {
  }

  lemma OldReaderEnds(s: State)
    requires Reachable(s) && s.loop.AwaitErr? && s.conn in s.readers && s.readers[s.conn] == OfferErr
    ensures Enabled(s, DoTakeErr(s.conn)) && ReadsFrom(Apply(s, DoTakeErr(s.conn)), s.loop.next)
    ensures Apply(s, DoTakeErr(s.conn)).reg == s.reg
  {
    ReachableInv(s);
    EndsOldReader(s);
    assert s.readers - {s.conn} == map[];
  }

  lemma EndsOldReader(s: State)
    requires s.loop.AwaitErr? && s.conn in s.readers && s.readers[s.conn] == OfferErr
    ensures Enabled(s, DoTakeErr(s.conn))
    ensures Apply(s, DoTakeErr(s.conn)) ==
              s.(readers := (s.readers - {s.conn})[s.loop.next := Reading], reading := true, conn := s.loop.next,
                 loop := Select)
  {
  }

  // The wait for the old read loop ends only with its error. A read loop that holds a batch cannot offer one: dispatch
  // then waits for ever, whatever the others do.
  lemma {:induction false} ReconnectStuck(s: State, acts: seq<Action>)
    requires Reachable(s) && Runnable(s, acts)
    requires s.loop.AwaitErr? && s.conn in s.readers && s.readers[s.conn].OfferBatch?
    ensures Run(s, acts).loop == s.loop && Run(s, acts).readers == s.readers
    decreases |acts|
  {
    if acts != [] {
      ReachableInv(s);
      ReachableStep(s, acts[0]);
      StuckStep(s, acts[0]);
      ReconnectStuck(Apply(s, acts[0]), acts[1..]);
    }
  }

  lemma StuckStep(s: State, a: Action)
    requires s.loop.AwaitErr? && s.readers.Keys == {s.conn} && s.readers[s.conn].OfferBatch? && Enabled(s, a)
    ensures var t := Apply(s, a); t.loop == s.loop && t.readers == s.readers && t.conn == s.conn
  {
    KindsOfSteps(a);
  }

  ghost predicate CanReconnect(s: State)
  {
    exists acts :: Runnable(s, acts) && Run(s, acts).loop == Select
  }

  lemma ReconnectsExactly(s: State)
    requires Reachable(s) && s.loop.AwaitErr?
    ensures s.conn in s.readers
    ensures CanReconnect(s) <==> !s.readers[s.conn].OfferBatch?
  {
    ReachableInv(s);
    if s.readers[s.conn].OfferBatch? {
      if acts :| Runnable(s, acts) && Run(s, acts).loop == Select {
        ReconnectStuck(s, acts);
      }
    } else {
      var acts := Reconnect(s);
    }
  }

  lemma Reconnect(s: State) returns (acts: seq<Action>)
    requires s.loop.AwaitErr? && s.conn in s.readers && !s.readers[s.conn].OfferBatch?
    ensures Runnable(s, acts) && Run(s, acts).loop == Select
  {
    var last := [DoTakeErr(s.conn)];
    if s.readers[s.conn] == Reading {
      Fails(s);
      LastStep(Apply(s, DoReadFail(s.conn)));
      acts := [DoReadFail(s.conn)] + last;
      assert acts[1..] == last;
    } else {
      LastStep(s);
      acts := last;
    }
  }

  lemma LastStep(s: State)
    requires s.loop.AwaitErr? && s.conn in s.readers && s.readers[s.conn] == OfferErr
    ensures Runnable(s, [DoTakeErr(s.conn)]) && Run(s, [DoTakeErr(s.conn)]).loop == Select
  {
    EndsOldReader(s);
    var t := Apply(s, DoTakeErr(s.conn));
    assert [DoTakeErr(s.conn)][1..] == [];
    assert Runnable(t, []) && Run(t, []) == t;
  }

  lemma Fails(s: State)
    requires s.conn in s.readers && s.readers[s.conn] == Reading
    ensures Enabled(s, DoReadFail(s.conn))
    ensures Apply(s, DoReadFail(s.conn)) == s.(readers := s.readers[s.conn := OfferErr])
  {
  }
}
