// The end of a subscription in client/client.go: any number of goroutines in Unsubscribe and quitWithError (the
// forwarder when it exits, the dispatch loop in closeRequestOps), over the two sync.Once values of the subscription.

module ClientSubscriptions {
  import opened Channels
  import M = ClientModel

  type Caller = nat

  datatype Once = Fresh | Running(caller: Caller) | Done

  // A goroutine that ends the subscription: what it passes to quitWithError, whether it is in Unsubscribe, and
  // where it stands. The points of quitWithError lie inside quitOnce.
  datatype Pc =
    | AtQuitOnce                    // about to enter quitOnce.Do, or waiting in it for the one who runs it
    | ClosingQuit
    | Requesting                    // in requestUnsubscribe
    | SendingErr
    | LeavingOnce
    | AtErrOnce                     // quitWithError has returned
    | Returned

  datatype Call = Call(unsubscribe: bool, err: Option<M.Err>, server: bool, pc: Pc)

  // The value sent on err: ErrClientQuit becomes nil.
  function SentValue(err: M.Err): Option<M.Err>
  {
    if err == M.ClientQuit then None else Some(err)
  }

  // values records what was ever sent on err, first who ran the body of quitOnce, and requests how often the server was
  // asked to unsubscribe.
  datatype State = State(quit: Chan<()>, err: Chan<Option<M.Err>>, quitOnce: Once, errClosed: bool,
                         calls: map<Caller, Call>, values: seq<Option<M.Err>>, first: Option<Caller>, requests: nat)

  function Init(): State
  {
    State(Make(0), Make(1), Fresh, false, map[], [], None, 0)
  }

  datatype Action =
    | Unsubscribe(c: Caller)                                    // a user calls Unsubscribe
    | QuitWithError(c: Caller, err: Option<M.Err>, server: bool) // the forwarder or dispatch ends the subscription
    | Enter(c: Caller)                                          // quitOnce.Do: run the body, or find it done
    | CloseQuit(c: Caller)
    | RequestDone(c: Caller)
    | SendErr(c: Caller)
    | Leave(c: Caller)
    | CloseErr(c: Caller)                                       // errOnce.Do in Unsubscribe
    | TakeErr                                                   // someone reads Err()

  predicate At(s: State, c: Caller, pc: Pc)
  {
    c in s.calls && s.calls[c].pc == pc
  }

  // A second caller of quitOnce.Do waits until the first has returned.
  predicate Enabled(s: State, a: Action)
  {
    match a
    case Unsubscribe(c) => c !in s.calls
    case QuitWithError(c, _, _) => c !in s.calls
    case Enter(c) => At(s, c, AtQuitOnce) && !s.quitOnce.Running?
    case CloseQuit(c) => At(s, c, ClosingQuit)
    case RequestDone(c) => At(s, c, Requesting)
    case SendErr(c) => At(s, c, SendingErr)
    case Leave(c) => At(s, c, LeavingOnce)
    case CloseErr(c) => At(s, c, AtErrOnce) && s.calls[c].unsubscribe
    case TakeErr => s.err.buf != []
  }

  function Move(s: State, c: Caller, pc: Pc): State
    requires c in s.calls
  {
    s.(calls := s.calls[c := s.calls[c].(pc := pc)])
  }

  function AfterClose(call: Call): Pc
  {
    if call.server then Requesting else if call.err.Some? then SendingErr else LeavingOnce
  }

  function Apply(s: State, a: Action): State
    requires Enabled(s, a)
  {
    match a
    case Unsubscribe(c) => s.(calls := s.calls[c := Call(true, None, true, AtQuitOnce)])
    case QuitWithError(c, err, server) => s.(calls := s.calls[c := Call(false, err, server, AtQuitOnce)])
    case Enter(c) =>
      if s.quitOnce == Fresh then Move(s, c, ClosingQuit).(quitOnce := Running(c), first := Some(c))
      else Move(s, c, AtErrOnce)
    case CloseQuit(c) => Move(s, c, AfterClose(s.calls[c])).(quit := s.quit.Close())
    case RequestDone(c) =>
      Move(s, c, if s.calls[c].err.Some? then SendingErr else LeavingOnce).(requests := s.requests + 1)
    case SendErr(c) =>
      if s.calls[c].err.None? then Move(s, c, LeavingOnce)
      else
        var v := SentValue(s.calls[c].err.value);
        Move(s, c, LeavingOnce).(err := s.err.Send(v), values := s.values + [v])
    case Leave(c) => Move(s, c, AtErrOnce).(quitOnce := Done)
    case CloseErr(c) => Move(s, c, Returned).(errClosed := true, err := if s.errClosed then s.err else s.err.Close())
    case TakeErr => s.(err := s.err.Rest())
  }

  predicate InOnce(pc: Pc)
  {
    pc.ClosingQuit? || pc.Requesting? || pc.SendingErr? || pc.LeavingOnce?
  }

  predicate AfterOnce(pc: Pc)
  {
    pc.AtErrOnce? || pc.Returned?
  }

  ghost predicate Inv(s: State)
  {
    // Only the caller that runs the body of quitOnce is in it, and the callers behind it came through when it was done.
    && (forall c :: c in s.calls && InOnce(s.calls[c].pc) ==> s.quitOnce == Running(c))
    && (s.quitOnce.Running? ==> s.quitOnce.caller in s.calls && InOnce(s.calls[s.quitOnce.caller].pc))
    && (forall c :: c in s.calls && AfterOnce(s.calls[c].pc) ==> s.quitOnce == Done)
    // quit is closed by that body, once.
    && !s.quit.fault
    && (s.quit.closed <==> s.quitOnce == Done || (s.quitOnce.Running? && !s.calls[s.quitOnce.caller].pc.ClosingQuit?))
    // err gets at most one value, from that body, and is closed only after it.
    && s.err.cap == 1 && !s.err.fault && (s.err.closed <==> s.errClosed)
    && (s.errClosed ==> s.quitOnce == Done)
    && |s.err.buf| <= |s.values| <= 1
    && (s.quitOnce == Fresh ==> s.values == [])
    && (s.quitOnce.Running? && !s.calls[s.quitOnce.caller].pc.LeavingOnce? ==> s.values == [])
    && (forall c :: c in s.calls && s.calls[c].pc == Returned ==> s.errClosed && s.calls[c].unsubscribe)
  }

  lemma InitInv()
    ensures Inv(Init())
  {
  }

  lemma StepKeeps(s: State, a: Action)
    requires Inv(s) && Enabled(s, a)
    ensures Inv(Apply(s, a))
  {
    match a
    case Unsubscribe(_) =>
    case QuitWithError(_, _, _) =>
    case Enter(_) =>
    case CloseQuit(_) =>
    case RequestDone(_) =>
    case SendErr(c) => SendErrKeeps(s, c);
    case Leave(_) =>
    case CloseErr(_) =>
    case TakeErr =>
  }

  // Only the first caller through quitOnce gets here, and err has had no value yet.
  lemma SendErrKeeps(s: State, c: Caller)
    requires Inv(s) && Enabled(s, SendErr(c))
    ensures Inv(Apply(s, SendErr(c)))
  {
    assert InOnce(s.calls[c].pc) && s.values == [];
  }

  ghost predicate Runnable(s: State, acts: seq<Action>)
    decreases |acts|
  {
    acts == [] || (Enabled(s, acts[0]) && Runnable(Apply(s, acts[0]), acts[1..]))
  }

  function Run(s: State, acts: seq<Action>): State
    requires Runnable(s, acts)
    decreases |acts|
  {
    if acts == [] then s else Run(Apply(s, acts[0]), acts[1..])
  }

  lemma {:induction false} RunKeeps(s: State, acts: seq<Action>)
    requires Inv(s) && Runnable(s, acts)
    ensures Inv(Run(s, acts))
    decreases |acts|
  {
    if acts != [] {
      StepKeeps(s, acts[0]);
      RunKeeps(Apply(s, acts[0]), acts[1..]);
    }
  }

  // Over any interleaving of any number of callers: err receives at most one value, its sender finds room, it is
  // not written to after it was closed, and quit and err are closed at most once; and once an Unsubscribe has
  // returned both are closed.
  lemma TerminationIsSafe(acts: seq<Action>)
    requires Runnable(Init(), acts)
    ensures var s := Run(Init(), acts);
            && |s.values| <= 1 && !s.err.fault && !s.quit.fault
            && (forall c :: c in s.calls && s.calls[c].pc == SendingErr ==> s.err.buf == [] && !s.err.closed)
            && (forall c :: c in s.calls && s.calls[c].pc == Returned ==> s.err.closed && s.quit.closed)
  {
    InitInv();
    RunKeeps(Init(), acts);
  }

  // The subscription never ends with ErrClientQuit on err: closing the client shows there as nil.
  lemma {:induction false} QuitShowsAsNil(s: State, acts: seq<Action>)
    requires Runnable(s, acts) && Some(M.ClientQuit) !in s.values
    ensures Some(M.ClientQuit) !in Run(s, acts).values
    decreases |acts|
  {
    if acts != [] {
      var s' := Apply(s, acts[0]);
      assert s'.values == s.values || s'.values[..|s.values|] == s.values;
      QuitShowsAsNil(s', acts[1..]);
    }
  }

  // ---- Whose end it is ----

  // What the call that ran the body of quitOnce has done so far.
  ghost predicate FirstSays(s: State)
  {
    && (s.first.None? <==> s.quitOnce == Fresh)
    && (s.quitOnce.Running? ==> s.first == Some(s.quitOnce.caller))
    && (s.first.None? ==> s.values == [] && s.requests == 0)
    && (s.first.Some? ==> s.first.value in s.calls && Progress(s, s.calls[s.first.value]))
  }

  ghost predicate Progress(s: State, call: Call)
  {
    match call.pc
    case AtQuitOnce => false
    case ClosingQuit => s.values == [] && s.requests == 0
    case Requesting => s.values == [] && s.requests == 0 && call.server
    case SendingErr => s.values == [] && s.requests == (if call.server then 1 else 0) && call.err.Some?
    case _ => s.requests == (if call.server then 1 else 0) &&
              s.values == match call.err
                          case None => []
                          case Some(e) => if e == M.ClientQuit then [None] else [Some(e)]
  }

  lemma FirstSaysStep(s: State, a: Action)
    requires Inv(s) && FirstSays(s) && Enabled(s, a)
    ensures FirstSays(Apply(s, a))
  {
    match a
    case Unsubscribe(_) =>
    case QuitWithError(_, _, _) =>
    case Enter(_) =>
    case CloseQuit(c) => assert InOnce(s.calls[c].pc);
    case RequestDone(c) => assert InOnce(s.calls[c].pc);
    case SendErr(c) => assert InOnce(s.calls[c].pc);
    case Leave(c) => assert InOnce(s.calls[c].pc);
    case CloseErr(_) =>
    case TakeErr =>
  }

  // The first call to enter quitOnce in a run.
  function FirstEnter(acts: seq<Action>): Option<Caller>
  {
    if acts == [] then None else if acts[0].Enter? then Some(acts[0].c) else FirstEnter(acts[1..])
  }

  lemma {:induction false} FirstRun(s: State, acts: seq<Action>)
    requires Inv(s) && FirstSays(s) && Runnable(s, acts)
    ensures Inv(Run(s, acts)) && FirstSays(Run(s, acts))
    ensures Run(s, acts).first == if s.first.Some? then s.first else FirstEnter(acts)
    decreases |acts|
  {
    if acts != [] {
      StepKeeps(s, acts[0]);
      FirstSaysStep(s, acts[0]);
      FirstStep(s, acts[0]);
      FirstRun(Apply(s, acts[0]), acts[1..]);
    }
  }

  lemma FirstStep(s: State, a: Action)
    requires Enabled(s, a) && (s.first.None? <==> s.quitOnce == Fresh)
    ensures Apply(s, a).first == if s.first.Some? then s.first else if a.Enter? then Some(a.c) else None
  {
  }

  // What a call passes to quitWithError stays what it was.
  lemma {:induction false} CallStays(s: State, acts: seq<Action>, c: Caller)
    requires Runnable(s, acts) && c in s.calls
    ensures c in Run(s, acts).calls
    ensures var call, now := s.calls[c], Run(s, acts).calls[c]; now.err == call.err && now.server == call.server
    decreases |acts|
  {
    if acts != [] {
      CallStays(Apply(s, acts[0]), acts[1..], c);
    }
  }

  // The call with which c ends the subscription: Unsubscribe passes nil and asks the server.
  predicate Ends(a: Action, c: Caller, err: Option<M.Err>, server: bool)
  {
    a == QuitWithError(c, err, server) || (a == Unsubscribe(c) && err.None? && server)
  }

  lemma {:induction false} CallAsMade(s: State, acts: seq<Action>, k: nat, c: Caller, err: Option<M.Err>, server: bool)
    requires Runnable(s, acts) && k < |acts| && Ends(acts[k], c, err, server)
    ensures var t := Run(s, acts); c in t.calls && t.calls[c].err == err && t.calls[c].server == server
    decreases |acts|
  {
    if k == 0 {
      CallStays(Apply(s, acts[0]), acts[1..], c);
    } else {
      CallAsMade(Apply(s, acts[0]), acts[1..], k - 1, c, err, server);
    }
  }

  // Over any interleaving the subscription ends as the first call that enters quitOnce says: once that call has left
  // it, err was sent its error and nothing else, nil for ErrClientQuit, and the server was asked to unsubscribe exactly
  // if that call says so, once.
  lemma EndsAsFirstCallSays(acts: seq<Action>, k: nat, c: Caller, err: Option<M.Err>, server: bool)
    requires Runnable(Init(), acts) && Run(Init(), acts).quitOnce == Done
    requires FirstEnter(acts) == Some(c) && k < |acts| && Ends(acts[k], c, err, server)
    ensures
      var s := Run(Init(), acts);
      && s.values == (if err.None? then [] else if err.value == M.ClientQuit then [None] else [Some(err.value)])
      && s.requests == (if server then 1 else 0)
  {
    InitInv();
    FirstRun(Init(), acts);
    CallAsMade(Init(), acts, k, c, err, server);
  }

  lemma SomebodyWasFirst(acts: seq<Action>)
    requires Runnable(Init(), acts) && Run(Init(), acts).quitOnce == Done
    ensures FirstEnter(acts).Some? && FirstEnter(acts).value in Run(Init(), acts).calls
  {
    InitInv();
    FirstRun(Init(), acts);
  }
}
