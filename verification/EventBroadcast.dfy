// node/subscribe/subscribe.go as a protocol: the event loop, any number of subscribers, and the channels between
// them. Subscription ids are fresh (server.NewID), and every subscription has a channel of its own.

module EventBroadcasts {
  import opened Channels

  // server.ID
  datatype Id = Id(text: string)

  datatype Kind = ResultsTask | NewTask

  datatype Event = Results(results: seq<int>) | Added(id: int)

  function KindOf(ev: Event): Kind
  {
    if ev.Results? then ResultsTask else NewTask
  }

  // Where the user of a subscription stands: in subscribe, holding the subscription, in the select of Unsubscribe,
  // waiting there for err, or back from Unsubscribe.
  datatype Pc = Installing | Active | Unsubscribing | Leaving | Gone

  // ch is the user's channel (capacity 0 or more) and reading says that somebody is blocked in a receive on it.
  // sent, got, start and end are history: what the loop sent, what was received, and the length of the log of
  // events when the subscription was installed and uninstalled.
  datatype Sub = Sub(kind: Kind, pc: Pc, ch: Chan<Event>, reading: bool, installed: Chan<()>, err: Chan<()>,
                     sent: seq<Event>, got: seq<Event>, start: nat, end: nat)
  {
    predicate InIndex()
    {
      pc.Active? || pc.Unsubscribing?
    }

    predicate Uninstalled()
    {
      pc.Leaving? || pc.Gone?
    }

    // The select of Unsubscribe receives from results, which is nil for a subscription to new tasks.
    predicate Draining()
    {
      pc.Unsubscribing? && kind.ResultsTask?
    }
  }

  function NewSub(kind: Kind, cap: nat): Sub
  {
    Sub(kind, Installing, Make(cap), false, Make(0), Make(0), [], [], 0, 0)
  }

  // broadcast works through the subscriptions of the kind in the order of a Go map, which is any order: rest are those
  // it has not sent to yet, next is the one it is sending to.
  datatype Loop = AtSelect | Broadcasting(ev: Event, rest: set<Id>, next: Option<Id>) | Stopped

  // index holds the ids of es.index; log records the events the loop has taken.
  datatype State = State(subs: map<Id, Sub>, index: set<Id>, loop: Loop, log: seq<Event>)

  function Init(): State
  {
    State(map[], {}, AtSelect, [])
  }

  datatype Action =
    | Subscribe(f: Id, kind: Kind, cap: nat)
    | AcceptInstall(f: Id)
    | StartUnsubscribe(f: Id)
    | AcceptUninstall(f: Id)
    | Return(f: Id)              // Unsubscribe finds err closed
    | StartRead(f: Id)
    | StopRead(f: Id)            // the select around the receive took another case
    | Take(f: Id)                // a reader, or Unsubscribe, takes a buffered event
    | Process(ev: Event)
    | Pick(f: Id)                // the next turn of the loop in broadcast
    | Push(f: Id)                // broadcast sends into the buffer
    | Handoff(f: Id)             // broadcast hands the event to a reader, or to Unsubscribe
    | EndBroadcast
    | Stop

  // The subscription an action is about; the other actions are the loop's own, or make a subscription.
  function Subject(a: Action): Option<Id>
  {
    match a
    case AcceptInstall(f) => Some(f)
    case StartUnsubscribe(f) => Some(f)
    case AcceptUninstall(f) => Some(f)
    case Return(f) => Some(f)
    case StartRead(f) => Some(f)
    case StopRead(f) => Some(f)
    case Take(f) => Some(f)
    case Push(f) => Some(f)
    case Handoff(f) => Some(f)
    case _ => None
  }

  // The loop is blocked in its send to f, or about to complete it.
  predicate Awaits(loop: Loop, f: Id)
  {
    loop.Broadcasting? && loop.next == Some(f) && f in loop.rest
  }

  predicate Ready(loop: Loop, sub: Sub, a: Action)
  {
    match a
    case AcceptInstall(_) => loop.AtSelect? && sub.pc.Installing?
    case StartUnsubscribe(_) => sub.pc.Active?
    case AcceptUninstall(_) => loop.AtSelect? && sub.pc.Unsubscribing?
    case Return(_) => sub.pc.Leaving? && sub.err.CanReceive()
    case StartRead(_) => !sub.reading
    case StopRead(_) => sub.reading
    case Take(_) => (sub.reading || sub.Draining()) && sub.ch.buf != []
    case Push(f) => Awaits(loop, f) && |sub.ch.buf| < sub.ch.cap
    case Handoff(f) => Awaits(loop, f) && (sub.reading || sub.Draining()) && sub.ch.buf == []
    case _ => false
  }

  predicate Enabled(s: State, a: Action)
  {
    match Subject(a)
    case Some(f) => f in s.subs && Ready(s.loop, s.subs[f], a)
    case None =>
      match a
      case Subscribe(f, _, _) => f !in s.subs
      case Pick(f) => s.loop.Broadcasting? && s.loop.next == None && f in s.loop.rest
      case EndBroadcast => s.loop.Broadcasting? && s.loop.rest == {}
      case _ => s.loop.AtSelect?
  }

  function Members(s: State, kind: Kind): (ids: set<Id>)
    ensures forall f :: f in ids <==> f in s.index && f in s.subs && s.subs[f].kind == kind
  {
    set f | f in s.index && f in s.subs && s.subs[f].kind == kind
  }

  // The receiver is done; a reader beside a draining Unsubscribe stays where it is.
  function Received(sub: Sub, ev: Event): Sub
  {
    sub.(got := sub.got + [ev], reading := sub.reading && sub.Draining())
  }

  // now is the length of the log.
  function OnSub(loop: Loop, now: nat, sub: Sub, a: Action): Sub
    requires Ready(loop, sub, a)
  {
    match a
    case AcceptInstall(_) => sub.(pc := Active, installed := sub.installed.Close(), start := now)
    case StartUnsubscribe(_) => sub.(pc := Unsubscribing)
    case AcceptUninstall(_) => sub.(pc := Leaving, err := sub.err.Close(), end := now)
    case Return(_) => sub.(pc := Gone)
    case StartRead(_) => sub.(reading := true)
    case StopRead(_) => sub.(reading := false)
    case Take(_) => Received(sub, sub.ch.buf[0]).(ch := sub.ch.Rest())
    case Push(_) => sub.(ch := sub.ch.Send(loop.ev), sent := sub.sent + [loop.ev])
    case Handoff(_) => Received(sub, loop.ev).(sent := sub.sent + [loop.ev])
  }

  function OnIndex(index: set<Id>, a: Action): set<Id>
  {
    if a.AcceptInstall? then index + {a.f} else if a.AcceptUninstall? then index - {a.f} else index
  }

  // A completed send ends the turn of the loop in broadcast.
  function OnLoop(loop: Loop, a: Action): Loop
  {
    if loop.Broadcasting? && (a.Push? || a.Handoff?) then loop.(rest := loop.rest - {a.f}, next := None) else loop
  }

  function Apply(s: State, a: Action): State
    requires Enabled(s, a)
  {
    match Subject(a)
    case Some(f) =>
      State(s.subs[f := OnSub(s.loop, |s.log|, s.subs[f], a)], OnIndex(s.index, a), OnLoop(s.loop, a), s.log)
    case None =>
      match a
      case Subscribe(f, kind, cap) => s.(subs := s.subs[f := NewSub(kind, cap)])
      case Process(ev) => s.(log := s.log + [ev], loop := Broadcasting(ev, Members(s, KindOf(ev)), None))
      case Pick(f) => s.(loop := s.loop.(next := Some(f)))
      case EndBroadcast => s.(loop := AtSelect)
      case _ => s.(loop := Stopped)
  }

  ghost predicate Runnable(s: State, acts: seq<Action>)
    decreases |acts|
  {
    acts == [] || (Enabled(s, acts[0]) && Runnable(Apply(s, acts[0]), acts[1..]))
  }

  function Run(s: State, acts: seq<Action>): State
    requires Runnable(s, acts)
    decreases |acts|
  {
    if acts == [] then s else Run(Apply(s, acts[0]), acts[1..])
  }

  // ---- Segments of the log ----

  function OfKind(kind: Kind, log: seq<Event>): seq<Event>
  {
    if log == [] then []
    else
      var k := |log| - 1;
      OfKind(kind, log[..k]) + if KindOf(log[k]) == kind then [log[k]] else []
  }

  // The events of its kind that the loop took while the subscription was installed.
  function Segment(sub: Sub, log: seq<Event>): seq<Event>
    requires sub.start <= |log| && (sub.Uninstalled() ==> sub.start <= sub.end <= |log|)
  {
    if sub.pc.Installing? then []
    else if sub.Uninstalled() then OfKind(sub.kind, log[sub.start..sub.end])
    else OfKind(sub.kind, log[sub.start..])
  }

  // What the broadcast in progress still has to send to f.
  function Owed(loop: Loop, f: Id): seq<Event>
  {
    if loop.Broadcasting? && f in loop.rest then [loop.ev] else []
  }

  ghost predicate ChannelsOk(sub: Sub)
  {
    && !sub.ch.fault && !sub.ch.closed && |sub.ch.buf| <= sub.ch.cap
    && !sub.installed.fault && (sub.installed.closed <==> !sub.pc.Installing?)
    && !sub.err.fault && (sub.err.closed <==> sub.Uninstalled())
    && sub.sent == sub.got + sub.ch.buf
  }

  ghost predicate SegmentOk(sub: Sub, log: seq<Event>, owed: seq<Event>)
  {
    && sub.start <= |log| && (sub.Uninstalled() ==> sub.start <= sub.end <= |log|)
    && sub.sent + owed == Segment(sub, log)
  }

  ghost predicate SubOk(s: State, f: Id)
    requires f in s.subs
  {
    && (f in s.index <==> s.subs[f].InIndex())
    && ChannelsOk(s.subs[f])
    && SegmentOk(s.subs[f], s.log, Owed(s.loop, f))
  }

  ghost predicate Inv(s: State)
  {
    && s.index <= s.subs.Keys
    && (s.loop.Broadcasting? ==> s.loop.rest <= Members(s, KindOf(s.loop.ev)))
    && (s.loop.Broadcasting? && s.loop.next.Some? ==> s.loop.next.value in s.loop.rest)
    && (forall f :: f in s.subs ==> SubOk(s, f))
  }

  lemma InitInv()
    ensures Inv(Init())
  {
  }

  lemma ChannelsStep(loop: Loop, now: nat, sub: Sub, a: Action)
    requires Ready(loop, sub, a) && ChannelsOk(sub)
    ensures ChannelsOk(OnSub(loop, now, sub, a))
  {
  }

  lemma SegmentStep(loop: Loop, log: seq<Event>, sub: Sub, a: Action, f: Id)
    requires Subject(a) == Some(f) && Ready(loop, sub, a)
    requires ChannelsOk(sub) && SegmentOk(sub, log, Owed(loop, f))
    requires loop.Broadcasting? && f in loop.rest ==> sub.InIndex()
    ensures SegmentOk(OnSub(loop, |log|, sub, a), log, Owed(OnLoop(loop, a), f))
  {
    if a.AcceptUninstall? {
      assert log[sub.start..|log|] == log[sub.start..];
    }
  }

  lemma SubjectKeeps(s: State, a: Action, f: Id)
    requires Inv(s) && Enabled(s, a) && Subject(a) == Some(f)
    ensures SubOk(Apply(s, a), f)
  {
    assert SubOk(s, f);
    ChannelsStep(s.loop, |s.log|, s.subs[f], a);
    SegmentStep(s.loop, s.log, s.subs[f], a, f);
  }

  // A step on one subscription leaves the others as they are.
  lemma TouchKeeps(s: State, a: Action, f: Id)
    requires Inv(s) && Enabled(s, a) && Subject(a) == Some(f)
    ensures Inv(Apply(s, a))
  {
    SubjectKeeps(s, a, f);
    forall g | g in s.subs && g != f
      ensures SubOk(Apply(s, a), g)
    {
      OtherKeeps(s, a, f, g);
    }
    LoopOk(s, a, f);
  }

  lemma OtherKeeps(s: State, a: Action, f: Id, g: Id)
    requires g in s.subs && SubOk(s, g) && g != f && Enabled(s, a) && Subject(a) == Some(f)
    ensures g in Apply(s, a).subs && SubOk(Apply(s, a), g)
  {
  }

  // A subscription leaves the index only while the loop is not broadcasting.
  lemma LoopOk(s: State, a: Action, f: Id)
    requires Inv(s) && Enabled(s, a) && Subject(a) == Some(f)
    ensures var t := Apply(s, a);
            && t.index <= t.subs.Keys
            && (t.loop.Broadcasting? ==> t.loop.rest <= Members(t, KindOf(t.loop.ev)))
            && (t.loop.Broadcasting? && t.loop.next.Some? ==> t.loop.next.value in t.loop.rest)
  {
    assert SubOk(s, f);
  }

  lemma LogGrows(sub: Sub, log: seq<Event>, ev: Event)
    requires SegmentOk(sub, log, [])
    ensures SegmentOk(sub, log + [ev], if sub.InIndex() && sub.kind == KindOf(ev) then [ev] else [])
  {
    if sub.InIndex() {
      assert (log + [ev])[sub.start..][..|log| - sub.start] == log[sub.start..];
    } else if sub.Uninstalled() {
      assert (log + [ev])[sub.start..sub.end] == log[sub.start..sub.end];
    }
  }

  lemma ProcessKeeps(s: State, ev: Event)
    requires Inv(s) && s.loop.AtSelect?
    ensures Inv(Apply(s, Process(ev)))
  {
    var t := Apply(s, Process(ev));
    forall f | f in t.subs ensures SubOk(t, f) {
      assert SubOk(s, f);
      LogGrows(s.subs[f], s.log, ev);
    }
  }

  lemma LoopKeeps(s: State, a: Action)
    requires Inv(s) && Enabled(s, a) && (a.Subscribe? || a.Pick? || a.EndBroadcast? || a.Stop?)
    ensures Inv(Apply(s, a))
  {
    var t := Apply(s, a);
    forall f | f in t.subs ensures SubOk(t, f) {
      if f in s.subs {
        assert SubOk(s, f);
      }
    }
  }

  lemma StepKeeps(s: State, a: Action)
    requires Inv(s) && Enabled(s, a)
    ensures Inv(Apply(s, a))
  {
    if Subject(a).Some? {
      TouchKeeps(s, a, Subject(a).value);
    } else if a.Process? {
      ProcessKeeps(s, a.ev);
    } else {
      LoopKeeps(s, a);
    }
  }

  lemma {:induction false} RunKeeps(s: State, acts: seq<Action>)
    requires Inv(s) && Runnable(s, acts)
    ensures Inv(Run(s, acts))
    decreases |acts|
  {
    if acts != [] {
      StepKeeps(s, acts[0]);
      RunKeeps(Apply(s, acts[0]), acts[1..]);
    }
  }

  // ---- What subscribers see ----

  // Whenever the loop is back at its select, a subscription was sent exactly the events of its kind that the loop took
  // between its install and its uninstall (or now), in that order; what was received is a prefix of it, and installed
  // and err were closed as often as they should: no double close leaves its mark.
  lemma SubscribersSeeSegments(acts: seq<Action>, f: Id)
    requires Runnable(Init(), acts) && f in Run(Init(), acts).subs
    ensures
      var s := Run(Init(), acts);
      var sub := s.subs[f];
      && SegmentOk(sub, s.log, Owed(s.loop, f))
      && (s.loop.AtSelect? ==> sub.sent == Segment(sub, s.log))
      && sub.got <= sub.sent
      && !sub.ch.fault && !sub.installed.fault && !sub.err.fault
      && (sub.installed.closed <==> !sub.pc.Installing?) && (sub.err.closed <==> sub.Uninstalled())
  {
    InitInv();
    RunKeeps(Init(), acts);
    assert SubOk(Run(Init(), acts), f);
  }

  lemma StepAfterUninstall(s: State, a: Action, f: Id)
    requires Enabled(s, a) && f in s.subs && s.subs[f].Uninstalled()
    requires s.loop.Broadcasting? ==> f !in s.loop.rest
    ensures
      var t := Apply(s, a);
      f in t.subs && t.subs[f].Uninstalled() && t.subs[f].sent == s.subs[f].sent && t.subs[f].err == s.subs[f].err
  {
  }

  // The results among some events, and the new tasks.
  function OnlyResults(log: seq<Event>): seq<Event>
  {
    if log == [] then []
    else OnlyResults(log[..|log| - 1]) + if log[|log| - 1].Results? then [log[|log| - 1]] else []
  }

  function OnlyAdded(log: seq<Event>): seq<Event>
  {
    if log == [] then []
    else OnlyAdded(log[..|log| - 1]) + if log[|log| - 1].Added? then [log[|log| - 1]] else []
  }

  lemma {:induction false} KindsByConstructor(log: seq<Event>)
    ensures OfKind(ResultsTask, log) == OnlyResults(log) && OfKind(NewTask, log) == OnlyAdded(log)
    ensures forall ev :: ev in OnlyResults(log) ==> ev.Results?
    ensures forall ev :: ev in OnlyAdded(log) ==> ev.Added?
  {
    if log != [] {
      KindsByConstructor(log[..|log| - 1]);
    }
  }

  // A results subscription is sent results only and a new-task subscription new tasks only; and whenever the loop is at
  // its select each of them has been sent all of these that the loop took while it was installed.
  lemma EventsReachTheirKind(acts: seq<Action>, f: Id)
    requires Runnable(Init(), acts) && f in Run(Init(), acts).subs
    ensures
      var s := Run(Init(), acts);
      var sub := s.subs[f];
      && (forall ev :: ev in sub.sent ==> if sub.kind.ResultsTask? then ev.Results? else ev.Added?)
      && (s.loop.AtSelect? && sub.InIndex() ==>
            && sub.start <= |s.log|
            && sub.sent == if sub.kind.ResultsTask? then OnlyResults(s.log[sub.start..])
                           else OnlyAdded(s.log[sub.start..]))
      && (s.loop.AtSelect? && sub.Uninstalled() ==>
            && sub.start <= sub.end <= |s.log|
            && sub.sent == if sub.kind.ResultsTask? then OnlyResults(s.log[sub.start..sub.end])
                           else OnlyAdded(s.log[sub.start..sub.end]))
  {
    SubscribersSeeSegments(acts, f);
    var s := Run(Init(), acts);
    var sub := s.subs[f];
    var stretch := if sub.Uninstalled() then s.log[sub.start..sub.end] else s.log[sub.start..];
    KindsByConstructor(stretch);
    assert Segment(sub, s.log) == if sub.pc.Installing? then [] else OfKind(sub.kind, stretch);
    assert forall ev :: ev in sub.sent ==> ev in sub.sent + Owed(s.loop, f);
  }

  // From the uninstall on, in particular once Unsubscribe has returned, nothing more is sent and err stays closed.
  lemma {:induction false} NothingAfterUninstall(s: State, acts: seq<Action>, f: Id)
    requires Inv(s) && Runnable(s, acts) && f in s.subs && s.subs[f].Uninstalled()
    ensures
      var t := Run(s, acts);
      && f in t.subs && t.subs[f].Uninstalled() && f !in t.index && t.subs[f].sent == s.subs[f].sent
      && t.subs[f].err == s.subs[f].err
    decreases |acts|
  {
    assert SubOk(s, f);
    if acts != [] {
      StepKeeps(s, acts[0]);
      StepAfterUninstall(s, acts[0], f);
      NothingAfterUninstall(Apply(s, acts[0]), acts[1..], f);
    }
  }

  lemma {:induction false} LogOnlyGrows(s: State, acts: seq<Action>)
    requires Runnable(s, acts)
    ensures s.log <= Run(s, acts).log
    decreases |acts|
  {
    if acts != [] {
      LogOnlyGrows(Apply(s, acts[0]), acts[1..]);
    }
  }

  // ---- Progress ----

  // The turns, sends and receives that a broadcast can still take.
  ghost function Load(subs: map<Id, Sub>, rest: set<Id>): nat
  {
    if rest == {} then 0
    else
      var f :| f in rest;
      2 + (if f in subs then |subs[f].ch.buf| else 0) + Load(subs, rest - {f})
  }

  lemma {:induction false} LoadWithout(subs: map<Id, Sub>, rest: set<Id>, f: Id)
    requires f in rest
    ensures Load(subs, rest) == 2 + (if f in subs then |subs[f].ch.buf| else 0) + Load(subs, rest - {f})
  {
    var g :| g in rest && Load(subs, rest) == 2 + (if g in subs then |subs[g].ch.buf| else 0) + Load(subs, rest - {g});
    if g != f {
      LoadWithout(subs, rest - {g}, f);
      LoadWithout(subs, rest - {f}, g);
      assert rest - {g} - {f} == rest - {f} - {g};
    }
  }

  lemma {:induction false} LoadFrame(subs: map<Id, Sub>, rest: set<Id>, f: Id, sub: Sub)
    requires f !in rest
    ensures Load(subs[f := sub], rest) == Load(subs, rest)
  {
    if rest != {} {
      var g :| g in rest;
      LoadWithout(subs, rest, g);
      LoadWithout(subs[f := sub], rest, g);
      LoadFrame(subs, rest - {g}, f, sub);
    }
  }

  ghost function Measure(s: State): nat
  {
    if s.loop.Broadcasting?
    then 1 + Load(s.subs, s.loop.rest) - if s.loop.next.Some? && s.loop.rest != {} then 1 else 0
    else 0
  }

  // The steps that bring a broadcast to its end.
  predicate Advances(s: State, a: Action)
  {
    s.loop.Broadcasting? && (a.EndBroadcast? || a.Pick? || a.Push? || a.Handoff? || (a.Take? && a.f in s.loop.rest))
  }

  lemma LoadAfter(subs: map<Id, Sub>, rest: set<Id>, f: Id, sub: Sub)
    requires f in rest && f in subs
    ensures Load(subs[f := sub], rest) == Load(subs, rest) - |subs[f].ch.buf| + |sub.ch.buf|
    ensures Load(subs[f := sub], rest - {f}) == Load(subs, rest) - 2 - |subs[f].ch.buf|
  {
    LoadFrame(subs, rest - {f}, f, sub);
    LoadWithout(subs, rest, f);
    LoadWithout(subs[f := sub], rest, f);
  }

  lemma BufferAfter(loop: Loop, now: nat, sub: Sub, a: Action)
    requires Ready(loop, sub, a)
    ensures |OnSub(loop, now, sub, a).ch.buf| ==
              |sub.ch.buf| + if a.Push? && !sub.ch.closed then 1 else if a.Take? then -1 else 0
  {
  }

  lemma SubjectMeasure(s: State, a: Action, f: Id)
    requires Inv(s) && Enabled(s, a) && Subject(a) == Some(f) && s.loop.Broadcasting?
    ensures Measure(Apply(s, a)) + (if Advances(s, a) then 1 else 0) <= Measure(s)
  {
    var sub := OnSub(s.loop, |s.log|, s.subs[f], a);
    BufferAfter(s.loop, |s.log|, s.subs[f], a);
    if f in s.loop.rest {
      LoadAfter(s.subs, s.loop.rest, f, sub);
    } else {
      LoadFrame(s.subs, s.loop.rest, f, sub);
    }
  }

  lemma StepMeasure(s: State, a: Action)
    requires Inv(s) && Enabled(s, a) && !a.Process?
    ensures Measure(Apply(s, a)) + (if Advances(s, a) then 1 else 0) <= Measure(s)
  {
    if s.loop.Broadcasting? {
      match Subject(a)
      case Some(f) => SubjectMeasure(s, a, f);
      case None =>
        if a.Subscribe? {
          LoadFrame(s.subs, s.loop.rest, a.f, NewSub(a.kind, a.cap));
        }
    }
  }

  function AdvanceCount(s: State, acts: seq<Action>): nat
    requires Runnable(s, acts)
    decreases |acts|
  {
    if acts == [] then 0
    else (if Advances(s, acts[0]) then 1 else 0) + AdvanceCount(Apply(s, acts[0]), acts[1..])
  }

  // However the subscribers behave and whatever else happens, one broadcast takes boundedly many such steps.
  lemma {:induction false} BroadcastIsBounded(s: State, acts: seq<Action>)
    requires Inv(s) && Runnable(s, acts) && forall a :: a in acts ==> !a.Process?
    ensures AdvanceCount(s, acts) + Measure(Run(s, acts)) <= Measure(s)
    decreases |acts|
  {
    if acts != [] {
      StepMeasure(s, acts[0]);
      StepKeeps(s, acts[0]);
      BroadcastIsBounded(Apply(s, acts[0]), acts[1..]);
    }
  }

  // A send to f can proceed when f is received from or has room.
  predicate Attentive(sub: Sub)
  {
    sub.reading || sub.Draining() || |sub.ch.buf| < sub.ch.cap
  }

  predicate About(a: Action, f: Id)
  {
    a == Push(f) || a == Handoff(f) || a == Take(f)
  }

  // The exact condition under which the loop and its subscriber can move on without anybody's help. An Unsubscribe of
  // a results subscription always meets it. One of a new-task subscription does not when its channel is full.
  lemma ServedExactly(s: State, f: Id)
    requires Inv(s) && f in s.subs && Awaits(s.loop, f)
    ensures (exists a :: About(a, f) && Enabled(s, a) && Advances(s, a)) <==> Attentive(s.subs[f])
    ensures s.subs[f].pc.Unsubscribing? && !s.subs[f].reading ==>
      (Attentive(s.subs[f]) <==> s.subs[f].kind.ResultsTask? || |s.subs[f].ch.buf| < s.subs[f].ch.cap)
  {
    assert SubOk(s, f);
    if Attentive(s.subs[f]) {
      if s.subs[f].ch.buf == [] {
        assert About(Handoff(f), f) && About(Push(f), f);
      } else {
        assert About(Take(f), f) && About(Push(f), f);
      }
    }
  }

  // A loop that broadcasts, or an Unsubscribe that waits for the loop, has a step to take if the subscribers the loop
  // has not sent to are attentive.
  lemma NobodyIsStuck(s: State) returns (a: Action)
    requires Inv(s) && s.loop.Broadcasting? && forall f :: f in s.loop.rest ==> f in s.subs && Attentive(s.subs[f])
    ensures Enabled(s, a) && Advances(s, a)
  {
    if s.loop.next.Some? {
      var f := s.loop.next.value;
      ServedExactly(s, f);
      a :| About(a, f) && Enabled(s, a) && Advances(s, a);
    } else if s.loop.rest == {} {
      a := EndBroadcast;
    } else {
      var f :| f in s.loop.rest;
      a := Pick(f);
    }
  }

  lemma UnsubscribeProceeds(s: State, f: Id) returns (a: Action)
    requires Inv(s) && !s.loop.Stopped? && f in s.subs && (s.subs[f].pc.Unsubscribing? || s.subs[f].pc.Leaving?)
    requires s.loop.Broadcasting? ==> forall g :: g in s.loop.rest ==> g in s.subs && Attentive(s.subs[g])
    ensures Enabled(s, a) && (a == AcceptUninstall(f) || a == Return(f) || Advances(s, a))
  {
    assert SubOk(s, f);
    if s.subs[f].pc.Leaving? {
      a := Return(f);
    } else if s.loop.AtSelect? {
      a := AcceptUninstall(f);
    } else {
      a := NobodyIsStuck(s);
    }
  }

  // ---- Where Unsubscribe does not get through ----

  // The loop sends to a subscription that is not attentive and whose user is in Unsubscribe.
  predicate Blocked(s: State, f: Id)
  {
    f in s.subs && Awaits(s.loop, f) && s.subs[f].pc.Unsubscribing? && !Attentive(s.subs[f])
  }

  // Unless somebody else starts to read from the channel this is for ever: the broadcast goes on, nobody is installed
  // or uninstalled and no event is taken.
  lemma {:induction false} BlockedForever(s: State, acts: seq<Action>, f: Id)
    requires Blocked(s, f) && Runnable(s, acts) && StartRead(f) !in acts
    ensures
      var t := Run(s, acts);
      && Blocked(t, f) && t.subs[f] == s.subs[f]
      && t.loop == s.loop && t.index == s.index && t.log == s.log
    decreases |acts|
  {
    if acts != [] {
      BlockedForever(Apply(s, acts[0]), acts[1..], f);
    }
  }

  // It can happen: an event arrives after a subscriber to new tasks has entered Unsubscribe.
  lemma NewTaskUnsubscribeCanBlock()
    ensures
      var a := Id("a");
      var acts := [Subscribe(a, NewTask, 0), AcceptInstall(a), StartUnsubscribe(a), Process(Added(1)), Pick(a)];
      Runnable(Init(), acts) && Blocked(Run(Init(), acts), a)
  {
    var a := Id("a");
    var s1 := Apply(Init(), Subscribe(a, NewTask, 0));
    var s2 := Apply(s1, AcceptInstall(a));
    var s3 := Apply(s2, StartUnsubscribe(a));
    assert Members(s3, NewTask) == {a};
    var s4 := Apply(s3, Process(Added(1)));
    var s5 := Apply(s4, Pick(a));
    assert Blocked(s5, a);
    RunStep(s4, Pick(a), []);
    RunStep(s3, Process(Added(1)), [Pick(a)]);
    RunStep(s2, StartUnsubscribe(a), [Process(Added(1)), Pick(a)]);
    RunStep(s1, AcceptInstall(a), [StartUnsubscribe(a), Process(Added(1)), Pick(a)]);
    RunStep(Init(), Subscribe(a, NewTask, 0), [AcceptInstall(a), StartUnsubscribe(a), Process(Added(1)), Pick(a)]);
  }

  lemma RunStep(s: State, a: Action, acts: seq<Action>)
    requires Enabled(s, a) && Runnable(Apply(s, a), acts)
    ensures Runnable(s, [a] + acts) && Run(s, [a] + acts) == Run(Apply(s, a), acts)
  {
    assert ([a] + acts)[1..] == acts;
  }

  // ---- Which calls of Unsubscribe can block ----

  predicate Has(s: State, f: Id, pc: Pc)
  {
    f in s.subs && s.subs[f].pc == pc
  }

  // The states that loop and subscribers can be in.
  ghost predicate Reachable(s: State)
  {
    exists acts :: Runnable(Init(), acts) && Run(Init(), acts) == s
  }

  lemma ReachableInv(s: State)
    requires Reachable(s)
    ensures Inv(s)
  {
    InitInv();
    var acts :| Runnable(Init(), acts) && Run(Init(), acts) == s;
    RunKeeps(Init(), acts);
  }

  // A run in which nobody else starts to read f's channel.
  ghost predicate Unaided(s: State, acts: seq<Action>, f: Id)
  {
    Runnable(s, acts) && StartRead(f) !in acts
  }

  ghost predicate CanBlock(s: State, f: Id)
  {
    exists acts :: Unaided(s, acts, f) && Blocked(Run(s, acts), f)
  }

  ghost predicate CanReturn(s: State, f: Id)
  {
    exists acts :: Unaided(s, acts, f) && Has(Run(s, acts), f, Gone)
  }

  predicate Receiving(sub: Sub)
  {
    sub.reading || sub.Draining()
  }

  // Twice the measure, and one more while the subscription that the loop sends to has no receiver.
  ghost function Effort(s: State): nat
  {
    2 * Measure(s) +
    if s.loop.Broadcasting? && s.loop.next.Some? && s.loop.next.value in s.subs && !Receiving(s.subs[s.loop.next.value])
    then 1 else 0
  }

  // The step that brings the send to g forward; g's user starts to read only if nothing else helps.
  lemma Serve(s: State, g: Id) returns (a: Action)
    requires Inv(s) && Awaits(s.loop, g) && g in s.subs
    ensures Enabled(s, a) && Subject(a) == Some(g) && Effort(Apply(s, a)) < Effort(s)
    ensures a == StartRead(g) ==> !Attentive(s.subs[g])
    ensures Apply(s, a).subs[g].pc == s.subs[g].pc && Apply(s, a).subs[g].kind == s.subs[g].kind
    ensures Apply(s, a).loop.Broadcasting?
  {
    var sub := s.subs[g];
    if |sub.ch.buf| < sub.ch.cap {
      a := Push(g);
    } else if !Receiving(sub) {
      a := StartRead(g);
    } else if sub.ch.buf == [] {
      a := Handoff(g);
    } else {
      a := Take(g);
    }
    SubjectMeasure(s, a, g);
  }

  ghost predicate Caught(s: State, f: Id)
  {
    Inv(s) && !s.loop.Stopped? && Has(s, f, Unsubscribing) && s.subs[f].kind.NewTask? && !s.subs[f].reading
  }

  function Room(s: State, f: Id): nat
  {
    if f in s.subs && |s.subs[f].ch.buf| <= s.subs[f].ch.cap then s.subs[f].ch.cap - |s.subs[f].ch.buf| else 0
  }

  // A broadcast that has still to send to f comes last.
  function Phase(s: State, f: Id): nat
  {
    match s.loop
    case Broadcasting(_, rest, _) => if f in rest then 0 else 2
    case _ => 1
  }

  ghost predicate Closer(s: State, t: State, f: Id)
  {
    || Room(t, f) < Room(s, f)
    || (Room(t, f) == Room(s, f) && Phase(t, f) < Phase(s, f))
    || (Room(t, f) == Room(s, f) && Phase(t, f) == Phase(s, f) && Effort(t) < Effort(s))
  }

  // The step of an adversary that fills the channel of f: an event of its kind whenever the loop is at its select.
  lemma FillChannel(s: State, f: Id) returns (a: Action)
    requires Caught(s, f) && !Blocked(s, f)
    ensures Enabled(s, a) && a != StartRead(f) && Caught(Apply(s, a), f) && Closer(s, Apply(s, a), f)
  {
    assert SubOk(s, f);
    if s.loop.AtSelect? {
      a := Process(Added(0));
      FillAtSelect(s, f);
    } else if Awaits(s.loop, f) {
      a := Push(f);
      FillAtSend(s, f);
    } else if s.loop.next.Some? {
      a := Serve(s, s.loop.next.value);
      FillElsewhere(s, f, s.loop.next.value, a);
    } else {
      a := FillBetween(s, f);
    }
    StepKeeps(s, a);
  }

  lemma FillAtSelect(s: State, f: Id)
    requires Caught(s, f) && s.loop.AtSelect?
    ensures var a := Process(Added(0)); StillCaught(s, a, f) && Closer(s, Apply(s, a), f)
  {
    assert SubOk(s, f);
  }

  lemma FillAtSend(s: State, f: Id)
    requires Caught(s, f) && Awaits(s.loop, f) && !Blocked(s, f)
    ensures StillCaught(s, Push(f), f) && Closer(s, Apply(s, Push(f)), f)
  {
    assert SubOk(s, f);
  }

  lemma FillElsewhere(s: State, f: Id, g: Id, a: Action)
    requires Caught(s, f) && Awaits(s.loop, g) && g != f && Enabled(s, a) && Subject(a) == Some(g)
    requires Effort(Apply(s, a)) < Effort(s) && Apply(s, a).loop.Broadcasting?
    ensures StillCaught(s, a, f) && Closer(s, Apply(s, a), f)
  {
  }

  lemma FillBetween(s: State, f: Id) returns (a: Action)
    requires Caught(s, f) && s.loop.Broadcasting? && s.loop.next.None?
    ensures StillCaught(s, a, f) && Closer(s, Apply(s, a), f)
  {
    if s.loop.rest == {} {
      a := EndBroadcast;
    } else {
      var g :| g in s.loop.rest && (f in s.loop.rest ==> g == f);
      a := Pick(g);
      StepMeasure(s, a);
    }
  }

  ghost predicate StillCaught(s: State, a: Action, f: Id)
  {
    && Enabled(s, a) && a != StartRead(f)
    && !Apply(s, a).loop.Stopped? && Has(Apply(s, a), f, Unsubscribing)
    && Apply(s, a).subs[f].kind.NewTask? && !Apply(s, a).subs[f].reading
  }

  lemma {:induction false} DriveToBlock(s: State, f: Id) returns (acts: seq<Action>)
    requires Caught(s, f)
    ensures Unaided(s, acts, f) && Blocked(Run(s, acts), f)
    decreases Room(s, f), Phase(s, f), Effort(s)
  {
    acts := [];
    if !Blocked(s, f) {
      var a := FillChannel(s, f);
      var more := DriveToBlock(Apply(s, a), f);
      acts := [a] + more;
      RunStep(s, a, more);
    }
  }

  // The step that brings a broadcast forward; f is not in need of help.
  lemma FinishBroadcast(s: State, f: Id) returns (a: Action)
    requires Inv(s) && s.loop.Broadcasting? && Has(s, f, Unsubscribing) && s.subs[f].kind.ResultsTask?
    ensures Enabled(s, a) && a != StartRead(f) && Effort(Apply(s, a)) < Effort(s) && !Apply(s, a).loop.Stopped?
    ensures Has(Apply(s, a), f, Unsubscribing) && Apply(s, a).subs[f].kind.ResultsTask?
  {
    if s.loop.next.Some? {
      a := Serve(s, s.loop.next.value);
    } else if s.loop.rest == {} {
      a := EndBroadcast;
    } else {
      var g :| g in s.loop.rest;
      a := Pick(g);
      StepMeasure(s, a);
    }
  }

  lemma {:induction false} DriveToSelect(s: State, f: Id) returns (acts: seq<Action>)
    requires Inv(s) && !s.loop.Stopped? && Has(s, f, Unsubscribing) && s.subs[f].kind.ResultsTask?
    ensures Unaided(s, acts, f) && Run(s, acts).loop.AtSelect? && Has(Run(s, acts), f, Unsubscribing)
    decreases Effort(s)
  {
    acts := [];
    if s.loop.Broadcasting? {
      var a := FinishBroadcast(s, f);
      StepKeeps(s, a);
      var more := DriveToSelect(Apply(s, a), f);
      acts := [a] + more;
      RunStep(s, a, more);
    }
  }

  lemma {:induction false} RunsJoin(s: State, acts: seq<Action>, more: seq<Action>)
    requires Runnable(s, acts) && Runnable(Run(s, acts), more)
    ensures Runnable(s, acts + more) && Run(s, acts + more) == Run(Run(s, acts), more)
    decreases |acts|
  {
    if acts == [] {
      assert acts + more == more;
    } else {
      RunsJoin(Apply(s, acts[0]), acts[1..], more);
      assert (acts + more)[1..] == acts[1..] + more;
    }
  }

  lemma ReturnsFromErr(s: State, f: Id)
    requires Inv(s) && Has(s, f, Leaving)
    ensures Unaided(s, [Return(f)], f) && Has(Run(s, [Return(f)]), f, Gone)
  {
    assert SubOk(s, f);
    RunStep(s, Return(f), []);
    assert [Return(f)] + [] == [Return(f)];
  }

  lemma ReturnsFromSelect(s: State, f: Id)
    requires Inv(s) && s.loop.AtSelect? && Has(s, f, Unsubscribing)
    ensures var acts := [AcceptUninstall(f), Return(f)]; Unaided(s, acts, f) && Has(Run(s, acts), f, Gone)
  {
    StepKeeps(s, AcceptUninstall(f));
    ReturnsFromErr(Apply(s, AcceptUninstall(f)), f);
    RunStep(s, AcceptUninstall(f), [Return(f)]);
    assert [AcceptUninstall(f)] + [Return(f)] == [AcceptUninstall(f), Return(f)];
  }

  lemma ResultsCanReturn(s: State, f: Id)
    requires Inv(s) && f in s.subs && s.subs[f].kind.ResultsTask?
    requires s.subs[f].Uninstalled() || (!s.loop.Stopped? && s.subs[f].pc.Unsubscribing?)
    ensures CanReturn(s, f)
  {
    if s.subs[f].pc.Gone? {
      assert Unaided(s, [], f) && Has(Run(s, []), f, Gone);
    } else if s.subs[f].pc.Leaving? {
      ReturnsFromErr(s, f);
    } else {
      var acts := DriveToSelect(s, f);
      RunKeeps(s, acts);
      ReturnsFromSelect(Run(s, acts), f);
      var more := [AcceptUninstall(f), Return(f)];
      RunsJoin(s, acts, more);
      assert Unaided(s, acts + more, f);
    }
  }

  // Once in Unsubscribe, a user does not come back but from its end, and the kind never changes.
  lemma {:induction false} UnsubscribeGoesOn(s: State, acts: seq<Action>, f: Id)
    requires Unaided(s, acts, f) && f in s.subs && (s.subs[f].pc.Unsubscribing? || s.subs[f].Uninstalled())
    ensures var t := Run(s, acts);
            f in t.subs && t.subs[f].kind == s.subs[f].kind && (t.subs[f].pc.Unsubscribing? || t.subs[f].Uninstalled())
    decreases |acts|
  {
    if acts != [] {
      UnsubscribeGoesOn(Apply(s, acts[0]), acts[1..], f);
    }
  }

  // The user of f has called Unsubscribe, nobody else reads its channel and the loop runs.
  ghost predicate Leaves(s: State, f: Id)
  {
    Reachable(s) && !s.loop.Stopped? && Has(s, f, Unsubscribing) && !s.subs[f].reading
  }

  // Whether the loop can get stuck on the call is decided by the kind of the subscription alone: whatever the capacity
  // and contents of its channel are, and whatever the other subscribers do.
  lemma OnlyNewTasksBlock(s: State, f: Id)
    requires Leaves(s, f)
    ensures CanBlock(s, f) <==> s.subs[f].kind.NewTask?
  {
    ReachableInv(s);
    if s.subs[f].kind.NewTask? {
      var acts := DriveToBlock(s, f);
    } else if acts :| Unaided(s, acts, f) && Blocked(Run(s, acts), f) {
      UnsubscribeGoesOn(s, acts, f);
    }
  }

  // So is whether the call can still return wherever it has got to, as long as the loop is not stopped.
  lemma UnsubscribeReturnsExactly(s: State, f: Id)
    requires Leaves(s, f)
    ensures s.subs[f].kind.ResultsTask? <==>
              forall acts :: Unaided(s, acts, f) && !Run(s, acts).loop.Stopped? ==> CanReturn(Run(s, acts), f)
  {
    ReachableInv(s);
    if s.subs[f].kind.NewTask? {
      var acts := DriveToBlock(s, f);
      var t := Run(s, acts);
      forall more | Unaided(t, more, f)
        ensures !Has(Run(t, more), f, Gone)
      {
        BlockedForever(t, more, f);
      }
      assert !CanReturn(t, f);
    } else {
      forall acts | Unaided(s, acts, f) && !Run(s, acts).loop.Stopped?
        ensures CanReturn(Run(s, acts), f)
      {
        RunKeeps(s, acts);
        UnsubscribeGoesOn(s, acts, f);
        ResultsCanReturn(Run(s, acts), f);
      }
    }
  }
}
