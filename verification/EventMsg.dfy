// The state of the event loop in node/subscribe/subscribe.go: the index of subscriptions, changed in place.

module EventMsgs {
  import opened Channels
  import M = EventBroadcasts

  // sent is what went into the user's channel so far.
  class Subscription {
    const id: M.Id
    const kind: M.Kind
    var sent: seq<M.Event>
    var installed: Chan<()>
    var err: Chan<()>

    constructor (id: M.Id, kind: M.Kind)
      ensures this.id == id && this.kind == kind
      ensures sent == [] && installed == err == Make(0)
    {
      this.id, this.kind := id, kind;
      sent, installed, err := [], Make(0), Make(0);
    }
  }

  // What the select of the event loop finds, turn by turn.
  datatype Case = Event(ev: M.Event) | Install(f: Subscription) | Uninstall(f: Subscription) | Stop

  class EventMsg {
    var index: map<M.Kind, map<M.Id, Subscription>>

    ghost predicate Valid()
      reads this
    {
      && (forall k: M.Kind :: k in index)
      && (forall k, id :: k in index && id in index[k] ==> index[k][id].id == id && index[k][id].kind == k)
    }

    predicate Lists(f: Subscription)
      reads this
    {
      f.kind in index && f.id in index[f.kind] && index[f.kind][f.id] == f
    }

    ghost function Bucket(kind: M.Kind): set<Subscription>
      reads this
      requires Valid()
    {
      index[kind].Values
    }

    lemma InBucket(kind: M.Kind, f: Subscription)
      requires Valid()
      ensures f in Bucket(kind) <==> Lists(f) && f.kind == kind
    {
    }

    constructor ()
      ensures Valid()
      ensures forall k: M.Kind :: k in index && index[k] == map[]
    {
      index := map[M.ResultsTask := map[], M.NewTask := map[]];
      new;
      forall k: M.Kind ensures k in index && index[k] == map[] {
        match k
        case ResultsTask => assert M.ResultsTask in index;
        case NewTask => assert M.NewTask in index;
      }
    }

    // Another subscription under the same id and type would be dropped from the index.
    method InstallSub(f: Subscription)
      requires Valid()
      modifies this, f
      ensures Valid() && index == old(index)[f.kind := old(index[f.kind])[f.id := f]]
      ensures f.installed == old(f.installed.Close()) && f.err == old(f.err) && f.sent == old(f.sent)
    {
      index := index[f.kind := index[f.kind][f.id := f]];
      f.installed := f.installed.Close();
    }

    method UninstallSub(f: Subscription)
      requires Valid()
      modifies this, f
      ensures Valid() && index == old(index)[f.kind := old(index[f.kind]) - {f.id}]
      ensures f.err == old(f.err.Close()) && f.installed == old(f.installed) && f.sent == old(f.sent)
    {
      index := index[f.kind := index[f.kind] - {f.id}];
      f.err := f.err.Close();
    }

    // Every subscription of the kind gets the event, once.
    method Broadcast(ev: M.Event)
      requires Valid()
      modifies Bucket(M.KindOf(ev))
      ensures Valid()
      ensures forall f :: f in Bucket(M.KindOf(ev)) ==>
        f.sent == old(f.sent) + [ev] && f.installed == old(f.installed) && f.err == old(f.err)
      ensures forall f :: f in Bucket(M.ResultsTask) ==> f.sent == old(f.sent) + if ev.Results? then [ev] else []
      ensures forall f :: f in Bucket(M.NewTask) ==> f.sent == old(f.sent) + if ev.Added? then [ev] else []
    {
      var subs := index[M.KindOf(ev)];
      var rest := subs.Keys;
      while rest != {}
        invariant rest <= subs.Keys
        invariant forall id :: id in subs ==>
                    subs[id].installed == old(subs[id].installed) && subs[id].err == old(subs[id].err)
        invariant forall id :: id in subs ==> subs[id].sent == old(subs[id].sent) + if id in rest then [] else [ev]
      {
        var id :| id in rest;
        subs[id].sent := subs[id].sent + [ev];
        rest := rest - {id};
      }
    }

    // all are the subscriptions that take part.
    ghost predicate Known(all: set<Subscription>)
      reads this
    {
      Valid() && forall k, id :: k in index && id in index[k] ==> index[k][id] in all
    }

    // One turn of the loop.
    method Turn(c: Case, ghost all: set<Subscription>)
      requires Known(all) && Distinct(all) && c != Stop && (c.Install? || c.Uninstall? ==> c.f in all)
      modifies this, all
      ensures Known(all)
      ensures forall f :: f in all ==> Lists(f) == AfterTurn(c, f, old(Lists(f)))
      ensures forall f :: f in all ==> f.sent == old(f.sent) + SentIn(c, f, old(Lists(f)))
    {
      match c {
        case Event(ev) =>
          forall f | f in all {
            InBucket(M.KindOf(ev), f);
          }
          Broadcast(ev);
        case Install(f) => InstallSub(f);
        case Uninstall(f) => UninstallSub(f);
      }
    }

    // n is the number of turns before the loop returned.
    method EventLoop(cases: seq<Case>, ghost all: set<Subscription>) returns (n: nat)
      requires Known(all) && Distinct(all) && forall c :: c in cases && (c.Install? || c.Uninstall?) ==> c.f in all
      modifies this, all
      ensures Known(all)
      ensures n <= |cases| && (forall k :: 0 <= k < n ==> cases[k] != Stop) && (n < |cases| ==> cases[n] == Stop)
      ensures forall f :: f in all ==> Followed(cases, n, f, old(Lists(f)), old(f.sent), Lists(f), f.sent)
    {
      n := 0;
      while n < |cases| && cases[n] != Stop
        invariant n <= |cases| && forall k :: 0 <= k < n ==> cases[k] != Stop
        invariant Known(all)
        invariant forall f :: f in all ==> Followed(cases, n, f, old(Lists(f)), old(f.sent), Lists(f), f.sent)
      {
        label Before:
        Turn(cases[n], all);
        forall f | f in all ensures Followed(cases, n + 1, f, old(Lists(f)), old(f.sent), Lists(f), f.sent) {
          FollowedTurn(cases, n, f, old(Lists(f)), old(f.sent), old@Before(Lists(f)), old@Before(f.sent));
        }
        n := n + 1;
      }
    }
  }

  // server.NewID does not give an id twice.
  ghost predicate Distinct(all: set<Subscription>)
  {
    forall f, g :: f in all && g in all && f.id == g.id ==> f == g
  }

  // Whether f is in the index after a turn.
  ghost predicate AfterTurn(c: Case, f: Subscription, before: bool)
  {
    c == Install(f) || (c != Uninstall(f) && before)
  }

  ghost function SentIn(c: Case, f: Subscription, before: bool): seq<M.Event>
  {
    if c.Event? && M.KindOf(c.ev) == f.kind && before then [c.ev] else []
  }

  ghost predicate Listed(cases: seq<Case>, f: Subscription, before: bool)
  {
    if cases == [] then before else AfterTurn(cases[|cases| - 1], f, Listed(cases[..|cases| - 1], f, before))
  }

  ghost function SentTo(cases: seq<Case>, f: Subscription, before: bool): seq<M.Event>
  {
    if cases == [] then []
    else
      var k := |cases| - 1;
      SentTo(cases[..k], f, before) + SentIn(cases[k], f, Listed(cases[..k], f, before))
  }

  ghost function Log(cases: seq<Case>): seq<M.Event>
  {
    if cases == [] then []
    else
      var k := |cases| - 1;
      Log(cases[..k]) + if cases[k].Event? then [cases[k].ev] else []
  }

  ghost predicate Untouched(cases: seq<Case>, f: Subscription)
  {
    Install(f) !in cases && Uninstall(f) !in cases
  }

  lemma SentOneMore(cases: seq<Case>, c: Case, f: Subscription, before: bool)
    ensures Listed(cases + [c], f, before) == AfterTurn(c, f, Listed(cases, f, before))
    ensures SentTo(cases + [c], f, before) == SentTo(cases, f, before) + SentIn(c, f, Listed(cases, f, before))
  {
    assert (cases + [c])[..|cases|] == cases;
  }

  lemma LogOneMore(cases: seq<Case>, c: Case, kind: M.Kind)
    ensures M.OfKind(kind, Log(cases + [c])) ==
      M.OfKind(kind, Log(cases)) + if c.Event? && M.KindOf(c.ev) == kind then [c.ev] else []
  {
    assert (cases + [c])[..|cases|] == cases;
    if c.Event? {
      assert (Log(cases) + [c.ev])[..|Log(cases)|] == Log(cases);
    } else {
      assert Log(cases + [c]) == Log(cases);
    }
  }

  lemma {:induction false} SentWhileListed(cases: seq<Case>, f: Subscription, before: bool)
    requires Untouched(cases, f)
    ensures Listed(cases, f, before) == before
    ensures SentTo(cases, f, before) == if before then M.OfKind(f.kind, Log(cases)) else []
  {
    if cases != [] {
      var init, c := cases[..|cases| - 1], cases[|cases| - 1];
      assert cases == init + [c];
      SentWhileListed(init, f, before);
      SentOneMore(init, c, f, before);
      LogOneMore(init, c, f.kind);
    }
  }

  lemma {:induction false} SentSplits(first: seq<Case>, second: seq<Case>, f: Subscription, before: bool)
    ensures Listed(first + second, f, before) == Listed(second, f, Listed(first, f, before))
    ensures SentTo(first + second, f, before) == SentTo(first, f, before) + SentTo(second, f, Listed(first, f, before))
    decreases |second|
  {
    if second == [] {
      assert first + second == first;
    } else {
      var init, c := second[..|second| - 1], second[|second| - 1];
      assert second == init + [c] && first + second == first + init + [c];
      SentSplits(first, init, f, before);
      SentOneMore(first + init, c, f, before);
      SentOneMore(init, c, f, Listed(first, f, before));
    }
  }

  // What n turns do to a subscription that was listed or not and had been sent some events.
  ghost predicate Followed(cases: seq<Case>, n: nat, f: Subscription,
                           before: bool, sent: seq<M.Event>, after: bool, now: seq<M.Event>)
  {
    n <= |cases| && after == Listed(cases[..n], f, before) && now == sent + SentTo(cases[..n], f, before)
  }

  lemma FollowedTurn(cases: seq<Case>, n: nat, f: Subscription,
                     before: bool, sent: seq<M.Event>, after: bool, now: seq<M.Event>)
    requires n < |cases| && Followed(cases, n, f, before, sent, after, now)
    ensures Followed(cases, n + 1, f, before, sent, AfterTurn(cases[n], f, after), now + SentIn(cases[n], f, after))
  {
    assert cases[..n + 1] == cases[..n] + [cases[n]];
    SentOneMore(cases[..n], cases[n], f, before);
  }

  lemma SentInStretch(first: seq<Case>, second: seq<Case>, f: Subscription)
    requires Untouched(second, f)
    ensures
      var listed := Listed(first, f, false);
      && Listed(first + second, f, false) == listed
      && SentTo(first + second, f, false) ==
           SentTo(first, f, false) + if listed then M.OfKind(f.kind, Log(second)) else []
  {
    SentSplits(first, second, f, false);
    SentWhileListed(second, f, Listed(first, f, false));
  }

  lemma SentUntilNow(a: seq<Case>, b: seq<Case>, f: Subscription)
    requires Untouched(a, f) && Untouched(b, f)
    ensures Listed(a + [Install(f)] + b, f, false)
    ensures SentTo(a + [Install(f)] + b, f, false) == M.OfKind(f.kind, Log(b))
  {
    SentWhileListed(a, f, false);
    SentOneMore(a, Install(f), f, false);
    SentInStretch(a + [Install(f)], b, f);
  }

  // Over the life of a subscription, from its install to its uninstall, the loop sends it the events of its kind in
  // the order in which it takes them, and nothing before or after.
  lemma SentIsSegment(a: seq<Case>, b: seq<Case>, c: seq<Case>, f: Subscription)
    requires Untouched(a, f) && Untouched(b, f) && Untouched(c, f)
    ensures SentTo(a + [Install(f)] + b + [Uninstall(f)] + c, f, false) == M.OfKind(f.kind, Log(b))
  {
    var life := a + [Install(f)] + b;
    SentUntilNow(a, b, f);
    SentOneMore(life, Uninstall(f), f, false);
    SentInStretch(life + [Uninstall(f)], c, f);
  }

  lemma {:induction false} LogSplits(first: seq<Case>, second: seq<Case>)
    ensures Log(first + second) == Log(first) + Log(second)
    decreases |second|
  {
    if second == [] {
      assert first + second == first;
    } else {
      var k := |second| - 1;
      assert (first + second)[..|first + second| - 1] == first + second[..k];
      LogSplits(first, second[..k]);
    }
  }

  // It is the segment that the protocol of the event loop speaks of: cut from the log of all turns at the lengths that
  // the log had at the install and at the uninstall.
  lemma SentIsSegmentOfLog(a: seq<Case>, b: seq<Case>, c: seq<Case>, f: Subscription, sub: M.Sub)
    requires Untouched(a, f) && Untouched(b, f) && Untouched(c, f)
    requires sub.kind == f.kind && sub.Uninstalled() && sub.start == |Log(a)| && sub.end == |Log(a)| + |Log(b)|
    ensures var cases := a + [Install(f)] + b + [Uninstall(f)] + c;
            sub.end <= |Log(cases)| && SentTo(cases, f, false) == M.Segment(sub, Log(cases))
  {
    var life := a + [Install(f)] + b;
    SentIsSegment(a, b, c, f);
    LogSplits(a, [Install(f)]);
    LogSplits(a + [Install(f)], b);
    LogSplits(life, [Uninstall(f)]);
    LogSplits(life + [Uninstall(f)], c);
    assert Log(life + [Uninstall(f)] + c)[sub.start..sub.end] == Log(b);
  }
}
