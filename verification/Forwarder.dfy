// The forwarder of a subscription in client/client.go: the select loop that queues the notifications of the server
// until the user's channel takes them.

module Forwarder {

  // maxClientSubscriptionBuffer
  const LIMIT: nat := 20000

  // What the select finds ready, turn by turn: sub.quit is closed, the dispatch loop hands over a notification, or the
  // user receives from its channel. A user who finds nothing queued is not served in that turn.
  datatype Offer<Raw> = Quit | Notify(raw: Raw) | Receive

  datatype Decoded<V> = Value(v: V) | Malformed

  // Waiting: every offer was dealt with and the loop is still running. The other outcomes are the pairs
  // (nil, false), (decode error, true) and (ErrSubscriptionQueueOverflow, true).
  datatype Outcome = Waiting | QuitSeen | DecodeFailed | Overflowed

  // ---- What the loop should do, without its buffer ----

  // The notifications that decode, decoded, in the order of their arrival.
  function Values<Raw, V>(decode: Raw -> Decoded<V>, offers: seq<Offer<Raw>>): seq<V>
  {
    if offers == [] then []
    else
      var k := |offers| - 1;
      var before := Values(decode, offers[..k]);
      if offers[k].Notify? && decode(offers[k].raw).Value? then before + [decode(offers[k].raw).v] else before
  }

  // How many of the values the user has not received yet.
  function Backlog<Raw>(offers: seq<Offer<Raw>>): nat
  {
    if offers == [] then 0
    else
      var k := |offers| - 1;
      var before := Backlog(offers[..k]);
      match offers[k]
      case Quit => before
      case Notify(_) => before + 1
      case Receive => if before == 0 then 0 else before - 1
  }

  // What the offer at k does to a loop that has dealt with those before it.
  function Effect<Raw, V>(decode: Raw -> Decoded<V>, offers: seq<Offer<Raw>>, k: nat): Outcome
    requires k < |offers|
  {
    match offers[k]
    case Quit => QuitSeen
    case Receive => Waiting
    case Notify(raw) =>
      if decode(raw).Malformed? then DecodeFailed
      else if Backlog(offers[..k]) == LIMIT then Overflowed
      else Waiting
  }

  // ---- The loop ----

  // n is the number of offers dealt with before the loop returned; queued is dropped when it returns. The loop also
  // returns whether the server is to be asked to unsubscribe.
  method Forward<Raw, V>(decode: Raw -> Decoded<V>, offers: seq<Offer<Raw>>)
    returns (outcome: Outcome, unsubscribeServer: bool, n: nat, delivered: seq<V>, queued: seq<V>)
    ensures n <= |offers|
    ensures forall k :: 0 <= k < n ==> Effect(decode, offers, k) == Waiting
    ensures outcome == if n < |offers| then Effect(decode, offers, n) else Waiting
    ensures outcome == Waiting ==> n == |offers|
    ensures delivered + queued == Values(decode, offers[..n])
    ensures |queued| == Backlog(offers[..n]) <= LIMIT
    ensures unsubscribeServer <==> outcome == DecodeFailed || outcome == Overflowed
    // Which offer ended the loop, and that none did before.
    ensures outcome == QuitSeen <==> n < |offers| && offers[n] == Quit
    ensures outcome == DecodeFailed <==> n < |offers| && offers[n].Notify? && decode(offers[n].raw).Malformed?
    ensures outcome == Overflowed <==>
              n < |offers| && offers[n].Notify? && decode(offers[n].raw).Value? && |queued| == 20000
    ensures forall k :: 0 <= k < n ==> offers[k] != Quit && (offers[k].Notify? ==> decode(offers[k].raw).Value?)
  {
    outcome, unsubscribeServer, n, delivered, queued := Waiting, false, 0, [], [];
    while n < |offers|
      invariant n <= |offers| && outcome == Waiting && !unsubscribeServer
      invariant forall k :: 0 <= k < n ==> Effect(decode, offers, k) == Waiting
      invariant forall k :: 0 <= k < n ==> offers[k] != Quit && (offers[k].Notify? ==> decode(offers[k].raw).Value?)
      invariant delivered + queued == Values(decode, offers[..n])
      invariant |queued| == Backlog(offers[..n]) <= LIMIT
    {
      assert offers[..n + 1][..n] == offers[..n];
      match offers[n] {
        case Quit =>
          outcome := QuitSeen;
          return;
        case Notify(raw) =>
          var decoded := decode(raw);
          if decoded.Malformed? {
            outcome, unsubscribeServer := DecodeFailed, true;
            return;
          }
          if |queued| == LIMIT {
            outcome, unsubscribeServer := Overflowed, true;
            return;
          }
          queued := queued + [decoded.v];
        case Receive =>
          // The send case is only offered while something is queued.
          if |queued| != 0 {
            delivered, queued := delivered + [queued[0]], queued[1..];
          }
      }
      n := n + 1;
    }
    assert offers[..n] == offers;
  }

  // The value of a notification stands among the values behind those of the notifications before it, and there are no
  // other values.
  lemma {:induction false} ValueStands<Raw, V>(decode: Raw -> Decoded<V>, offers: seq<Offer<Raw>>, k: nat)
    requires k < |offers| && offers[k].Notify? && decode(offers[k].raw).Value?
    ensures |Values(decode, offers[..k])| < |Values(decode, offers)|
    ensures Values(decode, offers)[|Values(decode, offers[..k])|] == decode(offers[k].raw).v
  {
    var n := |offers| - 1;
    if k < n {
      ValueStands(decode, offers[..n], k);
      assert offers[..n][..k] == offers[..k];
    }
  }

  lemma {:induction false} ValueSource<Raw, V>(decode: Raw -> Decoded<V>, offers: seq<Offer<Raw>>, m: nat)
    returns (k: nat)
    requires m < |Values(decode, offers)|
    ensures k < |offers| && offers[k].Notify? && decode(offers[k].raw).Value? && |Values(decode, offers[..k])| == m
  {
    k := |offers| - 1;
    if m < |Values(decode, offers[..k])| {
      var n := k;
      k := ValueSource(decode, offers[..n], m);
      assert offers[..n][..k] == offers[..k];
    }
  }

  // ---- When the queue overflows ----

  // Notifications less reads.
  function Excess<Raw>(offers: seq<Offer<Raw>>): int
  {
    if offers == [] then 0
    else
      var k := |offers| - 1;
      Excess(offers[..k]) + match offers[k] case Quit => 0 case Notify(_) => 1 case Receive => -1
  }

  // The backlog is the largest excess of any stretch that ends now.
  lemma {:induction false} BacklogBounds<Raw>(offers: seq<Offer<Raw>>, i: nat)
    requires i <= |offers|
    ensures Excess(offers[i..]) <= Backlog(offers)
  {
    if i < |offers| {
      var k := |offers| - 1;
      BacklogBounds(offers[..k], i);
      assert offers[i..][..|offers[i..]| - 1] == offers[..k][i..];
    }
  }

  lemma {:induction false} BacklogReached<Raw>(offers: seq<Offer<Raw>>) returns (i: nat)
    ensures i <= |offers| && Excess(offers[i..]) == Backlog(offers)
  {
    i := |offers|;
    if Backlog(offers) > 0 {
      var k := |offers| - 1;
      i := BacklogReached(offers[..k]);
      assert offers[i..][..|offers[i..]| - 1] == offers[..k][i..];
    }
  }

  ghost predicate Burst<Raw>(offers: seq<Offer<Raw>>, i: nat, j: nat)
  {
    i <= j <= |offers| && Excess(offers[i..j]) > LIMIT
  }

  // The backlog grows by one at a time.
  lemma {:induction false} BacklogPassesLimit<Raw>(offers: seq<Offer<Raw>>, j: nat) returns (k: nat)
    requires j <= |offers| && Backlog(offers[..j]) > LIMIT
    ensures k < j && offers[k].Notify? && Backlog(offers[..k]) == LIMIT
  {
    k := j - 1;
    assert offers[..j][..k] == offers[..k];
    if Backlog(offers[..k]) > LIMIT {
      k := BacklogPassesLimit(offers, k);
    }
  }

  // A subscription whose notifications all decode and that nobody ends overflows exactly when some stretch of its
  // life has over 20000 more notifications than reads, however the rest of its life went.
  lemma OverflowExactly<Raw, V>(decode: Raw -> Decoded<V>, offers: seq<Offer<Raw>>)
    requires forall k :: 0 <= k < |offers| ==> offers[k] != Quit && (offers[k].Notify? ==> decode(offers[k].raw).Value?)
    ensures (exists k :: 0 <= k < |offers| && Effect(decode, offers, k) == Overflowed) <==>
              (exists i, j :: Burst(offers, i, j))
  {
    if k :| 0 <= k < |offers| && Effect(decode, offers, k) == Overflowed {
      var i := BacklogReached(offers[..k]);
      assert offers[i..k + 1][..k - i] == offers[..k][i..];
      assert Burst(offers, i, k + 1);
    }
    if i: nat, j: nat :| Burst(offers, i, j) {
      assert offers[..j][i..] == offers[i..j];
      BacklogBounds(offers[..j], i);
      var k := BacklogPassesLimit(offers, j);
      assert Effect(decode, offers, k) == Overflowed;
    }
  }
}
