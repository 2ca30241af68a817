// The end of BatchCallContext in client/client.go: the received responses are matched with the elements by id.

module BatchCalls {
  import opened Channels
  import opened ClientModel
  import R = ClientRegistry
  import P = ClientProtocol

  datatype ElemError = ServerSaid | NoResult | BadResult

  // A response as the matching loop sees it: its id, whether it has an error object, whether its result is empty,
  // and whether it decodes into the element's Result.
  datatype Reply = Reply(id: Id, hasError: bool, empty: bool, decodes: bool, value: int)

  // The fields of a BatchElem that the loop sets. A result that fails to decode leaves the old one.
  datatype Elem = Elem(result: int, error: Option<ElemError>)

  function Filled(e: Elem, r: Reply): Elem
  {
    if r.hasError then e.(error := Some(ServerSaid))
    else if r.empty then e.(error := Some(NoResult))
    else if r.decodes then Elem(r.value, None)
    else e.(error := Some(BadResult))
  }

  ghost predicate DistinctReplies(ids: seq<Id>, replies: seq<Reply>)
  {
    && (forall k :: 0 <= k < |replies| ==> replies[k].id in ids)
    && (forall j, k :: 0 <= j < k < |replies| ==> replies[j].id != replies[k].id)
  }

  // The search over the elements finds one for every response, the one whose request had that id; every element is
  // filled at most once, and from the response to its own request.
  method MatchReplies(ids: seq<Id>, replies: seq<Reply>, b: array<Elem>)
    requires b.Length == |ids| && R.Distinct(ids) && DistinctReplies(ids, replies)
    modifies b
    ensures forall i, k :: 0 <= i < |ids| && 0 <= k < |replies| && replies[k].id == ids[i] ==>
              b[i] == Filled(old(b[i]), replies[k])
    // What an element holds then: the value if the response carries one that decodes, and otherwise the old one and
    // the error that says why.
    ensures forall i, k :: 0 <= i < |ids| && 0 <= k < |replies| && replies[k].id == ids[i] ==>
              if !replies[k].hasError && !replies[k].empty && replies[k].decodes
              then b[i].result == replies[k].value && b[i].error == None
              else
                && b[i].result == old(b[i].result)
                && b[i].error == Some(if replies[k].hasError then ServerSaid
                                      else if replies[k].empty then NoResult
                                      else BadResult)
    ensures forall i :: 0 <= i < |ids| && (forall k :: 0 <= k < |replies| ==> replies[k].id != ids[i]) ==>
              b[i] == old(b[i])
  {
    for n := 0 to |replies|
      invariant forall i, k :: 0 <= i < |ids| && 0 <= k < n && replies[k].id == ids[i] ==>
                  b[i] == Filled(old(b[i]), replies[k])
      invariant forall i :: 0 <= i < |ids| && (forall k :: 0 <= k < n ==> replies[k].id != ids[i]) ==> b[i] == old(b[i])
    {
      var resp := replies[n];
      assert resp.id in ids;
      var i := 0;
      while ids[i] != resp.id
        invariant 0 <= i < |ids| && resp.id in ids[i..]
        decreases |ids| - i
      {
        assert ids[i..] == [ids[i]] + ids[i + 1..];
        i := i + 1;
      }
      if resp.hasError {
        b[i] := b[i].(error := Some(ServerSaid));
      } else if resp.empty {
        b[i] := b[i].(error := Some(NoResult));
      } else if resp.decodes {
        b[i] := Elem(resp.value, None);
      } else {
        b[i] := b[i].(error := Some(BadResult));
      }
    }
  }

  // In every state that the client can reach, the responses that a batch call has received, or the first few of them,
  // are of the kind that the matching loop asks for; and as many of them as there are elements answer every element.
  lemma ReceivedRepliesMatch(s: P.State, o: OpId, replies: seq<Reply>)
    requires P.Reachable(s) && o in s.reg.ops && |replies| <= |s.reg.ops[o].got|
    requires forall k :: 0 <= k < |replies| ==> s.reg.ops[o].got[k].Response? && replies[k].id == s.reg.ops[o].got[k].id
    ensures R.Distinct(s.reg.ops[o].ids) && DistinctReplies(s.reg.ops[o].ids, replies)
    ensures |replies| == |s.reg.ops[o].got| == |s.reg.ops[o].ids| ==>
              forall i :: 0 <= i < |s.reg.ops[o].ids| ==>
                exists k :: 0 <= k < |replies| && replies[k].id == s.reg.ops[o].ids[i]
  {
    P.ReachableInv(s);
    P.RepliesAreABijection(s, o);
    var op := s.reg.ops[o];
    if |replies| == |op.got| == |op.ids| {
      forall i | 0 <= i < |op.ids|
        ensures exists k :: 0 <= k < |replies| && replies[k].id == op.ids[i]
      {
        assert op.ids[i] in op.ids;
        var k :| 0 <= k < |op.got| && op.got[k].id == op.ids[i];
        assert replies[k].id == op.ids[i];
      }
    }
  }
}
