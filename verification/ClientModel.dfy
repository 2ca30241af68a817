// What the dispatch loop of client/client.go owns: the operations, the responses it waits for, the active
// subscriptions; and the functions that its cases apply to them.

module ClientModel {
  import opened Channels

  type Id = nat     // a request id, unique while the 32-bit counter has not wrapped
  type OpId = nat   // stands for the pointer to a requestOp
  type Conn = nat
  type SubId = string

  datatype Err = ClientQuit | ReadError | ServerError | DecodeError | WriteError | DialError | ContextError

  // The body of a response: an error object, or a result that decodes to a subscription id or does not.
  datatype Body = ErrorBody | ResultBody(subid: Option<SubId>)

  // A message that read has decoded. A notification names a subscription if its method and params are those of one,
  // and then carries a result for it.
  datatype Msg = Response(id: Id, body: Body) | Notification(subid: Option<SubId>, result: int) | Other

  // Where the goroutine that calls send for an operation stands.
  datatype Pc =
    | Idle                          // before the select of send
    | Writing                       // accepted by dispatch, in write
    | Redialed(conn: Conn)          // in reconnect, with a new connection to hand over
    | Wrote(res: Option<Err>)       // about to send on sendDone
    | Sent(res: Option<Err>)        // returned from send
    | Refused                       // returned from send without having been accepted

  // A requestOp. The caller holds the response that it has received in wait and not returned yet. The fields from
  // answered on record history: the ids answered and the responses forwarded so far, those that wait has returned to
  // the caller without an error and the one it has returned with an error, whether a failed send has deregistered the
  // op, and for a subscription how often its forwarder was started and whether dispatch has ended it.
  datatype Op = Op(ids: seq<Id>, isSub: bool, resp: Chan<Msg>, err: Option<Err>, pc: Pc, held: Option<Msg>,
                   answered: set<Id>, delivered: seq<Msg>, got: seq<Msg>, lost: Option<(Msg, Err)>,
                   removed: bool, starts: nat, quit: bool)
  {
    predicate Accepted()
    {
      !pc.Idle? && !pc.Refused?
    }
  }

  predicate Among(id: Id, ids: seq<Id>)
  {
    id in ids
  }

  function IdSet(ids: seq<Id>): set<Id>
  {
    set id | id in ids
  }

  function NewOp(ids: seq<Id>, isSub: bool): Op
  {
    Op(ids, isSub, Make(if isSub then 0 else |ids|), None, Idle, None, {}, [], [], None, false, 0, false)
  }

  // The history of the active subscriptions: the server has granted an id to an operation, or dispatch has ended
  // all that were active.
  datatype Grant = Granted(subid: SubId, op: OpId) | AllEnded

  datatype Registry = Registry(ops: map<OpId, Op>, respWait: map<Id, OpId>, subs: map<SubId, OpId>, grants: seq<Grant>)

  // The maps refer to existing operations.
  ghost predicate Closed(r: Registry)
  {
    (forall id :: id in r.respWait ==> r.respWait[id] in r.ops) && (forall x :: x in r.subs ==> r.subs[x] in r.ops)
  }

  function SetPc(r: Registry, o: OpId, pc: Pc): Registry
    requires o in r.ops
  {
    r.(ops := r.ops[o := r.ops[o].(pc := pc)])
  }

  function Register(r: Registry, o: OpId): Registry
    requires o in r.ops
  {
    r.(respWait := r.respWait + map id | id in r.ops[o].ids :: o)
  }

  function Deregister(r: Registry, o: OpId): Registry
    requires o in r.ops
  {
    r.(respWait := r.respWait - IdSet(r.ops[o].ids), ops := r.ops[o := r.ops[o].(removed := true)])
  }

  function HandleResponse(r: Registry, id: Id, body: Body): Registry
    requires Closed(r)
  {
    if id !in r.respWait then r
    else
      var o, msg := r.respWait[id], Response(id, body);
      var op := r.ops[o].(answered := r.ops[o].answered + {id}, delivered := r.ops[o].delivered + [msg]);
      var r' := r.(respWait := r.respWait - {id});
      if !op.isSub then r'.(ops := r.ops[o := op.(resp := op.resp.Send(msg))])
      else
        var closed := op.(resp := op.resp.Close());
        match body
        case ErrorBody => r'.(ops := r.ops[o := closed.(err := Some(ServerError))])
        case ResultBody(None) => r'.(ops := r.ops[o := closed.(err := Some(DecodeError))])
        case ResultBody(Some(x)) =>
          r'.(ops := r.ops[o := closed.(err := None, starts := op.starts + 1)],
              subs := r.subs[x := o],
              grants := r.grants + [Granted(x, o)])
  }

  // What closeRequestOps does to one operation.
  function CloseOp(op: Op, waits: bool, err: Err, active: bool): Op
  {
    var op' := if waits then op.(err := Some(err), resp := op.resp.Close()) else op;
    if active then op'.(quit := true) else op'
  }

  function CloseRequestOps(r: Registry, err: Err): Registry
  {
    r.(ops := map o | o in r.ops :: CloseOp(r.ops[o], o in r.respWait.Values, err, o in r.subs.Values),
       respWait := map[], subs := map[], grants := r.grants + [AllEnded])
  }

  // A caller in wait receives from the mailbox.
  function ReceiveOp(op: Op): Op
    requires op.resp.buf != []
  {
    op.(resp := op.resp.Rest(), held := Some(op.resp.buf[0]))
  }

  // wait returns the response together with whatever error the operation has by then, and a caller that gets an error
  // gives up and does not look at the response.
  function ReturnOp(op: Op): Op
    requires op.held.Some?
  {
    if op.err.None? then op.(held := None, got := op.got + [op.held.value])
    else op.(held := None, lost := Some((op.held.value, op.err.value)))
  }

  function Receive(r: Registry, o: OpId): Registry
    requires o in r.ops && r.ops[o].resp.buf != []
  {
    r.(ops := r.ops[o := ReceiveOp(r.ops[o])])
  }

  function Return(r: Registry, o: OpId): Registry
    requires o in r.ops && r.ops[o].held.Some?
  {
    r.(ops := r.ops[o := ReturnOp(r.ops[o])])
  }
}
