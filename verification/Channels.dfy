// Go channels as values. A send that would block or that hits a closed channel, and a second close, leave a
// mark: the theorems about channels say that no reachable state has it.

module Channels {
  datatype Option<+T> = None | Some(value: T)

  datatype Chan<T> = Chan(cap: nat, buf: seq<T>, closed: bool, fault: bool)
  {
    predicate CanReceive()
    {
      buf != [] || closed
    }

    function Send(x: T): Chan<T>
    {
      if closed || |buf| >= cap then this.(fault := true) else this.(buf := buf + [x])
    }

    function Close(): Chan<T>
    {
      if closed then this.(fault := true) else this.(closed := true)
    }

    // The channel after its oldest value has been taken.
    function Rest(): Chan<T>
    {
      if buf == [] then this else this.(buf := buf[1..])
    }
  }

  function Make<T>(cap: nat): Chan<T>
  {
    Chan(cap, [], false, false)
  }

  // A send leaves no mark exactly if the channel is open and has room, and a close exactly if it is open; then they do
  // what they should.
  lemma ChannelLaws<T>(c: Chan<T>, x: T)
    requires !c.fault
    ensures !c.Send(x).fault <==> !c.closed && |c.buf| < c.cap
    ensures !c.Send(x).fault ==> c.Send(x).buf == c.buf + [x] && !c.Send(x).closed && c.Send(x).cap == c.cap
    ensures !c.Close().fault <==> !c.closed
    ensures c.Close().closed && c.Close().buf == c.buf
    ensures c.CanReceive() && c.buf != [] ==> [c.buf[0]] + c.Rest().buf == c.buf && c.Rest().closed == c.closed
  {
  }
}
