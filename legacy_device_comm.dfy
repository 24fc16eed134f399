/** The older DigOutBox client: no dummy mode, and `identify` always asks the
    device. Its `num_channels` setter assigns to the property it implements and
    so never stores anything; the model uses the assignment the newer client
    makes and keeps the original as `NumChannelsSetterAsWritten`. */
module LegacyDeviceComm {
  import opened Wrappers
  import opened SerialComm
  import opened DigIOProtocol
  import opened UtilFns

  class DigIOBoxComm {
    const comm: DevComm
    var numChannels: int

    constructor (port: string, replies: seq<string>, baudrate: int := 9600)
      ensures fresh(comm) && comm.State() == Wire([], replies) && comm.baudrate == baudrate
      ensures numChannels == DefaultNumChannels
    {
      this.comm := new DevComm(port, replies, baudrate);
      this.numChannels := DefaultNumChannels;
    }

    function NumChannels(): (n: int)
      reads this
      ensures n == numChannels
    {
      numChannels
    }

    /** The `num_channels` setter as evidently intended: the count is stored. */
    method SetNumChannels(value: int)
      modifies this
      ensures NumChannels() == value && comm.State() == old(comm.State())
    {
      numChannels := value;
    }

    /** The `channel` property: a proxy list over `range(num_channels)`. */
    function ChannelList(): (pl: ProxyList<DigIOBoxComm>)
      reads this
      ensures pl.parent == this && !pl.isEnum
      ensures Len(pl) == if numChannels > 0 then numChannels else 0
      ensures forall i :: GetItem(pl, Plain(Int(i))).Success? <==> 0 <= i < numChannels
    {
      NewProxyList(this, Range(0, numChannels))
    }

    /** `channel[idx]`. */
    method ChannelAt(idx: int) returns (r: Result<Channel, Exception>)
      ensures r.Success? <==> 0 <= idx < numChannels
      ensures r.Success? ==> fresh(r.value) && r.value.parent == this && r.value.idx == idx
      ensures r.Failure? ==> r.error == IndexError
    {
      match GetItem(ChannelList(), Plain(Int(idx))) {
        case Failure(e) =>
          r := Failure(e);
        case Success(proxy) =>
          var ch := new Channel(this, idx);
          r := Success(ch);
      }
    }

    /** `identify`: always one `*IDN?` query, with no dummy path. */
    method Identify() returns (r: Result<string, Exception>)
      modifies comm
      ensures (comm.State(), r) == Identified(old(comm.State()), false)
    {
      r := comm.Query(IdentifyCmd);
    }
  }

  class Channel {
    const parent: DigIOBoxComm
    const idx: int

    constructor (parent: DigIOBoxComm, idx: int)
      ensures this.parent == parent && this.idx == idx
    {
      this.parent := parent;
      this.idx := idx;
    }

    method GetState() returns (r: Result<bool, Exception>)
      modifies parent.comm
      ensures (parent.comm.State(), r) == ChannelStateRead(old(parent.comm.State()), idx)
    {
      var reply := parent.comm.Query(StateQueryCmd(idx));
      r := if reply.Failure? then Failure(reply.error) else ParseFlag(reply.value);
    }

    method SetState(v: bool)
      modifies parent.comm
      ensures parent.comm.State() == ChannelStateWritten(old(parent.comm.State()), idx, v)
    {
      parent.comm.SendCmd(StateSetCmd(idx, v));
    }
  }

  /** The setter as written: `self.num_channels = int(value)` calls the setter
      again, one frame deeper each time, until the interpreter's recursion limit
      (`framesLeft` more frames) is reached. */
  function NumChannelsSetterAsWritten(value: int, framesLeft: nat): (r: Result<int, Exception>)
    ensures r.Failure?
    decreases framesLeft
  {
    if framesLeft == 0 then Failure(RecursionError)
    else NumChannelsSetterAsWritten(value, framesLeft - 1)
  }

  /** Whatever the recursion limit, the setter as written fails and stores nothing. */
  lemma {:induction false} SetterAsWrittenAlwaysFails(value: int, framesLeft: nat)
    ensures NumChannelsSetterAsWritten(value, framesLeft) == Failure(RecursionError)
    decreases framesLeft
  {
    if framesLeft > 0 {
      SetterAsWrittenAlwaysFails(value, framesLeft - 1);
    }
  }
}
