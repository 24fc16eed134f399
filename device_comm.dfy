/** The current DigOutBox client, `DigIOBoxComm`, and its per-channel handle.

    In the source the client is a subclass of the transport; here it holds its
    transport as `comm`, and every wire operation is stated through the
    transport's `State()` and the specification functions of `DigIOProtocol`. */
module DeviceComm {
  import opened Wrappers
  import opened SerialComm
  import opened DigIOProtocol
  import opened UtilFns

  class DigIOBoxComm {
    const comm: DevComm
    const dummy: bool
    var numChannels: int

    /** Connects at `port` (the device will send `replies`); the channel count
        starts at 16. */
    constructor (port: string, replies: seq<string>, baudrate: int := 9600, dummy: bool := false)
      ensures fresh(comm) && comm.State() == Wire([], replies) && comm.baudrate == baudrate
      ensures this.dummy == dummy && numChannels == DefaultNumChannels
    {
      this.dummy := dummy;
      this.numChannels := DefaultNumChannels;
      this.comm := new DevComm(port, replies, baudrate);
    }

    /** The `channel` property: a fresh proxy list over `range(num_channels)`,
        built from the channel count at the time of access. */
    function ChannelList(): (pl: ProxyList<DigIOBoxComm>)
      reads this
      ensures pl.parent == this && !pl.isEnum
      ensures Len(pl) == if numChannels > 0 then numChannels else 0
      ensures forall i :: GetItem(pl, Plain(Int(i))).Success? <==> 0 <= i < numChannels
    {
      NewProxyList(this, Range(0, numChannels))
    }

    /** `channel[idx]`: a channel handle, or `IndexError` before any handle is
        built when `idx` is not below the channel count. */
    method ChannelAt(idx: int) returns (r: Result<Channel, Exception>)
      ensures r.Success? <==> 0 <= idx < numChannels
      ensures r.Success? ==> fresh(r.value) && r.value.parent == this && r.value.idx == idx
      ensures r.Failure? ==> r.error == IndexError
    {
      match GetItem(ChannelList(), Plain(Int(idx))) {
        case Failure(e) =>
          r := Failure(e);
        case Success(proxy) =>
          var ch := new Channel(this, idx);
          r := Success(ch);
      }
    }

    /** The `num_channels` getter. */
    function NumChannels(): (n: int)
      reads this
      ensures n == numChannels
    {
      numChannels
    }

    /** The `num_channels` setter: the new count is kept, and nothing goes over the wire. */
    method SetNumChannels(value: int)
      modifies this
      ensures NumChannels() == value
      ensures comm.State() == old(comm.State())
    {
      numChannels := value;
    }

    /** `identify`: in dummy mode the dummy identity with no traffic, else the
        `*IDN?` reply. */
    method Identify() returns (r: Result<string, Exception>)
      modifies comm
      ensures (comm.State(), r) == Identified(old(comm.State()), dummy)
    {
      if dummy {
        r := Success(DummyIdentity);
      } else {
        r := comm.Query(IdentifyCmd);
      }
    }

    method InterlockState() returns (r: Result<bool, Exception>)
      modifies comm
      ensures (comm.State(), r) == FlagRead(old(comm.State()), InterlockCmd)
    {
      var reply := comm.Query(InterlockCmd);
      r := if reply.Failure? then Failure(reply.error) else ParseFlag(reply.value);
    }

    method SoftwareLockout() returns (r: Result<bool, Exception>)
      modifies comm
      ensures (comm.State(), r) == FlagRead(old(comm.State()), LockoutCmd)
    {
      var reply := comm.Query(LockoutCmd);
      r := if reply.Failure? then Failure(reply.error) else ParseFlag(reply.value);
    }

    /** `states`: all channel states from one `ALLDOut?` reply, in token order. */
    method States() returns (r: Result<seq<bool>, Exception>)
      modifies comm
      ensures (comm.State(), r) == StatesRead(old(comm.State()))
    {
      var reply := comm.Query(AllStatesCmd);
      r := if reply.Failure? then Failure(reply.error) else ParseStates(reply.value);
    }

    method AllOff()
      modifies comm
      ensures comm.State() == AllOffSent(old(comm.State()))
    {
      comm.SendCmd(AllOffCmd);
    }
  }

  /** One channel of a client. The parent is typed, so the source's run-time
      check that the parent is a `DigIOBoxComm` always passes. */
  class Channel {
    const parent: DigIOBoxComm
    const idx: int

    constructor (parent: DigIOBoxComm, idx: int)
      ensures this.parent == parent && this.idx == idx
    {
      this.parent := parent;
      this.idx := idx;
    }

    /** Reading `state`: `DO{idx}?`, the reply as a flag. */
    method GetState() returns (r: Result<bool, Exception>)
      modifies parent.comm
      ensures (parent.comm.State(), r) == ChannelStateRead(old(parent.comm.State()), idx)
    {
      var reply := parent.comm.Query(StateQueryCmd(idx));
      r := if reply.Failure? then Failure(reply.error) else ParseFlag(reply.value);
    }

    /** Setting `state`: `DO{idx} {0|1}`, nothing read. */
    method SetState(v: bool)
      modifies parent.comm
      ensures parent.comm.State() == ChannelStateWritten(old(parent.comm.State()), idx, v)
    {
      parent.comm.SendCmd(StateSetCmd(idx, v));
    }
  }
}
