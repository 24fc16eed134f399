/** The line-framed serial transport `DevComm`: every command goes out followed by
    the terminator, and a query reads back one reply line with its trailing
    whitespace removed.

    The serial port is modelled by what can be observed at it: the trace of
    writes and line reads in the order they happened, and the queue of reply
    lines the device has yet to deliver (each including its terminator, as
    `readline()` returns it). */
module SerialComm {
  import opened Wrappers
  import opened PyText

  /** The line terminator, the same in both directions. */
  const Terminator: string := "\n"

  datatype Event =
    | Wrote(data: string)     // one `write` of an encoded command
    | ReadLine(line: string)  // one `readline()`, as received

  datatype Wire = Wire(trace: seq<Event>, replies: seq<string>)

  /** The data written to the device, in order. */
  function Writes(trace: seq<Event>): (w: seq<string>)
    ensures |w| <= |trace|
  {
    if trace == [] then []
    else
      var last := trace[|trace| - 1];
      Writes(trace[..|trace| - 1]) + (if last.Wrote? then [last.data] else [])
  }

  /** What `sendcmd(cmd)` puts on the wire. */
  function Frame(cmd: string): (f: string)
    ensures |f| == |cmd| + 1
    ensures f[..|cmd|] == cmd && f[|cmd|] == '\n'
  {
    cmd + Terminator
  }

  /** `sendcmd(cmd)`: one write of the framed command; no reply is read. */
  function Sent(w: Wire, cmd: string): (w': Wire)
    ensures w'.trace == w.trace + [Wrote(Frame(cmd))]
    ensures w'.replies == w.replies
  {
    Wire(w.trace + [Wrote(Frame(cmd))], w.replies)
  }

  /** `query(cmd)`: `sendcmd(cmd)`, then one `readline()` whose text is returned
      with `rstrip()` applied. With no reply line to read, the query fails with
      `NoReply` after the write has happened. The write always comes first, and
      at most one reply line is consumed. */
  function Queried(w: Wire, cmd: string): (q: (Wire, Result<string, Exception>))
    ensures w.replies == [] ==> q == (Wire(w.trace + [Wrote(cmd + "\n")], []), Failure(NoReply))
    ensures w.replies != [] ==>
      && q.0 == Wire(w.trace + [Wrote(cmd + "\n"), ReadLine(w.replies[0])], w.replies[1..])
      && q.1.Success?
      && |q.1.value| <= |w.replies[0]|
      && q.1.value == w.replies[0][..|q.1.value|]
      && (forall k :: |q.1.value| <= k < |w.replies[0]| ==> IsSpace(w.replies[0][k]))
      && (q.1.value == [] || !IsSpace(q.1.value[|q.1.value| - 1]))
  {
    var sent := Sent(w, cmd);
    if sent.replies == [] then (sent, Failure(NoReply))
    else
      var line := sent.replies[0];
      (Wire(sent.trace + [ReadLine(line)], sent.replies[1..]), Success(RStrip(line)))
  }

  /** A reply of text followed by its terminator comes back as exactly that text,
      when the text does not itself end in whitespace. */
  lemma QueryReturnsReplyText(w: Wire, cmd: string, text: string)
    requires w.replies != [] && w.replies[0] == text + "\n"
    requires text == [] || !IsSpace(text[|text| - 1])
    ensures Queried(w, cmd).1 == Success(text)
  {
    if text != [] {
      RStripPadding(text, "\n");
    }
  }

  /** Each write event shows up in the write log, in order. */
  lemma {:induction false} WritesAppend(trace: seq<Event>, more: seq<Event>)
    ensures Writes(trace + more) == Writes(trace) + Writes(more)
    decreases |more|
  {
    if more == [] {
      assert trace + more == trace;
    } else {
      var m := more[..|more| - 1];
      assert (trace + more)[..|trace + more| - 1] == trace + m;
      WritesAppend(trace, m);
    }
  }

  /** `sendcmd` adds exactly one entry to the write log: the command and its terminator. */
  lemma SendLogsOneWrite(w: Wire, cmd: string)
    ensures Writes(Sent(w, cmd).trace) == Writes(w.trace) + [cmd + "\n"]
  {
    WritesAppend(w.trace, [Wrote(Frame(cmd))]);
    assert Writes([Wrote(Frame(cmd))]) == [Frame(cmd)] by {
      assert [Wrote(Frame(cmd))][..0] == [];
    }
  }

  /** `query` adds exactly one entry to the write log too, whether or not a reply comes. */
  lemma QueryLogsOneWrite(w: Wire, cmd: string)
    ensures Writes(Queried(w, cmd).0.trace) == Writes(w.trace) + [cmd + "\n"]
  {
    SendLogsOneWrite(w, cmd);
    if w.replies != [] {
      var t := Sent(w, cmd).trace;
      WritesAppend(t, [ReadLine(w.replies[0])]);
      assert Writes([ReadLine(w.replies[0])]) == [] by {
        assert [ReadLine(w.replies[0])][..0] == [];
      }
    }
  }

  /** The transport of one device connection. */
  class DevComm {
    const port: string
    const baudrate: int
    const terminator: string := "\n"
    var trace: seq<Event>
    var replies: seq<string>

    /** Opens the connection at `port`; `replies` are the lines the device will send. */
    constructor (port: string, replies: seq<string>, baudrate: int := 9600)
      ensures this.port == port && this.baudrate == baudrate
      ensures State() == Wire([], replies)
    {
      this.port := port;
      this.baudrate := baudrate;
      this.trace := [];
      this.replies := replies;
    }

    function State(): Wire
      reads this
    {
      Wire(trace, replies)
    }

    method SendCmd(cmd: string)
      modifies this
      ensures State() == Sent(old(State()), cmd)
    {
      trace := trace + [Wrote(cmd + terminator)];
    }

    /** `readline()` decoded; no line to read is `NoReply`. */
    method ReadLine() returns (r: Result<string, Exception>)
      modifies this
      ensures old(replies) == [] ==> r == Failure(NoReply) && State() == old(State())
      ensures old(replies) != [] ==>
        && r == Success(old(replies)[0])
        && State() == Wire(old(trace) + [Event.ReadLine(old(replies)[0])], old(replies)[1..])
    {
      if replies == [] {
        r := Failure(NoReply);
      } else {
        r := Success(replies[0]);
        trace := trace + [Event.ReadLine(replies[0])];
        replies := replies[1..];
      }
    }

    method Query(cmd: string) returns (r: Result<string, Exception>)
      modifies this
      ensures (State(), r) == Queried(old(State()), cmd)
    {
      SendCmd(cmd);
      var line := ReadLine();
      match line {
        case Failure(e) => r := Failure(e);
        case Success(text) => r := Success(RStrip(text));
      }
    }
  }
}
