/** The DigOutBox command vocabulary, its reply formats, and what each client
    operation does on the wire. Both client variants (`DeviceComm` and
    `LegacyDeviceComm`) are specified by the functions here. */
module DigIOProtocol {
  import opened Wrappers
  import opened PyText
  import opened SerialComm

  const IdentifyCmd: string := "*IDN?"
  const AllStatesCmd: string := "ALLDOut?"
  const AllOffCmd: string := "ALLOFF"
  const InterlockCmd: string := "INTERLOCKState?"
  const LockoutCmd: string := "SWLockout?"

  /** What `identify` answers in dummy mode, without touching the wire. */
  const DummyIdentity: string := "DigIOBox Dummy"

  /** The channel count a client assumes until told otherwise. */
  const DefaultNumChannels: int := 16

  /** `int(value)` of a boolean, as a digit. */
  function BoolDigit(v: bool): (d: string)
    ensures d == IntToString(if v then 1 else 0)
  {
    if v then "1" else "0"
  }

  /** `f"DO{idx}?"`: ask for one channel's state. */
  function StateQueryCmd(idx: int): (c: string)
    ensures |c| >= 4 && c[..2] == "DO" && c[|c| - 1] == '?'
    ensures ' ' !in c
  {
    IntToStringHasNoSpace(idx);
    "DO" + IntToString(idx) + "?"
  }

  /** `f"DO{idx} {int(value)}"`: switch one channel. */
  function StateSetCmd(idx: int, v: bool): (c: string)
    ensures |c| >= 5 && c[..2] == "DO" && c[|c| - 2] == ' ' && c[|c| - 1] == (if v then '1' else '0')
  {
    "DO" + IntToString(idx) + " " + BoolDigit(v)
  }

  /** `bool(int(reply))`: any integer reply is a flag, non-zero meaning set;
      anything else is a `ValueError`. */
  function ParseFlag(reply: string): (r: Result<bool, Exception>)
    ensures r.Success? <==> ParseInt(reply).Some?
    ensures r.Failure? ==> r.error == ValueError
    ensures r.Success? ==> (r.value <==> ParseInt(reply).value != 0)
  {
    match ParseInt(reply)
    case None => Failure(ValueError)
    case Some(n) => Success(n != 0)
  }

  /** `[parse(x) for x in tokens]`: every token parsed in order; the first token
      that does not parse raises its error. */
  function ParseAll<T>(parse: string -> Result<T, Exception>, tokens: seq<string>): (r: Result<seq<T>, Exception>)
    ensures r.Success? <==> forall k :: 0 <= k < |tokens| ==> parse(tokens[k]).Success?
    ensures r.Failure? ==> exists k :: (0 <= k < |tokens| && parse(tokens[k]) == Failure(r.error)
                                        && forall j :: 0 <= j < k ==> parse(tokens[j]).Success?)
    ensures r.Success? ==> |r.value| == |tokens|
    ensures r.Success? ==> forall k :: 0 <= k < |tokens| ==> parse(tokens[k]) == Success(r.value[k])
  {
    if tokens == [] then Success([])
    else
      var rest := tokens[1..];
      assert forall k :: 0 <= k < |rest| ==> rest[k] == tokens[k + 1];
      match parse(tokens[0])
      case Failure(e) => Failure(e)
      case Success(b) =>
        match ParseAll(parse, rest)
        case Failure(e) => Failure(e)
        case Success(bs) => Success([b] + bs)
  }

  /** `[bool(int(x)) for x in tokens]`: one flag per token, in token order; the
      first token that is not an integer raises `ValueError`. */
  function ParseFlags(tokens: seq<string>): (r: Result<seq<bool>, Exception>)
    ensures r.Success? <==> forall k :: 0 <= k < |tokens| ==> ParseFlag(tokens[k]).Success?
    ensures r.Failure? ==> r.error == ValueError
    ensures r.Success? ==> |r.value| == |tokens|
    ensures r.Success? ==> forall k :: 0 <= k < |tokens| ==> ParseFlag(tokens[k]) == Success(r.value[k])
  {
    ParseAll(ParseFlag, tokens)
  }

  /** The `ALLDOut?` reply parsed: comma-separated flags in channel order. */
  function ParseStates(reply: string): (r: Result<seq<bool>, Exception>)
    ensures r.Failure? ==> r.error == ValueError
    ensures r.Success? ==> |r.value| == |Split(reply, ',')| && |r.value| >= 1
  {
    ParseFlags(Split(reply, ','))
  }

  /** The `ALLDOut?` reply the device sends for the given channel states. */
  function FormatStates(states: seq<bool>): (t: string)
    ensures t == "" <==> states == []
    ensures |states| > 0 ==> t[0] == (if states[0] then '1' else '0')
    ensures |states| > 1 ==> |t| > 1 && t[1] == ','
  {
    Join(seq(|states|, k requires 0 <= k < |states| => BoolDigit(states[k])), ',')
  }

  // ---- each operation on the wire: new wire state and result ----

  /** `identify`: the dummy identity with no traffic, or the `*IDN?` reply as is. */
  function Identified(w: Wire, dummy: bool): (q: (Wire, Result<string, Exception>))
    ensures dummy ==> q == (w, Success(DummyIdentity))
    ensures !dummy ==> q == Queried(w, IdentifyCmd)
  {
    if dummy then (w, Success(DummyIdentity)) else Queried(w, IdentifyCmd)
  }

  /** A query whose reply is one flag. */
  function FlagRead(w: Wire, cmd: string): (q: (Wire, Result<bool, Exception>))
    ensures q.0 == Queried(w, cmd).0
    ensures w.replies == [] ==> q.1 == Failure(NoReply)
    ensures q.1.Failure? ==> q.1.error == NoReply || q.1.error == ValueError
  {
    var (w', r) := Queried(w, cmd);
    (w', match r
         case Failure(e) => Failure(e)
         case Success(text) => ParseFlag(text))
  }

  /** Reading `channel[idx].state`. */
  function ChannelStateRead(w: Wire, idx: int): (q: (Wire, Result<bool, Exception>))
    ensures Writes(q.0.trace) == Writes(w.trace) + [StateQueryCmd(idx) + "\n"]
    ensures q.1.Failure? ==> q.1.error == NoReply || q.1.error == ValueError
  {
    QueryLogsOneWrite(w, StateQueryCmd(idx));
    FlagRead(w, StateQueryCmd(idx))
  }

  /** Setting `channel[idx].state = v`. */
  function ChannelStateWritten(w: Wire, idx: int, v: bool): (w': Wire)
    ensures w'.replies == w.replies
    ensures |w'.trace| == |w.trace| + 1 && w'.trace[..|w.trace|] == w.trace
    ensures w'.trace[|w.trace|] == Wrote(StateSetCmd(idx, v) + "\n")
  {
    Sent(w, StateSetCmd(idx, v))
  }

  /** `states`. */
  function StatesRead(w: Wire): (q: (Wire, Result<seq<bool>, Exception>))
    ensures q.0 == Queried(w, AllStatesCmd).0
    ensures w.replies == [] ==> q.1 == Failure(NoReply)
    ensures q.1.Failure? ==> q.1.error == NoReply || q.1.error == ValueError
    ensures q.1.Success? ==> |q.1.value| >= 1
    ensures w.replies != [] ==> q.1 == ParseStates(RStrip(w.replies[0]))
  {
    var (w', r) := Queried(w, AllStatesCmd);
    (w', match r
         case Failure(e) => Failure(e)
         case Success(text) => ParseStates(text))
  }

  /** `all_off()`. */
  function AllOffSent(w: Wire): (w': Wire)
    ensures w'.replies == w.replies
    ensures |w'.trace| == |w.trace| + 1 && w'.trace[..|w.trace|] == w.trace && w'.trace[|w.trace|].Wrote?
  {
    Sent(w, AllOffCmd)
  }

  // ---- properties ----

  lemma IntToStringHasNoSpace(i: int)
    ensures ' ' !in IntToString(i)
  {
    var s := IntToString(i);
    if i < 0 {
      assert s == "-" + NatToString(-i);
    }
  }

  /** Different channels never produce the same query command. */
  lemma QueryCmdInjective(i: int, j: int)
    requires StateQueryCmd(i) == StateQueryCmd(j)
    ensures i == j
  {
    var q := StateQueryCmd(i);
    assert IntToString(i) == q[2..|q| - 1];
    assert IntToString(j) == q[2..|q| - 1];
    IntToStringInjective(i, j);
  }

  /** Different channels or values never produce the same set command. */
  lemma SetCmdInjective(i: int, j: int, u: bool, v: bool)
    requires StateSetCmd(i, u) == StateSetCmd(j, v)
    ensures i == j && u == v
  {
    IntToStringHasNoSpace(i);
    IntToStringHasNoSpace(j);
    SpaceSeparatedInjective("DO", IntToString(i), BoolDigit(u), IntToString(j), BoolDigit(v));
    IntToStringInjective(i, j);
  }

  /** After a common prefix, a word without spaces, a space and a tail are
      recovered uniquely from the whole text. */
  lemma SpaceSeparatedInjective(p: string, a: string, x: string, b: string, y: string)
    requires ' ' !in a && ' ' !in b
    requires p + a + " " + x == p + b + " " + y
    ensures a == b && x == y
  {
    var c := p + a + " " + x;
    var t := c[|p|..];
    assert t == a + [' '] + x;
    assert t == b + [' '] + y;
    IndexOfJoined(a, ' ', x);
    IndexOfJoined(b, ' ', y);
    assert a == t[..|a|] && b == t[..|b|];
    assert x == t[|a| + 1..] && y == t[|b| + 1..];
  }

  /** A set command is never a query command: only queries end in `?`. */
  lemma SetIsNotQuery(i: int, j: int, u: bool)
    ensures StateSetCmd(i, u) != StateQueryCmd(j)
  {
    var s, q := StateSetCmd(i, u), StateQueryCmd(j);
    assert s[|s| - 1] == BoolDigit(u)[0];
    assert q[|q| - 1] == '?';
  }

  lemma CommandExamples()
    ensures StateQueryCmd(12) == "DO12?"
    ensures StateSetCmd(0, false) == "DO0 0"
    ensures StateSetCmd(15, true) == "DO15 1"
  {
    assert NatToString(1) == "1" && NatToString(12) == "12";
    assert NatToString(15) == "15";
  }

  /** A flag written as `int(v)` reads back as `v`. */
  lemma FlagRoundTrip(v: bool)
    ensures ParseFlag(BoolDigit(v)) == Success(v)
  {
    IntToStringRoundTrip(if v then 1 else 0);
  }

  /** Every state sequence the device can report parses back to itself. */
  lemma StatesRoundTrip(states: seq<bool>)
    requires |states| >= 1
    ensures ParseStates(FormatStates(states)) == Success(states)
  {
    var tokens := seq(|states|, k requires 0 <= k < |states| => BoolDigit(states[k]));
    forall k | 0 <= k < |tokens|
      ensures ',' !in tokens[k]
      ensures ParseFlag(tokens[k]) == Success(states[k])
    {
      FlagRoundTrip(states[k]);
    }
    SplitJoin(tokens, ',');
    ParseFlagsPointwise(tokens, states);
  }

  /** Tokens that each read as the corresponding flag read as the whole list. */
  lemma ParseFlagsPointwise(tokens: seq<string>, states: seq<bool>)
    requires |tokens| == |states|
    requires forall k :: 0 <= k < |tokens| ==> ParseFlag(tokens[k]) == Success(states[k])
    ensures ParseFlags(tokens) == Success(states)
  {
    var r := ParseFlags(tokens);
    assert r.Success?;
    assert forall k :: 0 <= k < |tokens| ==> Success(r.value[k]) == ParseFlag(tokens[k]) == Success(states[k]);
    assert r.value == states;
  }

  /** The reply for the states `a + b` is the reply for `a`, a comma, and the reply for `b`. */
  lemma FormatAppend(a: seq<bool>, b: seq<bool>)
    requires |a| >= 1 && |b| >= 1
    ensures FormatStates(a + b) == FormatStates(a) + "," + FormatStates(b)
  {
    var ta := seq(|a|, k requires 0 <= k < |a| => BoolDigit(a[k]));
    var tb := seq(|b|, k requires 0 <= k < |b| => BoolDigit(b[k]));
    assert seq(|a + b|, k requires 0 <= k < |a + b| => BoolDigit((a + b)[k])) == ta + tb;
    JoinAppend(ta, tb, ',');
  }

  lemma FormatAlternatingEight()
    ensures FormatStates([true, false, true, false, true, false, true, false]) == "1,0,1,0,1,0,1,0"
  {
    var p := [true, false];
    assert FormatStates(p) == "1,0" by {
      var tokens := ["1", "0"];
      assert seq(2, k requires 0 <= k < 2 => BoolDigit(p[k])) == tokens;
      assert tokens[1..] == ["0"];
      assert Join(tokens, ',') == "1" + [','] + "0";
    }
    var q := p + p;
    assert FormatStates(q) == "1,0,1,0" by {
      FormatAppend(p, p);
    }
    assert FormatStates(q + q) == "1,0,1,0,1,0,1,0" by {
      FormatAppend(q, q);
    }
    assert q + q == [true, false, true, false, true, false, true, false];
  }

  /** `"1,0,1,0,1,0,1,0,1,0,1,0,1,0,1,0"` reads as sixteen alternating states
      starting with on. */
  lemma StatesExample()
    ensures ParseStates("1,0,1,0,1,0,1,0,1,0,1,0,1,0,1,0") == Success(
      [true, false, true, false, true, false, true, false,
       true, false, true, false, true, false, true, false])
  {
    var reply := "1,0,1,0,1,0,1,0,1,0,1,0,1,0,1,0";
    var states := [true, false, true, false, true, false, true, false,
                   true, false, true, false, true, false, true, false];
    var half := [true, false, true, false, true, false, true, false];
    FormatAlternatingEight();
    FormatAppend(half, half);
    assert half + half == states;
    assert FormatStates(states) == "1,0,1,0,1,0,1,0" + "," + "1,0,1,0,1,0,1,0";
    assert FormatStates(states) == reply;
    StatesRoundTrip(states);
  }

  /** The reply for a non-empty list of states ends in the last state's digit. */
  lemma FormatEndsInDigit(states: seq<bool>)
    requires |states| >= 1
    ensures var t := FormatStates(states);
      |t| > 0 && t[|t| - 1] == (if states[|states| - 1] then '1' else '0')
  {
    var n := |states|;
    if n == 1 {
      var tokens := seq(1, k requires 0 <= k < 1 => BoolDigit(states[k]));
      assert tokens == [BoolDigit(states[0])];
      assert Join(tokens, ',') == BoolDigit(states[0]);
    } else {
      var init := states[..n - 1];
      var last := [states[n - 1]];
      assert states == init + last;
      FormatAppend(init, last);
      FormatEndsInDigit(last);
    }
  }

  /** Reading all states: the transcript is one `ALLDOut?` write and one reply
      line, and when the device answers with the comma-separated states the
      read returns exactly those states. */
  lemma StatesTranscript(w: Wire, states: seq<bool>)
    requires |states| >= 1
    requires w.replies != [] && w.replies[0] == FormatStates(states) + "\n"
    ensures var (w', r) := StatesRead(w);
      && Writes(w'.trace) == Writes(w.trace) + [AllStatesCmd + "\n"]
      && w'.replies == w.replies[1..]
      && r == Success(states)
  {
    QueryLogsOneWrite(w, AllStatesCmd);
    FormatEndsInDigit(states);
    QueryReturnsReplyText(w, AllStatesCmd, FormatStates(states));
    StatesRoundTrip(states);
  }

  /** Setting a channel and reading it back: the transcript is the set command
      followed by the query, one reply line is consumed, and when the device
      answers `int(v)` the read returns `v`. */
  lemma SetThenGet(w: Wire, idx: int, v: bool)
    requires w.replies != [] && w.replies[0] == BoolDigit(v) + "\n"
    ensures ChannelStateRead(ChannelStateWritten(w, idx, v), idx) ==
      (Wire(w.trace + [Wrote(StateSetCmd(idx, v) + "\n"), Wrote(StateQueryCmd(idx) + "\n"), ReadLine(w.replies[0])],
            w.replies[1..]),
       Success(v))
  {
    WriteThenFlagRead(w, StateSetCmd(idx, v), StateQueryCmd(idx), v);
  }

  /** Any command followed by a flag query that the device answers with `int(v)`. */
  lemma WriteThenFlagRead(w: Wire, cmd: string, query: string, v: bool)
    requires w.replies != [] && w.replies[0] == BoolDigit(v) + "\n"
    ensures FlagRead(Sent(w, cmd), query) ==
      (Wire(w.trace + [Wrote(cmd + "\n"), Wrote(query + "\n"), ReadLine(w.replies[0])], w.replies[1..]),
       Success(v))
  {
    var w1 := Sent(w, cmd);
    assert w1 == Wire(w.trace + [Wrote(cmd + "\n")], w.replies);
    FlagReadOfDigit(w1, query, v);
    assert Queried(w1, query).0 == Wire(w1.trace + [Wrote(query + "\n"), ReadLine(w.replies[0])], w.replies[1..]);
    AppendOneThenTwo(w.trace, Wrote(cmd + "\n"), Wrote(query + "\n"), ReadLine(w.replies[0]));
  }

  lemma AppendOneThenTwo(t: seq<Event>, a: Event, b: Event, c: Event)
    ensures (t + [a]) + [b, c] == t + [a, b, c]
  {
  }

  /** `all_off()` writes exactly `ALLOFF` and reads nothing. */
  lemma AllOffTranscript(w: Wire)
    ensures Writes(AllOffSent(w).trace) == Writes(w.trace) + ["ALLOFF\n"]
    ensures AllOffSent(w).replies == w.replies
  {
    SendLogsOneWrite(w, AllOffCmd);
    var line := AllOffCmd + "\n";
    assert line == "ALLOFF\n";
    assert [line] == ["ALLOFF\n"];
  }

  /** The interlock and lockout queries write their command and return the
      device's `0`/`1` answer as a flag. */
  lemma FlagQueryTranscript(w: Wire, cmd: string, v: bool)
    requires cmd == InterlockCmd || cmd == LockoutCmd
    requires w.replies != [] && w.replies[0] == BoolDigit(v) + "\n"
    ensures var (w', r) := FlagRead(w, cmd);
      && Writes(w'.trace) == Writes(w.trace) + [cmd + "\n"]
      && w'.replies == w.replies[1..]
      && r == Success(v)
  {
    QueryLogsOneWrite(w, cmd);
    FlagReadOfDigit(w, cmd, v);
  }

  /** A flag query answered with `int(v)` returns `v`. */
  lemma FlagReadOfDigit(w: Wire, cmd: string, v: bool)
    requires w.replies != [] && w.replies[0] == BoolDigit(v) + "\n"
    ensures FlagRead(w, cmd) == (Queried(w, cmd).0, Success(v))
  {
    var d := BoolDigit(v);
    assert !IsSpace(d[|d| - 1]);
    QueryReturnsReplyText(w, cmd, d);
    FlagRoundTrip(v);
  }

  /** `identify` on a live device returns the reply line unchanged, e.g.
      `"DigIOBox,1.0"`. */
  lemma IdentifyTranscript(w: Wire, text: string)
    requires text == [] || !IsSpace(text[|text| - 1])
    requires w.replies != [] && w.replies[0] == text + "\n"
    ensures var (w', r) := Identified(w, false);
      && Writes(w'.trace) == Writes(w.trace) + ["*IDN?\n"]
      && r == Success(text)
  {
    QueryLogsOneWrite(w, IdentifyCmd);
    QueryReturnsReplyText(w, IdentifyCmd, text);
    assert IdentifyCmd + "\n" == "*IDN?\n";
  }
}
