/** `check_channels`: whether a loaded channel configuration has the expected
    shape, a dictionary from channel names to `{"hw_channel": …, "section": …}`.

    Two variants exist. The desktop controller's wants the hardware channel as a
    string; the GUI's wants it as an integer. The entries are examined in
    dictionary order and the first failing one decides; a lookup of a missing
    field answers `False`, while subscripting an entry that is not a dictionary
    raises a `TypeError`, which neither variant catches. */
module ChannelChecks {
  import opened Wrappers
  import opened PyValues

  /** Which variant: hardware channels as strings, or as integers. */
  datatype HwKind = StrHw | IntHw

  /** The hardware channel labels the GUI writes into a fresh configuration. */
  const HwConfig: seq<string> :=
    ["A", "B", "C", "D", "E", "F", "G", "H", "1", "2", "3", "4", "5", "6", "7", "8"]

  /** `isinstance(hw_channel, str)` in the controller's variant,
      `isinstance(hw_channel, int)` in the GUI's. */
  predicate HwTypeOk(kind: HwKind, hw: PyValue): (b: bool)
    ensures hw.PStr? ==> (b <==> kind == StrHw)
    ensures hw.PInt? || hw.PBool? ==> (b <==> kind == IntHw)
    ensures hw.PNone? || hw.PFloat? || hw.PList? || hw.PDict? ==> !b
  {
    match kind
    case StrHw => hw.PStr?
    case IntHw => IsInt(hw)
  }

  /** The verdict on one entry: `Success(true)` to go on with the next entry,
      `Success(false)` to answer `False`, or the exception that escapes. */
  function EntryVerdict(kind: HwKind, e: (PyValue, PyValue)): (r: Result<bool, Exception>)
    ensures !e.0.PStr? ==> r == Success(false)
    ensures e.0.PStr? && !e.1.PDict? ==> r == Failure(TypeError)
    ensures r.Failure? ==> r.error == TypeError
    ensures r == Success(true) <==>
      && e.0.PStr? && e.1.PDict?
      && Field(e.1.entries, "hw_channel").Some?
      && HwTypeOk(kind, Field(e.1.entries, "hw_channel").value)
      && Field(e.1.entries, "section").Some?
      && Field(e.1.entries, "section").value.PStr?
  {
    if !e.0.PStr? then Success(false)
    else
      match Subscript(e.1, "hw_channel")
      case Failure(err) => if err == KeyError then Success(false) else Failure(err)
      case Success(hw) =>
        if !HwTypeOk(kind, hw) then Success(false)
        else
          match Subscript(e.1, "section")
          case Failure(err) => if err == KeyError then Success(false) else Failure(err)
          case Success(section) => Success(section.PStr?)
  }

  predicate Passes(kind: HwKind, e: (PyValue, PyValue)) {
    EntryVerdict(kind, e) == Success(true)
  }

  /** The loop over the entries, in order, stopping at the first that decides. */
  function CheckEntries(kind: HwKind, es: seq<(PyValue, PyValue)>): (r: Result<bool, Exception>)
    ensures r == Success(true) <==> forall k :: 0 <= k < |es| ==> Passes(kind, es[k])
    ensures r.Failure? ==> r.error == TypeError
  {
    if es == [] then Success(true)
    else
      var v := EntryVerdict(kind, es[0]);
      var rest := CheckEntries(kind, es[1..]);
      assert forall k :: 0 < k < |es| ==> es[k] == es[1..][k - 1];
      if v.Failure? then v
      else if !v.value then Success(false)
      else
        assert forall k :: 0 <= k < |es[1..]| ==> es[1..][k] == es[k + 1];
        rest
  }

  /** An entry that raises after only passing entries makes the `TypeError`
      escape. */
  lemma {:induction false} FirstRaisingEntryRaises(kind: HwKind, es: seq<(PyValue, PyValue)>, k: nat)
    requires k < |es| && EntryVerdict(kind, es[k]).Failure?
    requires forall j :: 0 <= j < k ==> Passes(kind, es[j])
    ensures CheckEntries(kind, es) == Failure(TypeError)
    decreases k
  {
    if k > 0 {
      assert Passes(kind, es[0]);
      FirstRaisingEntryRaises(kind, es[1..], k - 1);
    }
  }

  /** A `TypeError` escapes only from an entry that raises after only passing
      entries. */
  lemma {:induction false} RaiseHasCause(kind: HwKind, es: seq<(PyValue, PyValue)>) returns (k: nat)
    requires CheckEntries(kind, es).Failure?
    ensures k < |es| && EntryVerdict(kind, es[k]).Failure?
    ensures forall j :: 0 <= j < k ==> Passes(kind, es[j])
    decreases |es|
  {
    if EntryVerdict(kind, es[0]).Failure? {
      k := 0;
    } else {
      var tail := es[1..];
      var k' := RaiseHasCause(kind, tail);
      k := k' + 1;
      assert es[k] == tail[k'];
      forall j | 0 <= j < k
        ensures Passes(kind, es[j])
      {
        if j > 0 {
          assert es[j] == tail[j - 1];
        }
      }
    }
  }

  /** `check_channels(channels)`. */
  function CheckChannels(kind: HwKind, v: PyValue): (r: Result<bool, Exception>)
    ensures !v.PDict? ==> r == Success(false)
    ensures v == PDict([]) ==> r == Success(true)
    ensures r == Success(true) <==> v.PDict? && forall k :: 0 <= k < |v.entries| ==> Passes(kind, v.entries[k])
    ensures r.Failure? ==> r.error == TypeError
  {
    if !v.PDict? then Success(false) else CheckEntries(kind, v.entries)
  }

  /** An entry that fails after only passing entries makes the answer `False`:
      a non-string key, a missing field, or a field of the wrong type. */
  lemma {:induction false} FirstFailingEntryDecides(kind: HwKind, es: seq<(PyValue, PyValue)>, k: nat)
    requires k < |es| && EntryVerdict(kind, es[k]) == Success(false)
    requires forall j :: 0 <= j < k ==> Passes(kind, es[j])
    ensures CheckEntries(kind, es) == Success(false)
    decreases k
  {
    if k > 0 {
      assert Passes(kind, es[0]);
      FirstFailingEntryDecides(kind, es[1..], k - 1);
    }
  }

  /** The one difference between the variants: which type a hardware channel
      must have (a boolean counts as an integer). */
  lemma VariantsDiffer()
    ensures var cfg := PDict([(PStr("ch"), PDict([(PStr("hw_channel"), PStr("A")), (PStr("section"), PStr("individual"))]))]);
      CheckChannels(StrHw, cfg) == Success(true) && CheckChannels(IntHw, cfg) == Success(false)
    ensures var cfg := PDict([(PStr("ch"), PDict([(PStr("hw_channel"), PInt(3)), (PStr("section"), PStr("grouped"))]))]);
      CheckChannels(StrHw, cfg) == Success(false) && CheckChannels(IntHw, cfg) == Success(true)
    ensures var cfg := PDict([(PStr("ch"), PDict([(PStr("hw_channel"), PBool(true)), (PStr("section"), PStr("grouped"))]))]);
      CheckChannels(IntHw, cfg) == Success(true)
  {
  }

  /** A float hardware channel, as a JSON file can hold, passes neither variant. */
  lemma FloatHwFailsBoth(x: real)
    ensures var cfg := PDict([(PStr("ch"), PDict([(PStr("hw_channel"), PFloat(x)), (PStr("section"), PStr("grouped"))]))]);
      CheckChannels(StrHw, cfg) == Success(false) && CheckChannels(IntHw, cfg) == Success(false)
  {
  }

  /** Apart from the hardware channel's type, the two variants decide alike:
      an entry whose hardware channel passes in both, or in neither, gets one verdict. */
  lemma VariantsAgreeOnOtherRules(e: (PyValue, PyValue))
    requires e.1.PDict? && Field(e.1.entries, "hw_channel").Some? ==>
      (HwTypeOk(StrHw, Field(e.1.entries, "hw_channel").value)
       <==> HwTypeOk(IntHw, Field(e.1.entries, "hw_channel").value))
    ensures EntryVerdict(StrHw, e) == EntryVerdict(IntHw, e)
  {
  }

  /** The GUI's labels are sixteen distinct one-character strings. */
  lemma HwConfigLabels()
    ensures |HwConfig| == 16
    ensures forall i :: 0 <= i < |HwConfig| ==> |HwConfig[i]| == 1
    ensures forall i, j :: 0 <= i < j < |HwConfig| ==> HwConfig[i] != HwConfig[j]
  {
  }
}
