/** The channel setup dialog: one tab per channel (name, hardware channel,
    display section). Saving checks the tabs and, only when every check
    passes, replaces the stored configuration with a dictionary sorted by
    channel name. */
module ChannelSetupDialog {
  import opened Wrappers
  import opened Sorting
  import opened PyValues
  import opened ChannelChecks
  import PyText

  /** What a tab's `data` property gives. */
  datatype ChannelData = ChannelData(name: string, hwChannel: string, section: string)

  /** One stored channel: `{"hw_channel": …, "section": …}`. */
  datatype Entry = Entry(hwChannel: string, section: string)

  /** Why `save` refused, i.e. which warning it shows. */
  datatype SaveError = EmptyName | DuplicateName(name: string) | DuplicateHwChannel

  /** A channel dictionary, in insertion order. */
  type Channels = seq<(string, Entry)>

  function Name(e: (string, Entry)): string {
    e.0
  }

  predicate NamedIn(cs: Channels, n: string) {
    exists k :: 0 <= k < |cs| && cs[k].0 == n
  }

  /** The dictionary entries the tabs describe, in tab order. */
  function EntriesOf(data: seq<ChannelData>): (cs: Channels)
    ensures |cs| == |data|
    ensures forall k :: 0 <= k < |data| ==> cs[k] == (data[k].name, Entry(data[k].hwChannel, data[k].section))
  {
    seq(|data|, k requires 0 <= k < |data| => (data[k].name, Entry(data[k].hwChannel, data[k].section)))
  }

  /** Every name non-empty, and no name twice. */
  predicate ValidNames(data: seq<ChannelData>) {
    && (forall k :: 0 <= k < |data| ==> data[k].name != "")
    && (forall i, j :: 0 <= i < j < |data| ==> data[i].name != data[j].name)
  }

  predicate DistinctHw(data: seq<ChannelData>) {
    forall i, j :: 0 <= i < j < |data| ==> data[i].hwChannel != data[j].hwChannel
  }

  /** The tab loop of `save`: each tab in turn is rejected for an empty name or
      a name already taken, or added to the dictionary. */
  function Collect(data: seq<ChannelData>): (r: Result<Channels, SaveError>)
    ensures r.Success? ==> |r.value| == |data|
    ensures r.Failure? ==> r.error != DuplicateHwChannel
    ensures r.Failure? ==> |data| > 0
    decreases |data|
  {
    if data == [] then Success([])
    else
      match Collect(data[..|data| - 1])
      case Failure(e) => Failure(e)
      case Success(cs) =>
        var d := data[|data| - 1];
        if d.name == "" then Failure(EmptyName)
        else if NamedIn(cs, d.name) then Failure(DuplicateName(d.name))
        else Success(cs + [(d.name, Entry(d.hwChannel, d.section))])
  }

  /** What `save` does with the tabs' data: the tab loop, then the hardware
      channel check, then sorting by name. */
  function SaveSpec(data: seq<ChannelData>): (r: Result<Channels, SaveError>)
    ensures r.Success? ==> |r.value| == |data| && DistinctHw(data)
    ensures r == Failure(DuplicateHwChannel) ==> !DistinctHw(data)
    ensures data == [] ==> r == Success([])
  {
    match Collect(data)
    case Failure(e) => Failure(e)
    case Success(cs) =>
      if !DistinctHw(data) then Failure(DuplicateHwChannel)
      else Success(SortBy(cs, Name))
  }

  /** One stored channel as a Python value: `{"hw_channel": …, "section": …}`. */
  function EntryToPy(e: Entry): (v: PyValue)
    ensures v.PDict? && |v.entries| == 2
    ensures Field(v.entries, "hw_channel") == Some(PStr(e.hwChannel))
    ensures Field(v.entries, "section") == Some(PStr(e.section))
  {
    PDict([(PStr("hw_channel"), PStr(e.hwChannel)), (PStr("section"), PStr(e.section))])
  }

  /** The dictionary `save` stores, as a Python value. */
  function ToPy(cs: Channels): (v: PyValue)
    ensures v.PDict? && |v.entries| == |cs|
    ensures forall k :: 0 <= k < |cs| ==> v.entries[k] == (PStr(cs[k].0), EntryToPy(cs[k].1))
  {
    PDict(seq(|cs|, k requires 0 <= k < |cs| =>
      (PStr(cs[k].0), EntryToPy(cs[k].1))))
  }

  /** `len(hw_channels) != len(set(hw_channels))`. */
  function SetOf<T>(s: seq<T>): set<T> {
    set x | x in s
  }

  /** What the hardware channel combo box shows after `setCurrentText(hw)`:
      `hw` when it is one of the listed labels; otherwise the box keeps the
      label it showed, the first. */
  function HwShown(hw: string): (s: string)
    ensures s in HwConfig
    ensures hw in HwConfig ==> s == hw
    ensures hw !in HwConfig ==> s == HwConfig[0]
  {
    if hw in HwConfig then hw else HwConfig[0]
  }

  /** The data of the tab `add_tab(name=channel, values=channels[channel])`
      builds for one stored channel that `check_channels` accepted. */
  function LoadedEntry(e: (PyValue, PyValue)): (d: ChannelData)
    requires Passes(StrHw, e)
    ensures e.0 == PStr(d.name) && d.hwChannel in HwConfig
    ensures d.section == "grouped" <==> Field(e.1.entries, "section") == Some(PStr("grouped"))
  {
    var inner := e.1.entries;
    ChannelData(e.0.s, HwShown(Field(inner, "hw_channel").value.s),
      SectionLabel(ChoosesIndividual(Field(inner, "section").value.s)))
  }

  /** The tabs a stored configuration loads as, one per channel, in order. */
  function LoadedData(entries: seq<(PyValue, PyValue)>): (ds: seq<ChannelData>)
    requires forall k :: 0 <= k < |entries| ==> Passes(StrHw, entries[k])
    ensures |ds| == |entries|
    ensures forall k :: 0 <= k < |entries| ==> ds[k] == LoadedEntry(entries[k])
  {
    seq(|entries|, k requires 0 <= k < |entries| => LoadedEntry(entries[k]))
  }

  // ---- properties of the tab loop and of save ----

  /** The tab loop succeeds exactly when all names are non-empty and distinct,
      and then holds every tab's entry in tab order. */
  lemma {:induction false} CollectSpec(data: seq<ChannelData>)
    ensures Collect(data).Success? <==> ValidNames(data)
    ensures Collect(data).Success? ==> Collect(data).value == EntriesOf(data)
    decreases |data|
  {
    if data != [] {
      var init := data[..|data| - 1];
      var d := data[|data| - 1];
      CollectSpec(init);
      assert forall k :: 0 <= k < |init| ==> init[k] == data[k];
      if Collect(init).Success? {
        var cs := Collect(init).value;
        assert NamedIn(cs, d.name) <==> exists k :: 0 <= k < |init| && data[k].name == d.name by {
          if NamedIn(cs, d.name) {
            var k :| 0 <= k < |cs| && cs[k].0 == d.name;
            assert data[k].name == d.name;
          }
        }
        if d.name != "" && !NamedIn(cs, d.name) {
          assert cs + [(d.name, Entry(d.hwChannel, d.section))] == EntriesOf(data);
        }
      } else {
        assert !ValidNames(data) by {
          if ValidNames(data) {
            assert ValidNames(init);
          }
        }
      }
    }
  }

  /** Once the tab loop has failed on a prefix, later tabs change nothing. */
  lemma {:induction false} CollectFailureSticks(data: seq<ChannelData>, n: nat)
    requires n <= |data| && Collect(data[..n]).Failure?
    ensures Collect(data) == Collect(data[..n])
    decreases |data| - n
  {
    if n < |data| {
      var m := |data| - 1;
      if n < m {
        assert data[..m][..n] == data[..n];
        CollectFailureSticks(data[..m], n);
      } else {
        assert data[..n] == data[..m];
      }
    } else {
      assert data[..n] == data;
    }
  }

  /** The first tab with an empty name, after only valid names, gives the
      empty-name warning, whatever follows it. */
  lemma FirstEmptyNameReported(data: seq<ChannelData>, k: nat)
    requires k < |data| && data[k].name == "" && ValidNames(data[..k])
    ensures SaveSpec(data) == Failure(EmptyName)
  {
    CollectSpec(data[..k]);
    assert data[..k + 1][..k] == data[..k];
    assert Collect(data[..k + 1]) == Failure(EmptyName);
    CollectFailureSticks(data, k + 1);
  }

  /** The first repeated name, after only valid names, gives the duplicate-name
      warning for that name, whatever follows it. */
  lemma FirstDuplicateNameReported(data: seq<ChannelData>, j: nat, k: nat)
    requires j < k < |data| && data[k].name == data[j].name != ""
    requires ValidNames(data[..k])
    ensures SaveSpec(data) == Failure(DuplicateName(data[k].name))
  {
    CollectSpec(data[..k]);
    var cs := Collect(data[..k]).value;
    assert cs[j].0 == data[j].name;
    assert data[..k + 1][..k] == data[..k];
    assert Collect(data[..k + 1]) == Failure(DuplicateName(data[k].name));
    CollectFailureSticks(data, k + 1);
  }

  /** `save` succeeds exactly when names are non-empty and distinct and
      hardware channels are distinct. */
  lemma SaveSucceedsIff(data: seq<ChannelData>)
    ensures SaveSpec(data).Success? <==> ValidNames(data) && DistinctHw(data)
  {
    CollectSpec(data);
  }

  /** With names valid and hardware channels shared, `save` reports the
      hardware channel clash. */
  lemma SharedHwReported(data: seq<ChannelData>)
    requires ValidNames(data) && !DistinctHw(data)
    ensures SaveSpec(data) == Failure(DuplicateHwChannel)
  {
    CollectSpec(data);
  }

  /** A successful `save` stores every tab's entry, each name once, in strictly
      ascending name order, and the result passes `check_channels`. */
  lemma SaveResult(data: seq<ChannelData>)
    requires SaveSpec(data).Success?
    ensures var cs := SaveSpec(data).value;
      && multiset(cs) == multiset(EntriesOf(data))
      && StrictlySortedBy(cs, Name)
      && (forall k :: 0 <= k < |data| ==> (data[k].name, Entry(data[k].hwChannel, data[k].section)) in cs)
      && CheckChannels(StrHw, ToPy(cs)) == Success(true)
  {
    CollectSpec(data);
    var es := EntriesOf(data);
    var cs := SaveSpec(data).value;
    SortByCorrect(es, Name);
    SortByStrict(es, Name);
    forall k | 0 <= k < |data|
      ensures es[k] in cs
    {
      assert es[k] in multiset(es);
    }
    SavedDictPassesCheck(cs);
  }

  /** Whatever `save` stores passes the string-hardware-channel `check_channels`. */
  lemma SavedDictPassesCheck(cs: Channels)
    ensures CheckChannels(StrHw, ToPy(cs)) == Success(true)
  {
    var v := ToPy(cs);
    forall k | 0 <= k < |v.entries|
      ensures Passes(StrHw, v.entries[k])
    {
      var inner := v.entries[k].1.entries;
      assert Field(inner, "hw_channel") == Some(PStr(cs[k].1.hwChannel));
      assert Field(inner, "section") == Some(PStr(cs[k].1.section));
    }
  }

  /** A channel `save` stored loads back as a tab showing its name, its
      hardware channel if listed, and its section. */
  lemma LoadedSavedEntry(n: string, e: Entry)
    ensures Passes(StrHw, (PStr(n), EntryToPy(e)))
    ensures LoadedEntry((PStr(n), EntryToPy(e))) ==
      ChannelData(n, HwShown(e.hwChannel), SectionLabel(ChoosesIndividual(e.section)))
  {
  }

  /** The tab a stored entry reopens as. */
  function Restored(e: (string, Entry)): ChannelData {
    ChannelData(e.0, HwShown(e.1.hwChannel), SectionLabel(ChoosesIndividual(e.1.section)))
  }

  /** The tabs a sequence of stored entries reopens as. */
  function RestoredAll(cs: Channels): (rs: seq<ChannelData>)
    ensures |rs| == |cs| && forall k :: 0 <= k < |cs| ==> rs[k] == Restored(cs[k])
  {
    seq(|cs|, k requires 0 <= k < |cs| => Restored(cs[k]))
  }

  /** Reopening a stored dictionary gives one tab per entry, in order. */
  lemma LoadedSaved(cs: Channels)
    ensures CheckChannels(StrHw, ToPy(cs)) == Success(true)
    ensures LoadedData(ToPy(cs).entries) == RestoredAll(cs)
  {
    SavedDictPassesCheck(cs);
    var ld := LoadedData(ToPy(cs).entries);
    forall k | 0 <= k < |cs| ensures ld[k] == RestoredAll(cs)[k] {
      LoadedSavedEntry(cs[k].0, cs[k].1);
    }
  }

  /** A tab showing a listed hardware channel and a known section is restored
      unchanged from the entry `save` makes of it. */
  lemma RestoredEntries(data: seq<ChannelData>)
    requires forall k :: 0 <= k < |data| ==>
      data[k].hwChannel in HwConfig && (data[k].section == "individual" || data[k].section == "grouped")
    ensures forall j :: 0 <= j < |data| ==> Restored(EntriesOf(data)[j]) == data[j]
  {
    forall j | 0 <= j < |data| ensures Restored(EntriesOf(data)[j]) == data[j] {
      SectionRoundTrip(data[j].section);
    }
  }

  /** Reopening the dialog on what `save` stored gives back exactly the saved
      tabs (now in name order), provided each showed a listed hardware channel
      and a known section, as tabs built by the widgets do. */
  lemma SaveThenLoad(data: seq<ChannelData>)
    requires SaveSpec(data).Success?
    requires forall k :: 0 <= k < |data| ==>
      data[k].hwChannel in HwConfig && (data[k].section == "individual" || data[k].section == "grouped")
    ensures CheckChannels(StrHw, ToPy(SaveSpec(data).value)) == Success(true)
    ensures var ld := LoadedData(ToPy(SaveSpec(data).value).entries);
      && |ld| == |data|
      && (forall k :: 0 <= k < |ld| ==> ld[k] in data)
      && (forall j :: 0 <= j < |data| ==> data[j] in ld)
    ensures var ld := LoadedData(ToPy(SaveSpec(data).value).entries);
      forall i, j :: 0 <= i < j < |ld| ==> PyText.StrLess(ld[i].name, ld[j].name)
  {
    SaveResult(data);
    RestoredEntries(data);
    ReloadRestores(SaveSpec(data).value, data);
    ReloadKeepsNameOrder(SaveSpec(data).value);
  }

  /** Reopening a dictionary whose names ascend gives tabs whose names ascend. */
  lemma ReloadKeepsNameOrder(cs: Channels)
    requires StrictlySortedBy(cs, Name)
    ensures var ld := LoadedData(ToPy(cs).entries);
      forall i, j :: 0 <= i < j < |ld| ==> PyText.StrLess(ld[i].name, ld[j].name)
  {
    LoadedSaved(cs);
    var ld := LoadedData(ToPy(cs).entries);
    forall i, j | 0 <= i < j < |ld| ensures PyText.StrLess(ld[i].name, ld[j].name) {
      assert ld[i].name == Name(cs[i]) && ld[j].name == Name(cs[j]);
    }
  }

  /** Reopening a permutation of the entries `save` makes of some tabs gives
      those tabs back, when each is restored unchanged from its entry. */
  lemma ReloadRestores(cs: Channels, data: seq<ChannelData>)
    requires multiset(cs) == multiset(EntriesOf(data))
    requires forall j :: 0 <= j < |data| ==> Restored(EntriesOf(data)[j]) == data[j]
    ensures CheckChannels(StrHw, ToPy(cs)) == Success(true)
    ensures var ld := LoadedData(ToPy(cs).entries);
      && |ld| == |data|
      && (forall k :: 0 <= k < |ld| ==> ld[k] in data)
      && (forall j :: 0 <= j < |data| ==> data[j] in ld)
  {
    LoadedSaved(cs);
    RestoredPermutation(cs, data);
    assert |cs| == |multiset(cs)| == |data|;
  }

  /** Entries that are a permutation of the saved ones restore to the saved
      tabs and to nothing else. */
  lemma RestoredPermutation(cs: Channels, data: seq<ChannelData>)
    requires multiset(cs) == multiset(EntriesOf(data))
    requires forall j :: 0 <= j < |data| ==> Restored(EntriesOf(data)[j]) == data[j]
    ensures forall k :: 0 <= k < |cs| ==> RestoredAll(cs)[k] in data
    ensures forall j :: 0 <= j < |data| ==> data[j] in RestoredAll(cs)
  {
    var es := EntriesOf(data);
    var rs := RestoredAll(cs);
    forall k | 0 <= k < |cs| ensures rs[k] in data {
      assert cs[k] in multiset(es);
      var j :| 0 <= j < |es| && es[j] == cs[k];
      assert rs[k] == data[j];
    }
    forall j | 0 <= j < |data| ensures data[j] in rs {
      assert es[j] in multiset(cs);
      var k :| 0 <= k < |cs| && cs[k] == es[j];
      assert rs[k] == data[j];
    }
  }

  /** A prefix one longer is the prefix and the next element. */
  lemma PrefixStep<T>(s: seq<T>, i: nat)
    requires i < |s|
    ensures s[..i + 1] == s[..i] + [s[i]]
  {
  }

  /** `len(seq) == len(set(seq))` exactly when no element repeats. */
  lemma {:induction false} SetOfCard<T>(s: seq<T>)
    ensures |SetOf(s)| <= |s|
    ensures |SetOf(s)| == |s| <==> forall i, j :: 0 <= i < j < |s| ==> s[i] != s[j]
    decreases |s|
  {
    if s != [] {
      var init := s[..|s| - 1];
      var last := s[|s| - 1];
      SetOfCard(init);
      assert SetOf(s) == SetOf(init) + {last};
      if last in init {
        assert SetOf(s) == SetOf(init);
        var i :| 0 <= i < |init| && init[i] == last;
        assert s[i] == s[|s| - 1];
      } else {
        assert |SetOf(s)| == |SetOf(init)| + 1;
        assert (forall i, j :: 0 <= i < j < |s| ==> s[i] != s[j])
          <==> (forall i, j :: 0 <= i < j < |init| ==> init[i] != init[j]) by {
          assert forall i :: 0 <= i < |init| ==> s[i] == init[i];
        }
      }
    }
  }

  /** The hardware channels of a dictionary, in its order. */
  function HwChannelsOf(cs: Channels): (hws: seq<string>)
    ensures |hws| == |cs| && forall k :: 0 <= k < |cs| ==> hws[k] == cs[k].1.hwChannel
  {
    seq(|cs|, k requires 0 <= k < |cs| => cs[k].1.hwChannel)
  }

  /** After a successful tab loop, `save`'s set-size test on the collected
      hardware channels agrees with `DistinctHw`. */
  lemma HwCheckMatches(data: seq<ChannelData>, cs: Channels)
    requires Collect(data) == Success(cs)
    ensures |HwChannelsOf(cs)| == |SetOf(HwChannelsOf(cs))| <==> DistinctHw(data)
  {
    CollectSpec(data);
    var hws := HwChannelsOf(cs);
    SetOfCard(hws);
    assert forall k :: 0 <= k < |hws| ==> hws[k] == data[k].hwChannel;
  }

  // ---- the section radio buttons ----

  /** The `section` getter's reading of the radio buttons. */
  function SectionLabel(individualChecked: bool): (s: string)
    ensures s == "individual" <==> individualChecked
    ensures s == "individual" || s == "grouped"
  {
    if individualChecked then "individual" else "grouped"
  }

  /** Which button the `section` setter checks: `"grouped"` selects grouped,
      every other value selects individual. */
  predicate ChoosesIndividual(value: string): (b: bool)
    ensures value == "individual" ==> b
    ensures !b ==> value == "grouped"
    ensures value == "Grouped" || value == "" ==> b
  {
    value != "grouped"
  }

  /** Setting a section and reading it back gives it back for the two known
      sections; anything else reads back as `"individual"`. */
  lemma SectionRoundTrip(value: string)
    ensures SectionLabel(ChoosesIndividual(value)) ==
      if value == "grouped" then "grouped" else "individual"
    ensures value == "individual" || value == "grouped" ==>
      SectionLabel(ChoosesIndividual(value)) == value
  {
  }

  /** One channel tab. The hardware channel combo box offers the labels of
      `HwConfig` and starts on the first. */
  class ChannelWidget {
    var name: string
    var hwChannel: string
    var individualChecked: bool

    constructor (name: string)
      ensures this.name == name && hwChannel == HwConfig[0] && individualChecked
    {
      this.name := name;
      this.hwChannel := HwConfig[0];
      this.individualChecked := true;
    }

    /** A tab for a stored channel: `value_setter` selects the stored hardware
        channel in the combo box and the stored section. */
    constructor WithValues(name: string, hw: string, section: string)
      ensures this.name == name && hwChannel == HwShown(hw)
      ensures individualChecked == ChoosesIndividual(section)
    {
      this.name := name;
      this.hwChannel := HwShown(hw);
      this.individualChecked := ChoosesIndividual(section);
    }

    function Section(): (s: string)
      reads this
      ensures s == "individual" <==> individualChecked
      ensures s == "individual" || s == "grouped"
    {
      SectionLabel(individualChecked)
    }

    method SetSection(value: string)
      modifies this
      ensures individualChecked == ChoosesIndividual(value)
      ensures name == old(name) && hwChannel == old(hwChannel)
    {
      individualChecked := ChoosesIndividual(value);
    }

    /** The `data` property. */
    function Data(): (d: ChannelData)
      reads this
      ensures d.name == name && d.hwChannel == hwChannel
      ensures d.section == "individual" <==> individualChecked
    {
      ChannelData(name, hwChannel, Section())
    }
  }

  /** The dialog: the stored configuration, the tabs, and whether it was accepted. */
  class ChannelSetup {
    var channels: PyValue
    var tabs: seq<ChannelWidget>
    var accepted: bool

    /** The dialog for `channels`, before its validity is checked. */
    constructor (channels: PyValue)
      ensures this.channels == channels && tabs == [] && !accepted
    {
      this.channels := channels;
      this.tabs := [];
      this.accepted := false;
    }

    /** The data of every tab, in tab order. */
    function TabData(): seq<ChannelData>
      reads this, set t | t in tabs
    {
      var ts := tabs;
      seq(|ts|, k requires 0 <= k < |ts| reads set t | t in ts => ts[k].Data())
    }

    /** The rest of `__init__`: `_check_channels()`, then one `"New"` tab for
        an empty configuration, or one tab per stored channel. A `TypeError`
        from the check escapes before any tab exists. */
    method Init() returns (raised: Option<Exception>)
      requires tabs == []
      modifies this
      ensures accepted == old(accepted)
      ensures match CheckChannels(StrHw, old(channels))
        case Failure(e) => raised == Some(e) && channels == old(channels) && tabs == []
        case Success(ok) =>
          && raised == None
          && channels == (if ok then old(channels) else PDict([]))
          && (channels == PDict([]) ==> TabData() == [ChannelData("New", HwConfig[0], "individual")])
          && (channels != PDict([]) ==> channels.PDict? && TabData() == LoadedData(channels.entries))
    {
      raised := CheckStoredChannels();
      if raised.Some? {
        return;
      }
      if channels == PDict([]) {
        AddTab(None);
        assert TabData()[0] == tabs[0].Data();
      } else {
        LoadTabs();
      }
    }

    /** The loop of `__init__` over a non-empty stored configuration:
        `add_tab(name=channel, values=channels[channel])` for each channel. */
    method LoadTabs()
      requires tabs == [] && channels.PDict?
      requires forall k :: 0 <= k < |channels.entries| ==> Passes(StrHw, channels.entries[k])
      modifies this
      ensures channels == old(channels) && accepted == old(accepted)
      ensures TabData() == LoadedData(channels.entries)
    {
      var entries := channels.entries;
      ghost var loaded := LoadedData(entries);
      var i := 0;
      while i < |entries|
        invariant 0 <= i <= |entries| && channels == old(channels) && accepted == old(accepted)
        invariant TabData() == loaded[..i]
      {
        AddStoredTab(entries[i]);
        PrefixStep(loaded, i);
        i := i + 1;
      }
      assert loaded[..i] == loaded;
    }

    /** `add_tab(name=channel, values=channels[channel])` for one stored
        channel: a new last tab showing the stored name, hardware channel and
        section. */
    method AddStoredTab(e: (PyValue, PyValue))
      requires Passes(StrHw, e)
      modifies this
      ensures TabData() == old(TabData()) + [LoadedEntry(e)]
      ensures channels == old(channels) && accepted == old(accepted)
    {
      var inner := e.1.entries;
      var tab := new ChannelWidget.WithValues(e.0.s, Field(inner, "hw_channel").value.s, Field(inner, "section").value.s);
      ghost var before := TabData();
      tabs := tabs + [tab];
      assert TabData()[..|before|] == before;
      assert TabData() == before + [tab.Data()];
    }

    /** `_check_channels`: an invalid configuration is replaced by `{}`; a
        `TypeError` from `check_channels` escapes and changes nothing. */
    method CheckStoredChannels() returns (raised: Option<Exception>)
      modifies this
      ensures match CheckChannels(StrHw, old(channels))
        case Success(ok) => raised == None && channels == (if ok then old(channels) else PDict([]))
        case Failure(e) => raised == Some(e) && channels == old(channels)
      ensures tabs == old(tabs) && accepted == old(accepted)
    {
      var verdict := CheckChannels(StrHw, channels);
      if verdict.Failure? {
        raised := Some(verdict.error);
      } else {
        raised := None;
        if !verdict.value {
          channels := PDict([]);
        }
      }
    }

    /** `add_tab(name)`: a new tab, named `"New"` when no name is given. */
    method AddTab(name: Option<string>)
      modifies this
      ensures |tabs| == |old(tabs)| + 1 && tabs[..|old(tabs)|] == old(tabs)
      ensures fresh(tabs[|old(tabs)|])
      ensures tabs[|old(tabs)|].name == (if name.Some? then name.value else "New")
      ensures tabs[|old(tabs)|].hwChannel == HwConfig[0] && tabs[|old(tabs)|].individualChecked
      ensures channels == old(channels) && accepted == old(accepted)
    {
      var tab := new ChannelWidget(if name.Some? then name.value else "New");
      tabs := tabs + [tab];
    }

    /** `delete_tab()` on the current tab `current`; an invalid index removes nothing. */
    method DeleteTab(current: int)
      modifies this
      ensures 0 <= current < |old(tabs)| ==> tabs == old(tabs)[..current] + old(tabs)[current + 1..]
      ensures !(0 <= current < |old(tabs)|) ==> tabs == old(tabs)
      ensures channels == old(channels) && accepted == old(accepted)
    {
      if 0 <= current < |tabs| {
        tabs := tabs[..current] + tabs[current + 1..];
      }
    }

    /** `save()`: either the warning for the first problem found, with the
        stored configuration untouched, or the sorted dictionary stored and the
        dialog accepted. */
    method Save() returns (warning: Option<SaveError>)
      modifies this
      ensures tabs == old(tabs)
      ensures match SaveSpec(old(TabData()))
        case Failure(e) => warning == Some(e) && channels == old(channels) && accepted == old(accepted)
        case Success(cs) => warning == None && channels == ToPy(cs) && accepted
    {
      ghost var data := TabData();
      var dict: Channels := [];
      var i := 0;
      while i < |tabs|
        invariant 0 <= i <= |tabs| && TabData() == data
        invariant Collect(data[..i]) == Success(dict)
      {
        var d := tabs[i].Data();
        assert data[..i + 1][..i] == data[..i] && data[i] == d;
        if d.name == "" {
          CollectFailureSticks(data, i + 1);
          return Some(EmptyName);
        }
        if NamedIn(dict, d.name) {
          CollectFailureSticks(data, i + 1);
          return Some(DuplicateName(d.name));
        }
        dict := dict + [(d.name, Entry(d.hwChannel, d.section))];
        i := i + 1;
      }
      assert data[..i] == data;
      var hws := HwChannelsOf(dict);
      HwCheckMatches(data, dict);
      if |hws| != |SetOf(hws)| {
        return Some(DuplicateHwChannel);
      }
      channels := ToPy(SortBy(dict, Name));
      accepted := true;
      warning := None;
    }
  }
}
