/** The group setup dialogs: named groups of channels kept in an
    insertion-ordered dictionary from group name to member list. The
    per-group dialog adds or overwrites one group; the main dialog removes
    groups and, on OK, publishes the groups sorted by name. */
module GroupSetupDialog {
  import opened Wrappers
  import opened Sorting
  import PyText

  /** A group dictionary, in insertion order. */
  type Groups = seq<(string, seq<string>)>

  /** Why the per-group dialog refused, i.e. which warning it shows. */
  datatype GroupError = EmptyGroupName | TooFewChannels

  function GroupName(g: (string, seq<string>)): string {
    g.0
  }

  function Id(s: string): string {
    s
  }

  /** `d.keys()`, in order. */
  function KeysOf(d: Groups): (ks: seq<string>)
    ensures |ks| == |d| && forall j :: 0 <= j < |d| ==> ks[j] == d[j].0
  {
    seq(|d|, j requires 0 <= j < |d| => d[j].0)
  }

  /** `d.get(k)`. */
  function Lookup(d: Groups, k: string): (r: Option<seq<string>>)
    ensures r.Some? <==> k in KeysOf(d)
    ensures r.Some? ==> (k, r.value) in d
  {
    if d == [] then None
    else if d[0].0 == k then Some(d[0].1)
    else
      var r := Lookup(d[1..], k);
      assert KeysOf(d) == [d[0].0] + KeysOf(d[1..]);
      r
  }

  /** `d[k] = v`: an existing key keeps its place, a new one goes last. */
  function Assign(d: Groups, k: string, v: seq<string>): (r: Groups)
    ensures (k, v) in r
    ensures |d| <= |r| <= |d| + 1
  {
    if d == [] then [(k, v)]
    else if d[0].0 == k then [(k, v)] + d[1..]
    else [d[0]] + Assign(d[1..], k, v)
  }

  /** `del d[k]`, or `KeyError` when `k` is not a key. */
  function Remove(d: Groups, k: string): (r: Result<Groups, Exception>)
    ensures r.Failure? <==> k !in KeysOf(d)
    ensures r.Failure? ==> r.error == KeyError
  {
    if d == [] then Failure(KeyError)
    else if d[0].0 == k then Success(d[1..])
    else
      assert KeysOf(d) == [d[0].0] + KeysOf(d[1..]);
      match Remove(d[1..], k)
      case Failure(e) => Failure(e)
      case Success(rest) => Success([d[0]] + rest)
  }

  /** The per-group dialog's OK: the name must be non-empty and at least two
      channels selected; then the group holds the selection sorted. */
  function IndividualAccept(d: Groups, name: string, selected: seq<string>): (r: Result<Groups, GroupError>)
    ensures r.Failure? <==> name == "" || |selected| < 2
    ensures r.Success? ==> (name, SortBy(selected, Id)) in r.value
  {
    if name == "" then Failure(EmptyGroupName)
    else if |selected| < 2 then Failure(TooFewChannels)
    else Success(Assign(d, name, SortBy(selected, Id)))
  }

  /** The channels offered for a group: the channel names, sorted. */
  function ChannelChoices(channelNames: seq<string>): (c: seq<string>)
    ensures |c| == |channelNames|
  {
    SortBy(channelNames, Id)
  }

  // ---- properties of the group dictionary ----

  /** After `d[k] = v`, `k` maps to `v` and every other key is unchanged. */
  lemma {:induction false} AssignLookup(d: Groups, k: string, v: seq<string>, k2: string)
    ensures Lookup(Assign(d, k, v), k2) == if k2 == k then Some(v) else Lookup(d, k2)
  {
    if d != [] && d[0].0 != k {
      AssignLookup(d[1..], k, v, k2);
    }
  }

  /** The names of a non-empty dictionary: its first name, then the rest's. */
  lemma KeysOfCons(d: Groups)
    requires |d| > 0
    ensures KeysOf(d) == [d[0].0] + KeysOf(d[1..])
  {
  }

  /** Overwriting keeps the key order; a new key is appended. */
  lemma {:induction false} AssignKeys(d: Groups, k: string, v: seq<string>)
    ensures KeysOf(Assign(d, k, v)) == if k in KeysOf(d) then KeysOf(d) else KeysOf(d) + [k]
  {
    var a := Assign(d, k, v);
    if d == [] {
      assert KeysOf(a) == [k];
    } else if d[0].0 != k {
      var tail := d[1..];
      var ta := Assign(tail, k, v);
      assert a == [d[0]] + ta;
      AssignKeys(tail, k, v);
      KeysOfAppend([d[0]], ta);
      KeysOfAppend([d[0]], tail);
      assert d == [d[0]] + tail;
      assert (k in KeysOf(d)) == (k in KeysOf(tail));
    } else {
      assert a == [(k, v)] + d[1..];
      KeysOfAppend([(k, v)], d[1..]);
      KeysOfAppend([d[0]], d[1..]);
      assert d == [d[0]] + d[1..];
    }
  }

  /** The names of a concatenation are the concatenated names. */
  lemma KeysOfAppend(d: Groups, e: Groups)
    ensures KeysOf(d + e) == KeysOf(d) + KeysOf(e)
  {
  }

  /** Assigning keeps the names distinct: the result is still a dictionary. */
  lemma AssignKeepsKeysDistinct(d: Groups, k: string, v: seq<string>)
    requires DistinctKeys(d, GroupName)
    ensures DistinctKeys(Assign(d, k, v), GroupName)
  {
    var a := Assign(d, k, v);
    AssignKeys(d, k, v);
    var ka := KeysOf(a);
    forall i, j | 0 <= i < j < |a| ensures GroupName(a[i]) != GroupName(a[j]) {
      assert ka[i] == a[i].0 && ka[j] == a[j].0;
      if j < |d| {
        assert GroupName(d[i]) != GroupName(d[j]);
      } else {
        assert ka[j] == k && ka[i] == d[i].0;
      }
    }
  }

  /** The entries after the first of a dictionary form a dictionary. */
  lemma TailIsDictionary(d: Groups)
    requires |d| > 0 && DistinctKeys(d, GroupName)
    ensures DistinctKeys(d[1..], GroupName)
  {
    forall i, j | 0 <= i < j < |d[1..]| ensures GroupName(d[1..][i]) != GroupName(d[1..][j]) {
      assert GroupName(d[i + 1]) != GroupName(d[j + 1]);
    }
  }

  /** The first name of a dictionary does not come again. */
  lemma HeadNotInTail(d: Groups)
    requires |d| > 0 && DistinctKeys(d, GroupName)
    ensures d[0].0 !in KeysOf(d[1..])
  {
    forall j | 0 <= j < |d[1..]| ensures d[1..][j].0 != d[0].0 {
      assert GroupName(d[0]) != GroupName(d[j + 1]);
    }
  }

  /** After `del d[k]` on a dictionary, `k` is gone and every other key is unchanged. */
  lemma {:induction false} RemoveLookup(d: Groups, k: string, k2: string)
    requires DistinctKeys(d, GroupName) && k in KeysOf(d)
    ensures Remove(d, k).Success?
    ensures Lookup(Remove(d, k).value, k2) == if k2 == k then None else Lookup(d, k2)
  {
    var tail := d[1..];
    assert KeysOf(d) == [d[0].0] + KeysOf(tail);
    TailIsDictionary(d);
    if d[0].0 == k {
      assert Remove(d, k) == Success(tail);
      if k2 == k {
        HeadNotInTail(d);
      }
    } else {
      RemoveLookup(tail, k, k2);
      var rest := Remove(tail, k).value;
      assert Remove(d, k) == Success([d[0]] + rest);
      assert ([d[0]] + rest)[1..] == rest;
    }
  }

  /** `del d[k]` on a dictionary leaves a dictionary whose keys are the old
      ones except `k`. */
  lemma {:induction false} RemoveKeepsKeysDistinct(d: Groups, k: string)
    requires DistinctKeys(d, GroupName) && Remove(d, k).Success?
    ensures DistinctKeys(Remove(d, k).value, GroupName)
    ensures forall x :: x in KeysOf(Remove(d, k).value) <==> x in KeysOf(d) && x != k
  {
    var tail := d[1..];
    KeysOfCons(d);
    TailIsDictionary(d);
    HeadNotInTail(d);
    if d[0].0 == k {
      assert Remove(d, k).value == tail;
    } else {
      RemoveKeepsKeysDistinct(tail, k);
      var rest := Remove(tail, k).value;
      assert Remove(d, k).value == [d[0]] + rest;
      ConsKeepsKeysDistinct(d[0], rest);
      KeysOfCons([d[0]] + rest);
      assert ([d[0]] + rest)[1..] == rest;
    }
  }

  /** A name not among a dictionary's names can go in front of it. */
  lemma ConsKeepsKeysDistinct(e: (string, seq<string>), rest: Groups)
    requires DistinctKeys(rest, GroupName) && e.0 !in KeysOf(rest)
    ensures DistinctKeys([e] + rest, GroupName)
  {
    var r := [e] + rest;
    forall i, j | 0 <= i < j < |r| ensures GroupName(r[i]) != GroupName(r[j]) {
      if i == 0 {
        assert r[j].0 == KeysOf(rest)[j - 1];
      } else {
        assert r[i] == rest[i - 1] && r[j] == rest[j - 1];
      }
    }
  }

  /** In a dictionary, an entry present is what lookup finds. */
  lemma {:induction false} LookupFindsEntry(d: Groups, k: string, v: seq<string>)
    requires DistinctKeys(d, GroupName) && (k, v) in d
    ensures Lookup(d, k) == Some(v)
  {
    if d[0] != (k, v) {
      assert GroupName(d[0]) != k by {
        var j :| 0 <= j < |d| && d[j] == (k, v);
        assert j != 0;
      }
      assert (k, v) in d[1..];
      TailIsDictionary(d);
      LookupFindsEntry(d[1..], k, v);
    }
  }

  /** Sorting the groups by name, as the main dialog's OK does, keeps every
      name's members and orders the names strictly. */
  lemma SortedGroupsSameLookups(d: Groups, k: string)
    requires DistinctKeys(d, GroupName)
    ensures var s := SortBy(d, GroupName);
      && StrictlySortedBy(s, GroupName)
      && multiset(s) == multiset(d)
      && Lookup(s, k) == Lookup(d, k)
  {
    var s := SortBy(d, GroupName);
    SortByCorrect(d, GroupName);
    SortByStrict(d, GroupName);
    assert DistinctKeys(s, GroupName);
    match Lookup(d, k)
    case Some(v) =>
      assert (k, v) in multiset(d);
      LookupFindsEntry(s, k, v);
    case None =>
      if Lookup(s, k).Some? {
        assert (k, Lookup(s, k).value) in multiset(d);
      }
  }

  /** The per-group dialog refuses exactly an empty name or fewer than two
      channels, in that order, and otherwise stores the sorted selection under
      the name, leaving every other group as it was. */
  lemma IndividualAcceptSpec(d: Groups, name: string, selected: seq<string>, other: string)
    ensures IndividualAccept(d, name, selected).Failure? <==> name == "" || |selected| < 2
    ensures name == "" ==> IndividualAccept(d, name, selected) == Failure(EmptyGroupName)
    ensures name != "" && |selected| < 2 ==> IndividualAccept(d, name, selected) == Failure(TooFewChannels)
    ensures IndividualAccept(d, name, selected).Success? ==>
      var g := IndividualAccept(d, name, selected).value;
      && Lookup(g, name).Some?
      && multiset(Lookup(g, name).value) == multiset(selected)
      && SortedBy(Lookup(g, name).value, Id)
      && (other != name ==> Lookup(g, other) == Lookup(d, other))
  {
    if name != "" && |selected| >= 2 {
      SortByCorrect(selected, Id);
      AssignLookup(d, name, SortBy(selected, Id), name);
      AssignLookup(d, name, SortBy(selected, Id), other);
    }
  }

  /** The channels offered are the channel names, each as often as before, in
      non-decreasing order. */
  lemma ChannelChoicesSorted(channelNames: seq<string>)
    ensures multiset(ChannelChoices(channelNames)) == multiset(channelNames)
    ensures SortedBy(ChannelChoices(channelNames), Id)
  {
    SortByCorrect(channelNames, Id);
  }

  /** The main window's side: the groups it uses (`channel_groups`). */
  class GroupOwner {
    var channelGroups: Groups

    constructor (channelGroups: Groups)
      ensures this.channelGroups == channelGroups
    {
      this.channelGroups := channelGroups;
    }
  }

  /** The main group dialog. `groupList` holds the texts of the list widget. */
  class GroupSetup {
    const parent: GroupOwner
    const channelNames: seq<string>
    var groups: Groups
    var groupList: seq<string>
    var accepted: bool

    /** The groups form a dictionary: no name twice. */
    ghost predicate Valid()
      reads this
    {
      DistinctKeys(groups, GroupName)
    }

    /** Groups default to `{}`; the list widget shows the group names. */
    constructor (parent: GroupOwner, channelNames: seq<string>, groups: Option<Groups>)
      requires groups.Some? ==> DistinctKeys(groups.value, GroupName)
      ensures Valid()
      ensures this.parent == parent && this.channelNames == channelNames
      ensures this.groups == (if groups.Some? then groups.value else [])
      ensures groupList == KeysOf(this.groups) && !accepted
    {
      this.parent := parent;
      this.channelNames := channelNames;
      this.groups := if groups.Some? then groups.value else [];
      this.groupList := KeysOf(if groups.Some? then groups.value else []);
      this.accepted := false;
    }

    /** OK: the groups sorted by name, and published to the owner. */
    method Accept()
      requires Valid()
      modifies this, parent
      ensures Valid()
      ensures groups == SortBy(old(groups), GroupName)
      ensures parent.channelGroups == groups && accepted
      ensures groupList == old(groupList)
    {
      SortByStrict(groups, GroupName);
      groups := SortBy(groups, GroupName);
      forall i, j | 0 <= i < j < |groups| ensures GroupName(groups[i]) != GroupName(groups[j]) {
        PyText.StrLessIrreflexive(GroupName(groups[i]));
      }
      parent.channelGroups := groups;
      accepted := true;
    }

    /** `remove_group()` with the list widget's current row `row` (`-1` when
        nothing is selected). A selected name that is not a key raises
        `KeyError` and nothing changes; otherwise the group and its row go. */
    method RemoveGroup(row: int) returns (raised: Option<Exception>)
      requires Valid()
      modifies this
      ensures Valid()
      ensures !(0 <= row < |old(groupList)|) ==>
        raised == None && groups == old(groups) && groupList == old(groupList)
      ensures 0 <= row < |old(groupList)| ==>
        match Remove(old(groups), old(groupList)[row])
        case Failure(e) => raised == Some(e) && groups == old(groups) && groupList == old(groupList)
        case Success(g) =>
          && raised == None && groups == g
          && groupList == old(groupList)[..row] + old(groupList)[row + 1..]
      ensures accepted == old(accepted)
    {
      raised := None;
      if 0 <= row < |groupList| {
        match Remove(groups, groupList[row]) {
          case Failure(e) =>
            raised := Some(e);
            return;
          case Success(g) =>
            RemoveKeepsKeysDistinct(groups, groupList[row]);
            groups := g;
        }
        groupList := groupList[..row] + groupList[row + 1..];
      }
    }

    /** `add_group()` once the per-group dialog has been accepted: the list
        widget is rebuilt from the group names. */
    method RefreshGroupList()
      modifies this
      ensures groupList == KeysOf(groups)
      ensures groups == old(groups) && accepted == old(accepted)
    {
      groupList := KeysOf(groups);
    }
  }

  /** The per-group dialog: a group name, and the texts of the selected items
      of the channel list. */
  class GroupSetupIndividual {
    const parent: GroupSetup
    const channelChoices: seq<string>
    var groupName: string
    var selected: seq<string>
    var accepted: bool

    constructor (parent: GroupSetup)
      ensures this.parent == parent && channelChoices == ChannelChoices(parent.channelNames)
      ensures groupName == "" && selected == [] && !accepted
    {
      this.parent := parent;
      this.channelChoices := ChannelChoices(parent.channelNames);
      this.groupName := "";
      this.selected := [];
      this.accepted := false;
    }

    /** OK: the warning for an empty name or too small a selection, with the
        groups untouched; otherwise `groups[name]` becomes the sorted selection. */
    method Accept() returns (warning: Option<GroupError>)
      requires parent.Valid()
      modifies this, parent
      ensures parent.Valid()
      ensures groupName == old(groupName) && selected == old(selected)
      ensures parent.groupList == old(parent.groupList) && parent.accepted == old(parent.accepted)
      ensures match IndividualAccept(old(parent.groups), groupName, selected)
        case Failure(e) => warning == Some(e) && parent.groups == old(parent.groups) && accepted == old(accepted)
        case Success(g) => warning == None && parent.groups == g && accepted
    {
      if groupName == "" {
        return Some(EmptyGroupName);
      }
      if |selected| < 2 {
        return Some(TooFewChannels);
      }
      AssignKeepsKeysDistinct(parent.groups, groupName, SortBy(selected, Id));
      parent.groups := Assign(parent.groups, groupName, SortBy(selected, Id));
      accepted := true;
      warning := None;
    }
  }
}
