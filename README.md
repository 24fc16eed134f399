# DigOutBox client and configuration checks, modelled in Dafny

DigOutBox is a serial-controlled box of digital output channels (relays). This
project models the Python client that drives the box over a line-based serial
protocol, and the validators the desktop GUI applies to channel and group
configurations.

The modules, in dependency order:

- `Wrappers` (wrappers.dfy): `Option`, `Result`, and the Python exceptions that
  matter here. `NoReply` stands for a read that never gets a line.
- `PyText` (pytext.dfy): the Python string semantics the code relies on:
  - `str.rstrip()` and `str.strip()`, with Python's whitespace set;
  - `int(str)`, with sign, surrounding whitespace and digit-separating underscores;
  - `f"{int}"`, `str.split(",")`, `",".join(...)`;
  - string `<`.
- `Sorting` (sorting.dfy): `sorted` on a sequence ordered by a string key, as
  insertion sort. It is proved to permute, to sort, and to sort strictly when
  keys are distinct.
- `SerialComm` (serial_comm.dfy): the transport `DevComm`.
  - The port is observed as a `Wire`: the trace of writes and line reads, and
    the queue of reply lines the device has yet to send.
  - `sendcmd` and `query` are methods of a class over that state. They are
    proved against the pure functions `Sent` and `Queried`.
- `DigIOProtocol` (digio_protocol.dfy): the command vocabulary (`*IDN?`,
  `DO{i}?`, `DO{i} {0|1}`, `ALLDOut?`, `ALLOFF`, `INTERLOCKState?`,
  `SWLockout?`), reply parsing, and what each client operation does to the
  wire. Also the transcripts the tests pin down: set-then-get, all-off, the
  flag queries, identify, and 16 alternating states.
- `UtilFns` (util_fns.dfy): `ProxyList`, the bounds-checked indexer over a
  `range`, a list, or an enum class.
- `DeviceComm` (device_comm.dfy): the current client `DigIOBoxComm` and its
  `Channel`. The client holds its transport as `comm`, where the source
  subclasses it.
- `LegacyDeviceComm` (legacy_device_comm.dfy): the older client. It has no
  dummy mode.
- `PyValues` and `ChannelChecks` (py_values.dfy, channel_checks.dfy): loaded
  configuration values (what a JSON file loads as, floats included), both `check_channels` variants, and `HW_CONFIG`.
- `ChannelSetupDialog` (channel_setup.dfy): the channel setup dialog's
  construction from a stored configuration, `save`, `_check_channels`, tab
  handling and the display-section radio buttons.
- `GroupSetupDialog` (group_setup.dfy): the group dictionary, both group
  dialogs' OK handlers, and `remove_group`.
- `ChannelControl` (channel_control.dfy): the per-channel On/Off widget with
  its inversion rule.

Choices where the code decides:

- A query with no reply line fails with `NoReply` after its write. An integer
  reply that does not parse is a `ValueError`, as `int()` raises; there is no
  separate parse error.
- A configuration entry that is not a dictionary makes `check_channels` raise
  `TypeError`, since neither variant catches it.
- `except KeyError or IndexError` catches only `KeyError`. Subscripting with a
  string never raises `IndexError`, so the variants differ only in the
  hardware-channel type.
  - `isinstance(True, int)` holds, so the integer variant accepts booleans.
- An enum `ProxyList` iterates over members, but indexing hands the proxy
  `member.value`. Only an enum class with `Enum` or `IntEnum` as a direct base
  gets name/value resolution. Any other valid set is indexed by containment;
  for an enum class reached that way, Python 3.12's containment of members and
  member values is used.
- `ChannelSetup.add_tab` passes the keyword `possible_hw_channel`
  (channel_setup.py:108), while the tab reads `possible_hw_channels`
  (channel_setup.py:220-222). So every tab offers the hard-coded labels,
  which are those of `HwConfig`, and starts on the first. The box is not
  editable, so a stored hardware channel that is not a label leaves the first
  label selected.

## Model

| member | source | states |
|---|---|---|
| PyText.RStrip | controller_cli/controller_cli/serial_comm.py:30 | the result is a prefix of the input, everything after it is whitespace, and it does not end in whitespace |
| PyText.LStrip | controller_cli/controller_cli/device_comm.py:49 | the result is a suffix, everything before it is whitespace, and it does not start with whitespace (the stripping `int()` does) |
| PyText.Strip | controller_cli/controller_cli/device_comm.py:49 | the stripped text neither starts nor ends with whitespace |
| PyText.NatToString | controller_cli/controller_cli/device_comm.py:49 | `f"{n}"` is a non-empty run of decimal digits, starting with `0` only when it is the single digit of 0 |
| PyText.IntToString | controller_cli/controller_cli/device_comm.py:53 | `f"{i}"` starts with `-` iff `i < 0`, is otherwise all digits, and has no leading zero |
| PyText.IsSpace | controller_cli/controller_cli/serial_comm.py:30 | space, tab, newline and carriage return are whitespace; no digit, sign, comma or `?` is |
| PyText.ParseInt | controller_cli/controller_cli/device_comm.py:49 | `int(s)` of a padded digit run is its value; any number read ends in a digit, and a negative one starts with `-` after stripping |
| PyText.Join | controller_cli/tests/test_device_comm.py:36 | joining nothing gives `""`; otherwise the result starts with the first piece, followed by the separator when there is a second |
| PyText.StrLess | controller/src/main/python/channel_setup.py:180 | a proper prefix is below the longer string; nothing is below `""` |
| PyText.NatToStringValue | controller_cli/controller_cli/device_comm.py:49 | the printed digits are a valid digit run whose value is `n` |
| PyText.SignedDigits | controller_cli/controller_cli/device_comm.py:49 | a digit run reads as its value |
| PyText.SignedNegatedDigits | controller_cli/controller_cli/device_comm.py:49 | a minus followed by a digit run reads as the negated value |
| PyText.SignedRoundTrip | controller_cli/controller_cli/device_comm.py:49 | the unpadded text `f"{i}"` reads back as `i` |
| PyText.IntToStringRoundTrip | controller_cli/controller_cli/device_comm.py:49 | `int(f"{i}") == i` for every integer |
| PyText.IntToStringInjective | controller_cli/controller_cli/device_comm.py:49 | different channel indices print differently |
| PyText.ParseIntIgnoresPadding | controller_cli/controller_cli/device_comm.py:49 | whitespace around a number does not change what `int()` reads |
| PyText.ParseIntRejectsBlank | controller_cli/controller_cli/device_comm.py:49 | an empty or all-whitespace reply is not a number |
| PyText.RStripPadding | controller_cli/controller_cli/serial_comm.py:30 | `rstrip` of text plus trailing whitespace gives the text back |
| PyText.IndexOf | controller_cli/controller_cli/device_comm.py:118 | the first occurrence of the separator, or the length when there is none |
| PyText.Split | controller_cli/controller_cli/device_comm.py:118 | `split` gives at least one piece and no piece contains the separator |
| PyText.JoinCons | controller_cli/controller_cli/device_comm.py:118 | joining `[a] + rest` is `a`, the separator, then the join of `rest` |
| PyText.JoinSplit | controller_cli/controller_cli/device_comm.py:118 | joining the pieces of a split gives the text back |
| PyText.SplitJoin | controller_cli/controller_cli/device_comm.py:118 | splitting joined separator-free pieces gives the pieces back |
| PyText.StrLessTransitive | controller/src/main/python/channel_setup.py:180 | string `<` is transitive |
| PyText.StrLessTotal | controller/src/main/python/channel_setup.py:180 | of two different strings one is below the other |
| PyText.StrLessAsymmetric | controller/src/main/python/channel_setup.py:180 | string `<` is asymmetric |
| PyText.StrLessIrreflexive | controller/src/main/python/channel_setup.py:180 | no string is below itself |
| Sorting.InsertPermutes | controller/src/main/python/channel_setup.py:180 | inserting adds exactly the one element |
| Sorting.InsertSorted | controller/src/main/python/channel_setup.py:180 | inserting into a sorted sequence keeps it sorted |
| Sorting.SortByCorrect | controller/src/main/python/channel_setup.py:180 | `sorted` keeps the length and the elements (multiset) and orders by key |
| Sorting.SortByStrict | controller/src/main/python/channel_setup.py:180 | with distinct keys the order is strict |
| Sorting.SortBy | controller/src/main/python/channel_setup.py:180 | `sorted` returns as many elements as it is given |
| SerialComm.Frame | controller_cli/controller_cli/serial_comm.py:37 | the framed command is the command followed by exactly one `"\n"` |
| SerialComm.Sent | controller_cli/controller_cli/serial_comm.py:32-37 | `sendcmd` adds one write of the framed command and consumes no reply |
| SerialComm.Queried | controller_cli/controller_cli/serial_comm.py:22-30 | `query` writes first and then reads one line; the result is the line's prefix with only whitespace after it and no trailing whitespace; with no line the write still happened and the query fails |
| SerialComm.QueryReturnsReplyText | controller_cli/tests/test_device_comm.py:24-30 | a reply `text + "\n"` comes back as `text`, e.g. `"DigIOBox,1.0"` |
| SerialComm.WritesAppend | controller_cli/controller_cli/serial_comm.py:37 | the write log of a concatenated trace is the concatenation of the logs |
| SerialComm.SendLogsOneWrite | controller_cli/controller_cli/serial_comm.py:32-37 | `sendcmd` adds exactly `cmd + "\n"` to the write log |
| SerialComm.QueryLogsOneWrite | controller_cli/controller_cli/serial_comm.py:29-30 | `query` adds exactly `cmd + "\n"` to the write log, with or without a reply |
| SerialComm.DevComm.constructor | controller_cli/controller_cli/serial_comm.py:13-20 | port and baud rate are kept, the terminator is `"\n"` for good (a constant), nothing has been written |
| SerialComm.DevComm.SendCmd | controller_cli/controller_cli/serial_comm.py:32-37 | the new wire state is `Sent` of the old one |
| SerialComm.DevComm.ReadLine | controller_cli/controller_cli/serial_comm.py:30 | one reply line is consumed and logged, or `NoReply` with nothing changed |
| SerialComm.DevComm.Query | controller_cli/controller_cli/serial_comm.py:22-30 | new wire state and result are `Queried` of the old state |
| DigIOProtocol.BoolDigit | controller_cli/controller_cli/device_comm.py:53 | `int(value)` of a boolean printed: the text of 1 or 0 |
| DigIOProtocol.StateQueryCmd | controller_cli/controller_cli/device_comm.py:49 | `DO{idx}?` starts with `DO`, ends in `?`, and holds no space |
| DigIOProtocol.StateSetCmd | controller_cli/controller_cli/device_comm.py:53 | `DO{idx} {int(v)}` starts with `DO` and ends in a space and the digit of `v` |
| DigIOProtocol.ParseStates | controller_cli/controller_cli/device_comm.py:118 | one state per comma-separated token, at least one; a token `int()` rejects is a `ValueError` |
| DigIOProtocol.FormatStates | controller_cli/tests/test_device_comm.py:36 | the device reply is empty iff there are no states; it starts with the first state's digit, then a comma when there is a second |
| DigIOProtocol.FlagRead | controller_cli/controller_cli/device_comm.py:49 | the wire after a flag query is the wire after the query; no reply is `NoReply`, and the only other error is `ValueError` |
| DigIOProtocol.ChannelStateRead | controller_cli/controller_cli/device_comm.py:35-49 | the write log grows by exactly `DO{idx}?` and a newline; errors are `NoReply` or `ValueError` |
| DigIOProtocol.ChannelStateWritten | controller_cli/controller_cli/device_comm.py:51-53 | the replies are untouched and the trace gains one write of `DO{idx} {int(v)}` and a newline |
| DigIOProtocol.StatesRead | controller_cli/controller_cli/device_comm.py:114-118 | the wire after `ALLDOut?` is the wire after the query; no reply is `NoReply`; otherwise the result is `ParseStates` of the rstripped reply line, at least one state on success |
| DigIOProtocol.AllOffSent | controller_cli/controller_cli/device_comm.py:122-124 | the replies are untouched and the trace gains one write |
| DigIOProtocol.ParseFlag | controller_cli/controller_cli/device_comm.py:49 | `bool(int(reply))` succeeds exactly when `int()` parses the reply, is true exactly when the number is non-zero, and otherwise fails with `ValueError` |
| DigIOProtocol.ParseAll | controller_cli/controller_cli/device_comm.py:118 | a list comprehension over tokens succeeds iff every token converts; then one value per token, in order; else the error of the first token that fails, every earlier token converting |
| DigIOProtocol.ParseFlagsPointwise | controller_cli/controller_cli/device_comm.py:118 | every token that converts to a given state yields exactly that list of states |
| DigIOProtocol.ParseFlags | controller_cli/controller_cli/device_comm.py:118 | succeeds exactly when every token parses; then one flag per token, in order, each true iff its number is non-zero |
| DigIOProtocol.Identified | controller_cli/controller_cli/device_comm.py:88-90 | dummy mode answers `"DigIOBox Dummy"` with the wire unchanged; otherwise it is the `*IDN?` query |
| DigIOProtocol.IntToStringHasNoSpace | controller_cli/controller_cli/device_comm.py:53 | a channel index prints without a space |
| DigIOProtocol.SpaceSeparatedInjective | controller_cli/controller_cli/device_comm.py:53 | two commands `prefix + a + " " + x` with space-free `a`, `b` are equal only when `a == b` and `x == y` |
| DigIOProtocol.QueryCmdInjective | controller_cli/controller_cli/device_comm.py:49 | the query commands for two channels are equal only for the same channel |
| DigIOProtocol.SetCmdInjective | controller_cli/controller_cli/device_comm.py:53 | two set commands are equal only for the same channel and the same value |
| DigIOProtocol.SetIsNotQuery | controller_cli/controller_cli/device_comm.py:49-53 | no set command is a query command |
| DigIOProtocol.CommandExamples | controller_cli/controller_cli/device_comm.py:49-53 | `DO12?`, `DO0 0` and `DO15 1` are the commands for those channels and values |
| DigIOProtocol.FlagRoundTrip | controller_cli/controller_cli/device_comm.py:49-53 | a flag written as `int(v)` reads back as `v` |
| DigIOProtocol.StatesRoundTrip | controller_cli/controller_cli/device_comm.py:117-118 | every non-empty list of states, sent as comma-separated `0/1`, parses back to itself |
| DigIOProtocol.FormatAppend | controller_cli/controller_cli/device_comm.py:118 | the reply for `a + b` is the reply for `a`, a comma, the reply for `b` |
| DigIOProtocol.FormatAlternatingEight | controller_cli/tests/test_device_comm.py:33-55 | eight alternating states are sent as `1,0,1,0,1,0,1,0` |
| DigIOProtocol.StatesExample | controller_cli/tests/test_device_comm.py:33-55 | `"1,0,…,1,0"` parses to 16 alternating states starting with on |
| DigIOProtocol.FlagReadOfDigit | controller_cli/controller_cli/device_comm.py:49 | a query answered with the printed digit of `v` reads back as `v`, with the query logged and the reply consumed |
| DigIOProtocol.WriteThenFlagRead | controller_cli/controller_cli/device_comm.py:49-53 | writing a command and then a query answered with `int(v)` gives the trace write, write, read and returns `v` |
| DigIOProtocol.SetThenGet | controller_cli/tests/test_device_comm.py:93-102 | set then get on channel i writes `DO{i} {int(v)}` then `DO{i}?`, reads one line, and returns `v` when the device answers `int(v)` |
| DigIOProtocol.AllOffTranscript | controller_cli/controller_cli/device_comm.py:122-124 | `all_off` writes exactly `ALLOFF` and reads nothing |
| DigIOProtocol.FlagQueryTranscript | controller_cli/controller_cli/device_comm.py:92-95 | the interlock and lockout queries write their command once and return the `0/1` reply as a flag |
| DigIOProtocol.IdentifyTranscript | controller_cli/controller_cli/device_comm.py:88-90 | `identify` on a live device writes `*IDN?` and returns the reply unchanged |
| DigIOProtocol.FormatEndsInDigit | controller_cli/tests/test_device_comm.py:36 | the reply for a non-empty list of states ends in the last state's digit, so `rstrip` leaves it whole |
| DigIOProtocol.StatesTranscript | controller_cli/controller_cli/device_comm.py:114-118 | `states` writes `ALLDOut?` once, consumes one reply line, and returns exactly the states the device sent as comma-separated `0/1` (test_device_comm.py:33-55) |
| UtilFns.NewProxyList | controller/src/controller/util_fns.py:32-44 | the list is flagged as an enum exactly when the valid set is an enum class with `Enum`/`IntEnum` as a direct base, decided once |
| UtilFns.Canonical | controller/src/controller/util_fns.py:46-49 | an enum iterates over its non-alias members: each from the class, values distinct, every value represented |
| UtilFns.CanonicalPositions | controller/src/controller/util_fns.py:46-49 | iteration gives, in declaration order, exactly the members declared first with their value |
| UtilFns.ValueOfName | controller/src/controller/util_fns.py:57 | `valid_set[name]` gives the value of a member declared under that name |
| UtilFns.ResolveEnumKey | controller/src/controller/util_fns.py:55-65 | whatever an enum key resolves to is one of the members' values |
| UtilFns.GetItem | controller/src/controller/util_fns.py:51-69 | failure is `IndexError`; the proxy is bound to the parent; for a non-enum set it succeeds iff the key is in the set and keeps the key; for an enum the proxy gets a member value |
| UtilFns.Iter | controller/src/controller/util_fns.py:46-49 | one proxy per valid key, in valid-set order, all bound to the parent |
| UtilFns.Len | controller/src/controller/util_fns.py:71-73 | the length is the number of proxies iteration gives |
| UtilFns.Keys | controller/src/controller/util_fns.py:46-49 | every key iteration gives is contained in the valid set; an enum gives one key per non-alias member |
| UtilFns.Contains | controller/src/controller/util_fns.py:66-69 | membership in a list or range holds only for a plain key, and in a range only for an integer |
| UtilFns.GetItemAgreesWithIter | controller/src/controller/util_fns.py:46-69 | for a range or list a key is accepted iff iteration produces it, and indexing gives the proxy iteration gives |
| UtilFns.RangeBounds | controller/src/controller/util_fns.py:66-69 | over `range(n)` exactly `0..n-1` are accepted, each giving the proxy for `(parent, i)`, and the rest raise `IndexError` |
| UtilFns.SixteenChannelBounds | controller/src/controller/util_fns.py:67-68 | over `range(16)`, 0 and 15 are accepted; 16 and -1 raise `IndexError` |
| UtilFns.EnumNameFirst | controller/src/controller/util_fns.py:56-57 | an enum key naming a member resolves to that member's value, names before values |
| UtilFns.EnumValueSecond | controller/src/controller/util_fns.py:58-64 | a key that names no member resolves iff it is a member's value, and the proxy gets that value |
| UtilFns.IndirectEnumKeepsRawKey | controller/src/controller/util_fns.py:38-44 | an enum class without a direct `Enum` base is indexed by containment and the raw key is passed on |
| UtilFns.EnumIterMembersResolve | controller/src/controller/util_fns.py:55-65 | indexing with a member iteration produced gives a proxy holding that member's value |
| UtilFns.SameNameSameValue | controller/src/controller/util_fns.py:57 | with unique names, looking up a member's name gives its value |
| DeviceComm.DigIOBoxComm.constructor | controller_cli/controller_cli/device_comm.py:55-69 | dummy flag and baud rate kept, channel count 16, nothing on the wire |
| DeviceComm.DigIOBoxComm.NumChannels | controller_cli/controller_cli/device_comm.py:97-103 | the getter returns the stored count |
| DeviceComm.DigIOBoxComm.ChannelList | controller_cli/controller_cli/device_comm.py:83 | a non-enum proxy list bound to the client whose keys are exactly `0..num_channels-1`, from the count at access time |
| DeviceComm.DigIOBoxComm.ChannelAt | controller_cli/controller_cli/device_comm.py:83 | `channel[idx]` succeeds iff `0 <= idx < num_channels`, giving a new channel of this client for `idx`, else `IndexError` |
| DeviceComm.DigIOBoxComm.SetNumChannels | controller_cli/controller_cli/device_comm.py:105-107 | the count read back is the value set, and nothing goes over the wire |
| DeviceComm.DigIOBoxComm.Identify | controller_cli/controller_cli/device_comm.py:85-90 | wire state and result are `Identified` of the old state and the dummy flag |
| DeviceComm.DigIOBoxComm.InterlockState | controller_cli/controller_cli/device_comm.py:92-95 | the `INTERLOCKState?` query, reply read as a flag |
| DeviceComm.DigIOBoxComm.SoftwareLockout | controller_cli/controller_cli/device_comm.py:109-112 | the `SWLockout?` query, reply read as a flag |
| DeviceComm.DigIOBoxComm.States | controller_cli/controller_cli/device_comm.py:114-118 | the `ALLDOut?` query, reply split on commas and each token read as a flag |
| DeviceComm.DigIOBoxComm.AllOff | controller_cli/controller_cli/device_comm.py:122-124 | one `ALLOFF` write |
| DeviceComm.Channel.constructor | controller_cli/controller_cli/device_comm.py:21-33 | the channel keeps its parent client and index |
| DeviceComm.Channel.GetState | controller_cli/controller_cli/device_comm.py:35-49 | the `DO{idx}?` query on the parent's transport, reply read as a flag |
| DeviceComm.Channel.SetState | controller_cli/controller_cli/device_comm.py:51-53 | one `DO{idx} {int(v)}` write on the parent's transport |
| LegacyDeviceComm.DigIOBoxComm.constructor | DigIOBoxController/src/main/python/device_comm.py:52-60 | baud rate kept, channel count 16, nothing on the wire |
| LegacyDeviceComm.DigIOBoxComm.SetNumChannels | DigIOBoxController/src/main/python/device_comm.py:70-72 | the intended setter: the count read back is the value set, with no traffic |
| LegacyDeviceComm.DigIOBoxComm.ChannelList | DigIOBoxController/src/main/python/device_comm.py:74-82 | a proxy list whose keys are exactly `0..num_channels-1` |
| LegacyDeviceComm.DigIOBoxComm.ChannelAt | DigIOBoxController/src/main/python/device_comm.py:82 | `channel[idx]` succeeds iff `0 <= idx < num_channels`, else `IndexError` |
| LegacyDeviceComm.DigIOBoxComm.Identify | DigIOBoxController/src/main/python/device_comm.py:84-87 | always the `*IDN?` query, with no dummy path |
| LegacyDeviceComm.Channel.constructor | DigIOBoxController/src/main/python/device_comm.py:22-32 | the channel keeps its parent client and index |
| LegacyDeviceComm.Channel.GetState | DigIOBoxController/src/main/python/device_comm.py:34-46 | the `DO{idx}?` query, reply read as a flag |
| LegacyDeviceComm.Channel.SetState | DigIOBoxController/src/main/python/device_comm.py:48-50 | one `DO{idx} {int(v)}` write |
| LegacyDeviceComm.SetterAsWrittenAlwaysFails | DigIOBoxController/src/main/python/device_comm.py:70-72 | the setter as written fails with `RecursionError` whatever the recursion limit, storing nothing |
| LegacyDeviceComm.NumChannelsSetterAsWritten | DigIOBoxController/src/main/python/device_comm.py:70-72 | the setter as written never succeeds |
| PyValues.Field | controller/src/main/python/utils.py:12 | a field is found iff some entry has that string key, and then it is that entry's value |
| PyValues.Subscript | controller/src/main/python/utils.py:12-14 | a missing key of a dictionary is `KeyError`, subscripting a non-dictionary is `TypeError` |
| PyValues.IsInt | controller_gui/src/main/python/utils.py:32-33 | `isinstance(v, int)` holds for booleans, and not for floats, strings or `None` |
| ChannelChecks.HwTypeOk | controller/src/main/python/utils.py:12 | a string hardware channel has the right type only in the controller variant, an int or a bool only in the GUI variant (controller_gui/src/main/python/utils.py:32), and `None`, a float, a list or a dictionary in neither |
| ChannelChecks.EntryVerdict | controller/src/main/python/utils.py:10-17 | a non-string key answers false, a non-dictionary entry raises `TypeError`, and an entry passes iff both fields exist with the right types |
| ChannelChecks.CheckEntries | controller/src/main/python/utils.py:9-17 | true iff every entry passes; the only exception that escapes is `TypeError` |
| ChannelChecks.FirstRaisingEntryRaises | controller/src/main/python/utils.py:9-17 | an entry that raises after only passing entries makes `TypeError` escape, whatever follows |
| ChannelChecks.RaiseHasCause | controller/src/main/python/utils.py:9-17 | when `TypeError` escapes, some entry raised it and every entry before it passed |
| ChannelChecks.CheckChannels | controller/src/main/python/utils.py:4-19 | a non-dictionary is false, `{}` is true, true iff every entry passes; the same for the GUI variant with `int` hardware channels |
| ChannelChecks.FirstFailingEntryDecides | controller/src/main/python/utils.py:9-17 | the first failing entry after passing ones makes the answer false, whatever follows |
| ChannelChecks.VariantsDiffer | controller_gui/src/main/python/utils.py:32-33 | a string hardware channel passes only the controller variant; an int or a bool passes only the GUI variant |
| ChannelChecks.FloatHwFailsBoth | controller_gui/src/main/python/utils.py:32-33 | a float hardware channel makes both variants answer false |
| ChannelChecks.VariantsAgreeOnOtherRules | controller_gui/src/main/python/utils.py:24-39 | when the hardware channel's type is irrelevant, both variants give an entry the same verdict |
| ChannelChecks.HwConfigLabels | controller_gui/src/main/python/utils.py:4-21 | sixteen distinct one-character labels |
| ChannelSetupDialog.EntriesOf | controller/src/main/python/channel_setup.py:163-167 | one entry per tab, in tab order, each holding that tab's name, hardware channel and section |
| ChannelSetupDialog.ToPy | controller/src/main/python/channel_setup.py:163-167 | the stored dictionary has one entry per channel, in order, each the channel's name mapped to its two-field dictionary |
| ChannelSetupDialog.EntryToPy | controller/src/main/python/channel_setup.py:163-167 | a channel's stored value is a dictionary of exactly `hw_channel` and `section`, holding the tab's values |
| ChannelSetupDialog.Collect | controller/src/main/python/channel_setup.py:139-167 | a completed loop holds one entry per tab; it stops only on a name problem and only when there is a tab |
| ChannelSetupDialog.SaveSpec | controller/src/main/python/channel_setup.py:138-182 | a saved dictionary has one entry per tab and distinct hardware channels; the hardware-channel warning means two tabs share one; no tabs save `{}` |
| ChannelSetupDialog.CollectSpec | controller/src/main/python/channel_setup.py:139-167 | the tab loop succeeds iff names are non-empty and distinct, and then holds every tab's entry in tab order |
| ChannelSetupDialog.CollectFailureSticks | controller/src/main/python/channel_setup.py:145-161 | after the loop returns early, later tabs change nothing |
| ChannelSetupDialog.FirstEmptyNameReported | controller/src/main/python/channel_setup.py:145-152 | the first empty name after valid names gives the empty-name warning |
| ChannelSetupDialog.FirstDuplicateNameReported | controller/src/main/python/channel_setup.py:154-161 | the first repeated name after valid names gives the duplicate-name warning for it |
| ChannelSetupDialog.HwCheckMatches | controller/src/main/python/channel_setup.py:170-171 | after a successful name loop, the list-versus-set length test passes exactly when no two tabs share a hardware channel |
| ChannelSetupDialog.SaveSucceedsIff | controller/src/main/python/channel_setup.py:138-177 | `save` succeeds iff names are non-empty and distinct and hardware channels are distinct |
| ChannelSetupDialog.SharedHwReported | controller/src/main/python/channel_setup.py:169-177 | valid names with a shared hardware channel give the hardware-channel warning |
| ChannelSetupDialog.SaveResult | controller/src/main/python/channel_setup.py:179-182 | the saved dictionary is a permutation of the tabs' entries, strictly ascending by name, holds every tab, and passes `check_channels` |
| ChannelSetupDialog.SavedDictPassesCheck | controller/src/main/python/channel_setup.py:163-167 | every dictionary `save` builds passes the string-hardware-channel check |
| ChannelSetupDialog.SetOfCard | controller/src/main/python/channel_setup.py:170-171 | `len(set(xs)) <= len(xs)`, with equality iff no element repeats |
| ChannelSetupDialog.SectionLabel | controller/src/main/python/channel_setup.py:344-351 | the section reads `"individual"` iff the individual button is checked, else `"grouped"` |
| ChannelSetupDialog.ChoosesIndividual | controller/src/main/python/channel_setup.py:354-358 | only the exact text `"grouped"` selects the grouped button; `"individual"`, `""` and `"Grouped"` select individual |
| ChannelSetupDialog.SectionRoundTrip | controller/src/main/python/channel_setup.py:344-358 | setting `"grouped"` or `"individual"` reads back the same; anything else reads back `"individual"` |
| ChannelSetupDialog.HwShown | controller/src/main/python/channel_setup.py:340-342 | the combo box shows a listed label: the stored one when listed, else the first |
| ChannelSetupDialog.LoadedEntry | controller/src/main/python/channel_setup.py:86 | a stored channel loads as a tab with its name, a listed hardware channel, and the grouped section iff stored as `"grouped"` |
| ChannelSetupDialog.LoadedData | controller/src/main/python/channel_setup.py:85-86 | one tab per stored channel, in dictionary order |
| ChannelSetupDialog.LoadedSavedEntry | controller/src/main/python/channel_setup.py:163-167 | what `save` stores for a tab passes the check and loads as the tab's name, shown hardware channel and section |
| ChannelSetupDialog.LoadedSaved | controller/src/main/python/channel_setup.py:82-86 | reopening a dictionary `save` built passes the check and gives one restored tab per entry, in order |
| ChannelSetupDialog.RestoredEntries | controller/src/main/python/channel_setup.py:365-372 | a tab with a listed hardware channel and a known section is restored unchanged from its stored entry |
| ChannelSetupDialog.RestoredPermutation | controller/src/main/python/channel_setup.py:180 | entries re-ordered by `sorted` restore to the saved tabs and nothing else |
| ChannelSetupDialog.ReloadRestores | controller/src/main/python/channel_setup.py:82-86 | reopening a permutation of the saved entries passes the check and gives exactly the saved tabs back |
| ChannelSetupDialog.SaveThenLoad | controller/src/main/python/channel_setup.py:82-86 | after a successful `save`, reopening the dialog on the stored dictionary gives back the same tabs, no more and no fewer, with strictly ascending names |
| ChannelSetupDialog.ReloadKeepsNameOrder | controller/src/main/python/channel_setup.py:180 | reopening a dictionary with ascending names gives tabs with strictly ascending names |
| ChannelSetupDialog.ChannelWidget.constructor | controller/src/main/python/channel_setup.py:239-272 | a tab with the given name, the first hard-coded hardware channel, and the individual section |
| ChannelSetupDialog.ChannelWidget.WithValues | controller/src/main/python/channel_setup.py:365-372 | a tab built with stored values shows the stored name, the stored hardware channel if listed (else the first), and the grouped section iff stored as `"grouped"` |
| ChannelSetupDialog.ChannelWidget.Section | controller/src/main/python/channel_setup.py:344-351 | `"individual"` iff the individual button is checked, else `"grouped"` |
| ChannelSetupDialog.ChannelWidget.SetSection | controller/src/main/python/channel_setup.py:353-358 | `"grouped"` checks grouped, anything else checks individual; name and hardware channel unchanged |
| ChannelSetupDialog.ChannelWidget.Data | controller/src/main/python/channel_setup.py:293-300 | the tab's data holds its name and hardware channel, and `"individual"` iff the individual button is checked |
| ChannelSetupDialog.ChannelSetup.constructor | controller/src/main/python/channel_setup.py:44 | the given configuration is kept, no tabs, not accepted |
| ChannelSetupDialog.ChannelSetup.Init | controller/src/main/python/channel_setup.py:45-86 | a raising check leaves no tabs; otherwise an empty or rejected configuration gives the single tab `"New"`, and a valid one gives one tab per stored channel, in order |
| ChannelSetupDialog.ChannelSetup.LoadTabs | controller/src/main/python/channel_setup.py:85-86 | the tabs become the loaded data of the stored channels |
| ChannelSetupDialog.ChannelSetup.AddStoredTab | controller/src/main/python/channel_setup.py:86 | one new last tab holding the loaded data of the stored channel |
| ChannelSetupDialog.ChannelSetup.CheckStoredChannels | controller/src/main/python/channel_setup.py:190-202 | a configuration `check_channels` rejects becomes `{}`; a valid one stays; a `TypeError` escapes with nothing changed |
| ChannelSetupDialog.ChannelSetup.AddTab | controller/src/main/python/channel_setup.py:96-114 | one new tab at the end, named as given or `"New"`, on the first hardware channel and the individual section |
| ChannelSetupDialog.ChannelSetup.DeleteTab | controller/src/main/python/channel_setup.py:116-118 | the current tab is removed; an invalid index removes nothing |
| ChannelSetupDialog.ChannelSetup.Save | controller/src/main/python/channel_setup.py:120-183 | the warning for the first problem with the configuration untouched, or the sorted dictionary stored and the dialog accepted, as `SaveSpec` of the tabs |
| GroupSetupDialog.KeysOf | controller/src/main/python/group_setup.py:47 | the group names in dictionary order |
| GroupSetupDialog.Lookup | controller/src/main/python/group_setup.py:182 | a name is found iff it is a key, and then with its own entry |
| GroupSetupDialog.Remove | controller/src/main/python/group_setup.py:108 | `del` fails with `KeyError` iff the name is not a key |
| GroupSetupDialog.RemoveKeepsKeysDistinct | controller/src/main/python/group_setup.py:107-108 | `del` keeps the names distinct and removes exactly the deleted name |
| GroupSetupDialog.AssignLookup | controller/src/main/python/group_setup.py:182-184 | after `groups[name] = v` the name maps to `v` and every other name is unchanged |
| GroupSetupDialog.AssignKeys | controller/src/main/python/group_setup.py:182-184 | overwriting keeps the order of names; a new name goes last |
| GroupSetupDialog.AssignKeepsKeysDistinct | controller/src/main/python/group_setup.py:182-184 | the groups stay a dictionary: names remain distinct |
| GroupSetupDialog.Assign | controller/src/main/python/group_setup.py:182-184 | after `groups[name] = v` the pair is present, and at most one entry was added |
| GroupSetupDialog.TailIsDictionary | controller/src/main/python/group_setup.py:107-108 | the entries after the first of a dictionary still form a dictionary |
| GroupSetupDialog.HeadNotInTail | controller/src/main/python/group_setup.py:107-108 | a dictionary's first key appears nowhere after it |
| GroupSetupDialog.RemoveLookup | controller/src/main/python/group_setup.py:107-108 | removing a group deletes that name only; every other name keeps its members |
| GroupSetupDialog.LookupFindsEntry | controller/src/main/python/group_setup.py:83 | in a dictionary, an entry present is what lookup finds |
| GroupSetupDialog.SortedGroupsSameLookups | controller/src/main/python/group_setup.py:83 | re-ordering the groups by name keeps every group, orders names strictly, and keeps every lookup |
| GroupSetupDialog.IndividualAcceptSpec | controller/src/main/python/group_setup.py:163-186 | refused iff the name is empty or fewer than two channels are selected, an empty name first and otherwise the too-few-channels warning; on success the name maps to the sorted selection and no other group changes |
| GroupSetupDialog.IndividualAccept | controller/src/main/python/group_setup.py:163-186 | refused iff the name is empty or fewer than two channels are selected; on success the new groups hold the name with the sorted selection |
| GroupSetupDialog.ChannelChoices | controller/src/main/python/group_setup.py:146 | one choice per channel name |
| GroupSetupDialog.ChannelChoicesSorted | controller/src/main/python/group_setup.py:146 | the channels offered are the channel names, in sorted order |
| GroupSetupDialog.GroupSetup.constructor | controller/src/main/python/group_setup.py:11-23 | groups default to `{}`; the list shows the group names; a dictionary given (distinct names) makes the invariant hold |
| GroupSetupDialog.GroupSetup.Accept | controller/src/main/python/group_setup.py:81-85 | the groups are sorted by name and published to the owner's `channel_groups`; names stay distinct |
| GroupSetupDialog.GroupSetup.RemoveGroup | controller/src/main/python/group_setup.py:101-109 | with a row selected, that group and its row are removed (or `KeyError` with nothing changed); with none, nothing changes; names stay distinct |
| GroupSetupDialog.GroupSetup.RefreshGroupList | controller/src/main/python/group_setup.py:96-99 | after an accepted group dialog the list shows the current group names |
| GroupSetupDialog.GroupSetupIndividual.constructor | controller/src/main/python/group_setup.py:115-146 | the dialog offers the parent's channel names sorted, with an empty name and no selection |
| GroupSetupDialog.GroupSetupIndividual.Accept | controller/src/main/python/group_setup.py:163-186 | the parent's groups become `IndividualAccept` of the old groups, or stay with the warning shown; the parent's names stay distinct |
| ChannelControl.CommandFor | controller/src/main/python/channel_widget.py:102-105 | not inverted: on sends `cmd_on`, off sends `cmd_off`; inverted: the other way round |
| ChannelControl.InversionSwapsButtons | controller/src/main/python/channel_widget.py:23-25 | an inverted channel's on button sends what a plain channel's off button sends |
| ChannelControl.ButtonsSendBothCommands | controller/src/main/python/channel_widget.py:102-105 | with distinct commands the two buttons send different commands, covering both |
| ChannelControl.ChannelWidget.constructor | controller/src/main/python/channel_widget.py:13-43 | commands, inversion and initial `is_on` (default unknown) kept, nothing sent |
| ChannelControl.ChannelWidget.SetIsOn | controller/src/main/python/channel_widget.py:53-56 | `is_on` reads back the last value assigned |
| ChannelControl.ChannelWidget.IsOn | controller/src/main/python/channel_widget.py:45-51 | the getter returns the stored state |
| ChannelControl.ChannelWidget.SendCmd | controller/src/main/python/channel_widget.py:97-108 | exactly the chosen command is sent |
| ChannelControl.ChannelWidget.OnButtonClicked | controller/src/main/python/channel_widget.py:87-90 | sends the on command (off command when inverted), then `is_on` is true |
| ChannelControl.ChannelWidget.OffButtonClicked | controller/src/main/python/channel_widget.py:92-95 | sends the off command (on command when inverted), then `is_on` is false |

## Left out

- Serial I/O itself is not modelled: opening the port, blocking reads, timeouts, UTF-8 encoding and the post-open settle delay. The port is a trace plus a reply queue, and a read with nothing queued is `NoReply`.
- The dummy transport is not part of this model. The transport constructor the client calls with `timeout` and `dummy` is not the one shown, which takes only port and baud rate. So in dummy mode only `identify`'s own branch is modelled; other queries use the queue.
- DeviceComm.DigIOBoxComm.SetNumChannels: takes an integer; `int(value)` applied to other types is not modelled.
- PyText.ParseInt: accepts ASCII digits only, while Python's `int()` also accepts other Unicode decimal digits.
- The run-time `isinstance` check on a channel's parent is not modelled: the parent is a typed reference, so the `TypeError` cannot occur.
- UtilFns.GetItem: the proxy class is the generic `Proxy(parent, key)`. Bool and float keys, unhashable keys, and valid sets other than `range(start, stop)`, a list or an enum class (generators, stepped ranges) are not modelled.
- Qt is not modelled: message boxes are returned as warning values. Not covered: the tab text, the warning `value_setter` shows for an unlisted hardware channel, `name_edited`, and the `StatusIndicator` colours (`set_status`).
- GroupSetupDialog.GroupSetup.Accept: publishes a copy. In the source the owner and the dialog then share one dictionary object, so a later removal in the dialog would show in the owner; that aliasing is not modelled.
- GroupSetupDialog.GroupSetup.constructor: copies the groups it is given. In the source it keeps the caller's dictionary object itself (group_setup.py:23), so `remove_group` and an accepted per-group dialog change the caller's dictionary at once, even when the main dialog is cancelled afterwards; that sharing is not modelled.
- The `GroupSetup` constructor's "no channels defined" warning is not modelled; `self.channels is {}` is always false anyway. The dialogs' `exec_` loop is reduced to `RefreshGroupList` after an accepted group dialog.
- ChannelControl.ChannelWidget.SendCmd: the command is recorded in `sent` where the source prints it; no controller is called.
- main.py, widgets.py, statusindicator.py, dialogs.py, the firmware headers and the interactive scripts are not part of this model.
- Concurrent polling against user commands is not modelled: the client has no locking, and the model is sequential.

## Findings

| source | as written | input that shows it | evidently intended | confidence | as-written member | corrected member |
|---|---|---|---|---|---|---|
| DigIOBoxController/src/main/python/device_comm.py:70-72 | the `num_channels` setter runs `self.num_channels = int(value)`, which calls the setter again | any assignment, e.g. `num_channels = 8`, recurses until `RecursionError` and stores nothing | store the count in `_num_channels`, as controller_cli/controller_cli/device_comm.py:107 does | high (not executed) | LegacyDeviceComm.SetterAsWrittenAlwaysFails | LegacyDeviceComm.DigIOBoxComm.SetNumChannels |
