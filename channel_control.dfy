/** The control widget of one channel: an On and an Off button that send the
    channel's commands, swapped when the channel is wired inverted, and the
    last known on/off status. Where the source only prints the command, the
    model records it in `sent`. */
module ChannelControl {
  import opened Wrappers

  /** The command `send_cmd(state)` chooses. */
  function CommandFor(state: bool, inverted: bool, cmdOn: string, cmdOff: string): (cmd: string)
    ensures !inverted ==> cmd == (if state then cmdOn else cmdOff)
    ensures inverted ==> cmd == (if state then cmdOff else cmdOn)
  {
    if state then (if !inverted then cmdOn else cmdOff)
    else (if !inverted then cmdOff else cmdOn)
  }

  /** Inverting a channel is the same as pressing the other button. */
  lemma InversionSwapsButtons(state: bool, cmdOn: string, cmdOff: string)
    ensures CommandFor(state, true, cmdOn, cmdOff) == CommandFor(!state, false, cmdOn, cmdOff)
  {
  }

  /** Whatever the wiring, the two buttons send different commands when the
      commands differ, and together they send both. */
  lemma ButtonsSendBothCommands(inverted: bool, cmdOn: string, cmdOff: string)
    requires cmdOn != cmdOff
    ensures CommandFor(true, inverted, cmdOn, cmdOff) != CommandFor(false, inverted, cmdOn, cmdOff)
    ensures {CommandFor(true, inverted, cmdOn, cmdOff), CommandFor(false, inverted, cmdOn, cmdOff)} == {cmdOn, cmdOff}
  {
  }

  class ChannelWidget {
    const channel: string
    const cmdOn: string
    const cmdOff: string
    const inverted: bool
    var isOn: Option<bool>
    var sent: seq<string>

    /** `is_on` starts as given; `None` means the status is unknown. */
    constructor (channel: string, cmdOn: string, cmdOff: string, inverted: bool := false, isOn: Option<bool> := None)
      ensures this.channel == channel && this.cmdOn == cmdOn && this.cmdOff == cmdOff
      ensures this.inverted == inverted && this.isOn == isOn && sent == []
    {
      this.channel := channel;
      this.cmdOn := cmdOn;
      this.cmdOff := cmdOff;
      this.inverted := inverted;
      this.isOn := isOn;
      this.sent := [];
    }

    /** The `is_on` getter. */
    function IsOn(): (s: Option<bool>)
      reads this
      ensures s == isOn
    {
      isOn
    }

    /** The `is_on` setter. */
    method SetIsOn(value: Option<bool>)
      modifies this
      ensures IsOn() == value && sent == old(sent)
    {
      isOn := value;
    }

    method SendCmd(state: bool)
      modifies this
      ensures sent == old(sent) + [CommandFor(state, inverted, cmdOn, cmdOff)]
      ensures isOn == old(isOn)
    {
      var cmd := CommandFor(state, inverted, cmdOn, cmdOff);
      sent := sent + [cmd];
    }

    /** On: the on command (the off command when inverted), then the status is on. */
    method OnButtonClicked()
      modifies this
      ensures sent == old(sent) + [if inverted then cmdOff else cmdOn]
      ensures IsOn() == Some(true)
    {
      SendCmd(true);
      SetIsOn(Some(true));
    }

    /** Off: the off command (the on command when inverted), then the status is off. */
    method OffButtonClicked()
      modifies this
      ensures sent == old(sent) + [if inverted then cmdOn else cmdOff]
      ensures IsOn() == Some(false)
    {
      SendCmd(false);
      SetIsOn(Some(false));
    }
  }
}
