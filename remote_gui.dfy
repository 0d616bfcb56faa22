/**
 * The window `LEDRemoteGUI` reduced to the state its methods update:
 * `self.sock` (present or not), the status label's text, and the stream of
 * commands the socket accepted. Each socket call's outcome is a parameter.
 */
module RemoteGui {
  import opened Wrappers
  import opened Commands
  import opened Session

  class LedRemote {
    var hasSock: bool
    var status: string
    var sent: seq<string>
    const serverHost: string
    const serverPort: nat

    /** The window's state as a value. */
    function Current(): State
      reads this
    {
      State(hasSock, status, sent)
    }

    ghost predicate Valid()
      reads this
    {
      Coherent(Current())
    }

    /**
     * `__init__`: no socket and "Status: Disconnected", then one connection
     * attempt to 192.168.1.109:50000.
     */
    constructor (outcome: ConnectOutcome)
      ensures Valid()
      ensures serverHost == "192.168.1.109" && serverPort == 50000
      ensures Current() == AfterConnect(Initial, outcome)
    {
      hasSock := false;
      serverHost := "192.168.1.109";
      serverPort := 50000;
      status := DisconnectedStatus;
      sent := [];
      new;
      InitialCoherent();
      ConnectToServer(outcome);
    }

    /** `connect_to_server`: one attempt, no retry; the socket is kept whenever it was created. */
    method ConnectToServer(outcome: ConnectOutcome)
      requires Valid()
      modifies this
      ensures Valid()
      ensures Current() == AfterConnect(old(Current()), outcome)
    {
      AfterConnectCoherent(Current(), outcome);
      match outcome
      case SocketError(reason) =>
        status := FailedStatus(reason);
      case ConnectError(reason) =>
        hasSock := true;
        status := FailedStatus(reason);
      case GreetingError(reason) =>
        hasSock := true;
        status := ConnectedStatus;
        status := FailedStatus(reason);
      case Established(_) =>
        hasSock := true;
        status := ConnectedStatus;
    }

    /** `send_command`: offers the command to the socket once, if there is one. */
    method SendCommand(command: string, outcome: SendOutcome)
      requires Valid()
      modifies this
      ensures Valid()
      ensures Current() == AfterSend(old(Current()), command, outcome)
    {
      AfterSendCoherent(Current(), command, outcome);
      if hasSock {
        match outcome
        case Accepted =>
          sent := sent + [command];
        case SendError(_) =>
          status := LostStatus;
      }
    }

    /** `set_static_color`. */
    method SetStaticColor(color: string, outcome: SendOutcome)
      requires Valid()
      modifies this
      ensures Valid()
      ensures Current() == AfterSend(old(Current()), StaticColorCommand(color), outcome)
    {
      var command := StaticPrefix + ReplaceHash(color);
      SendCommand(command, outcome);
    }

    /** `choose_color`: a cancelled dialog sends nothing. */
    method ChooseColor(picked: Option<string>, outcome: SendOutcome)
      requires Valid()
      modifies this
      ensures Valid()
      ensures Current() == AfterOptionalSend(old(Current()), CommandFor(Action.ChooseColor(picked)), outcome)
    {
      if picked.Some? {
        SetStaticColor(picked.value, outcome);
      }
    }

    /** `set_manual_brightness`: the field's text, sent only when it is not empty. */
    method SetManualBrightness(text: string, outcome: SendOutcome)
      requires Valid()
      modifies this
      ensures Valid()
      ensures Current() == AfterOptionalSend(old(Current()), BrightnessCommand(text), outcome)
    {
      if text != "" {
        SendCommand(BrightnessPrefix + text, outcome);
      }
    }

    /** `set_manual_tspeed`: the field's text, sent only when it is not empty. */
    method SetManualTspeed(text: string, outcome: SendOutcome)
      requires Valid()
      modifies this
      ensures Valid()
      ensures Current() == AfterOptionalSend(old(Current()), SpeedCommand(text), outcome)
    {
      if text != "" {
        SendCommand(SpeedPrefix + text, outcome);
      }
    }

    /** `apply_effect`: the item currently selected in the drop-down. */
    method ApplyEffect(selected: EffectIndex, outcome: SendOutcome)
      requires Valid()
      modifies this
      ensures Valid()
      ensures Current() == AfterSend(old(Current()), EffectCommand(selected), outcome)
    {
      SendCommand(EffectPrefix + EffectItems[selected], outcome);
    }

    /** A click on one of the window's controls, as wired up in `init_ui`. */
    method Activate(a: Action, outcome: SendOutcome)
      requires Valid()
      modifies this
      ensures Valid()
      ensures Current() == AfterOptionalSend(old(Current()), CommandFor(a), outcome)
    {
      match a
      case OnButton => SendCommand(DynamicCommand, outcome);
      case OffButton => SendCommand(ClearCommand, outcome);
      case BrightnessPlus => SendCommand(BrightnessUpCommand, outcome);
      case BrightnessMinus => SendCommand(BrightnessDownCommand, outcome);
      case SetBrightness(text) => SetManualBrightness(text, outcome);
      case ChooseColor(picked) => ChooseColor(picked, outcome);
      case PresetColor(i) => SetStaticColor(Presets[i].1, outcome);
      case EffectButton(i) => ApplyEffect(i, outcome);
      case DynamicButton => SendCommand(DynamicCommand, outcome);
      case SpeedPlus => SendCommand(SpeedUpCommand, outcome);
      case SpeedMinus => SendCommand(SpeedDownCommand, outcome);
      case SetSpeed(text) => SetManualTspeed(text, outcome);
    }

    /** `closeEvent`: the socket is closed exactly when one is held; the window state is not changed. */
    method CloseEvent() returns (closesSocket: bool)
      ensures closesSocket == hasSock
    {
      closesSocket := hasSock;
    }
  }

  /**
   * `__init__` followed by `closeEvent`: the window closes a socket exactly
   * when its one connection attempt got as far as creating one.
   */
  method CloseAfterStart(outcome: ConnectOutcome) returns (closesSocket: bool)
    ensures closesSocket <==> !outcome.SocketError?
  {
    var window := new LedRemote(outcome);
    closesSocket := window.CloseEvent();
  }
}
