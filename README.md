# LED remote control: command encoding and connection state

A Dafny model of the core of the PyQt remote-control window `LEDRemoteGUI`,
which drives an addressable-LED device over a TCP text protocol. The model
keeps the two parts of the window that carry logic:

- **Command encoding** (module `Commands`, `commands.dfy`): the strings each
  control hands to `send_command`. These are `DYNAMIC`, `CLEAR`, the
  `BRIGHTNESS:`/`TSPEED:` steps, `STATIC:` plus a colour with every `#`
  replaced by `0x`, `BRIGHTNESS:`/`TSPEED:` plus the text of an input field
  (sent only when the field is non-empty), and `EFFECT:` plus a drop-down item.
  The datatype `Action` lists the controls with the input each one reads.
  `CommandFor` is the command the control sends, or `None` when it sends nothing.
- **Connection state** (module `Session`, `session.dfy`, as values; module
  `RemoteGui`, `remote_gui.dfy`, as the class `LedRemote` whose methods update
  fields in place). The state is whether `self.sock` holds a socket, the
  status label's text, and the log of commands the socket accepted. Each
  socket call's outcome is a method parameter: creating the socket, `connect`,
  the greeting `recv` and `sendall` can each succeed or raise. The socket is
  stored before `connect` runs, so it stays present after a failed connect.
  A send error does not clear it either. Later commands are therefore still
  offered to the socket.

`Wrappers` (`wrappers.dfy`) holds the `Option` datatype.

The code does not range-check the brightness or speed text; only the Qt
validator of the input field restricts it. The colour command is built from a
colour string, not from numeric channels. A send without a socket only prints
a message; it raises no error and reports nothing to the caller. A send error
changes the label but does not release or clear the socket. Only the
constructor calls `connect_to_server`, so the window never reconnects.

## Model

| member | source | states |
|---|---|---|
| `Commands.ReplaceHash` | remote_control_gui.py:216 | `replace('#', '0x')` leaves no `#` in its result |
| `Commands.ReplaceHashLength` | remote_control_gui.py:216 | the result grows by exactly one character per `#` of the input |
| `Commands.ReplaceHashWithoutHash` | remote_control_gui.py:216 | a colour without `#` passes through the replacement unchanged |
| `Commands.ReplaceHashAppend` | remote_control_gui.py:216 | the replacement works character by character: it distributes over concatenation |
| `Commands.ReplaceHashIdempotent` | remote_control_gui.py:216 | replacing twice gives the same string as replacing once |
| `Commands.RestoreReplaceHash` | remote_control_gui.py:216 | turning every `0x` back into `#` recovers the colour whenever the colour holds no `0x` of its own |
| `Commands.StaticColorCommand` | remote_control_gui.py:215-217 | the static colour command starts with `STATIC:` and holds no `#` |
| `Commands.StaticColorWithoutHash` | remote_control_gui.py:215-217 | a colour with no `#` is sent as `STATIC:` followed by the colour unchanged |
| `Commands.StaticColorRestores` | remote_control_gui.py:215-217 | the colour can be read back from what follows `STATIC:` unless it holds a literal `0x` |
| `Commands.HashAndZeroXCollide` | remote_control_gui.py:215-217 | a colour written `#RRGGBB` and the different string `0xRRGGBB` give the same command |
| `Commands.HexColorReplaced` | remote_control_gui.py:216 | the replacement turns `#RRGGBB` into `0xRRGGBB` |
| `Commands.StaticColorOfHex` | remote_control_gui.py:210-217 | a `#RRGGBB` colour is sent as `STATIC:0xRRGGBB`, 15 characters |
| `Commands.HexColorRestores` | remote_control_gui.py:210-217 | a `#RRGGBB` colour can be read back from its static colour command |
| `Commands.PresetsAreHexColors` | remote_control_gui.py:81-83 | all nine preset colours have the form `#RRGGBB` |
| `Commands.PresetCommands` | remote_control_gui.py:81-87 | each preset button sends `STATIC:0x` followed by that preset's six hex digits |
| `Commands.RedPresetCommand` | remote_control_gui.py:81 | the first preset, Red, sends exactly `STATIC:0xFF0000` |
| `Commands.ManualCommand` | remote_control_gui.py:219-227 | an empty field sends nothing; any other text is sent as the prefix followed by exactly that text |
| `Commands.BrightnessCommand` | remote_control_gui.py:219-222 | nothing is sent for empty text; otherwise `BRIGHTNESS:` followed by the text verbatim |
| `Commands.SpeedCommand` | remote_control_gui.py:224-227 | nothing is sent for empty text; otherwise `TSPEED:` followed by the text verbatim |
| `Commands.ManualValueVerbatim` | remote_control_gui.py:219-227 | the typed value is sent unchanged after `BRIGHTNESS:` or `TSPEED:`, with no range check or reformatting |
| `Commands.EffectCommand` | remote_control_gui.py:229-231 | the effect command is `EFFECT:` followed by one of the drop-down items, so it is `EFFECT:RAINBOW` or `EFFECT:PROGRESS` |
| `Commands.EffectCommands` | remote_control_gui.py:97-98 | item 0 sends `EFFECT:RAINBOW`, item 1 sends `EFFECT:PROGRESS`, and different items send different commands |
| `Commands.CommandFor` | remote_control_gui.py:36-181 | the `init_ui` wiring from each control to the command it sends; every command it sends is at least five characters long, and its meaning is fixed by FixedButtonCommands, PresetCommands, DynamicSentExactlyBy, ClearSentExactlyBy and NothingSentExactlyWhen |
| `Commands.FixedButtonCommands` | remote_control_gui.py:36-125 | ON and Dynamic send `DYNAMIC`, OFF sends `CLEAR`; the step buttons send `BRIGHTNESS:UP`, `BRIGHTNESS:DOWN`, `TSPEED:UP`, `TSPEED:DOWN` |
| `Commands.DynamicSentExactlyBy` | remote_control_gui.py:36-114 | a control sends `DYNAMIC` if and only if it is the ON button or the Dynamic button |
| `Commands.ClearSentExactlyBy` | remote_control_gui.py:37 | a control sends `CLEAR` if and only if it is the OFF button |
| `Commands.NothingSentExactlyWhen` | remote_control_gui.py:210-227 | a control sends nothing exactly when its input field is empty or the colour dialog was cancelled |
| `Session.FailedStatus` | remote_control_gui.py:194 | the failure label is `Status: Connection failed - ` followed by the error text, and it differs from the other three labels |
| `Session.AfterConnect` | remote_control_gui.py:184-196 | a connect attempt transmits nothing; the socket is present afterwards unless creating it failed; the label reads `Status: Connected` exactly when the greeting arrived, and otherwise carries the error text |
| `Session.AfterSend` | remote_control_gui.py:198-208 | without a socket nothing changes; with one, the socket stays; an accepted command is appended once and the label is kept; a send error appends nothing and sets `Status: Connection lost` |
| `Session.AfterOptionalSend` | remote_control_gui.py:210-227 | the guards `if color.isValid():`, `if brightness:` and `if speed:`: when no command is produced the state is unchanged, otherwise it is exactly one `send_command` of that command |
| `Session.InitialCoherent` | remote_control_gui.py:16-28 | the window starts with no socket, `Status: Disconnected` and nothing sent, which is a coherent state |
| `Session.AfterConnectCoherent` | remote_control_gui.py:184-196 | a connection attempt keeps the state coherent: `Connected` and `Connection lost` only with a socket, `Disconnected` only without, and nothing sent without a socket |
| `Session.AfterSendCoherent` | remote_control_gui.py:198-208 | a send keeps the state coherent |
| `Session.RunCoherent` | remote_control_gui.py:198-208 | any series of sends keeps the state coherent |
| `Session.RunKeepsSocket` | remote_control_gui.py:198-208 | a series of sends never drops the socket, and without a socket it changes nothing at all |
| `Session.RunLog` | remote_control_gui.py:198-206 | with a socket, a series of sends appends exactly the accepted commands to the log, in call order, at most one per call |
| `Session.RunStatus` | remote_control_gui.py:198-206 | with a socket, the label reads `Connection lost` after a series of sends if and only if one of them failed; otherwise it is unchanged |
| `Session.AllAccepted` | remote_control_gui.py:198-206 | when every send succeeds, every command is transmitted once, in call order |
| `Session.SendAfterFailedConnect` | remote_control_gui.py:184-206 | after a failed connect the socket is still present, so the next command is offered to it: if accepted it is transmitted while the label still reports the failure, and if it fails the label changes to `Status: Connection lost` although no connection ever existed |
| `Session.SendAfterLostConnection` | remote_control_gui.py:198-206 | after a send error the next command is offered again and, if accepted, transmitted while the label still reads `Connection lost` |
| `RemoteGui.LedRemote.constructor` | remote_control_gui.py:11-20 | the window starts disconnected at 192.168.1.109:50000 and makes exactly one connection attempt |
| `RemoteGui.LedRemote.ConnectToServer` | remote_control_gui.py:184-196 | the fields end up as the connection attempt leaves them, and the state stays coherent |
| `RemoteGui.LedRemote.SendCommand` | remote_control_gui.py:198-208 | the fields end up as one `send_command` call leaves them, and the state stays coherent |
| `RemoteGui.LedRemote.SetStaticColor` | remote_control_gui.py:215-217 | sends the static colour command for the given colour |
| `RemoteGui.LedRemote.ChooseColor` | remote_control_gui.py:210-213 | sends the picked colour's static command, or nothing when the dialog was cancelled |
| `RemoteGui.LedRemote.SetManualBrightness` | remote_control_gui.py:219-222 | sends the brightness command, or nothing for an empty field |
| `RemoteGui.LedRemote.SetManualTspeed` | remote_control_gui.py:224-227 | sends the speed command, or nothing for an empty field |
| `RemoteGui.LedRemote.ApplyEffect` | remote_control_gui.py:229-231 | sends the effect command of the selected drop-down item |
| `RemoteGui.LedRemote.Activate` | remote_control_gui.py:36-125 | clicking any control sends exactly the command `CommandFor` gives for it, or nothing |
| `RemoteGui.LedRemote.CloseEvent` | remote_control_gui.py:233-236 | closing the window closes the socket exactly when one is held, and no field changes |
| `RemoteGui.CloseAfterStart` | remote_control_gui.py:184-236 | after the constructor's one connection attempt, closing the window closes a socket exactly when the attempt got as far as creating one, whether or not `connect` then failed |

## Left out

- Widget construction, layout, style sheets and the label's colour (`init_ui`, `create_button`, `create_color_button`): these are UI only. The model keeps only the command each control passes to `send_command`.
- `QColorDialog.getColor()` and `color.name()`: these are library calls. The picked colour is an arbitrary string, or `None` when the dialog is cancelled.
- `QIntValidator(0, 100)`: this is library behaviour. The field text is an arbitrary string, and the model does not claim the code range-checks it.
- Real socket I/O (`socket.socket`, `connect`, `recv`, `sendall`, `close`): each outcome is a parameter. The model does not say which outcomes a real network produces, for example that `sendall` on a socket whose connect failed would itself fail.
- `RemoteGui.LedRemote.SendCommand`: a `sendall` that raises after transmitting part of the command. The model appends nothing on any send error.
- The greeting text and its UTF-8 decoding: the greeting is only printed. A greeting that is not valid UTF-8 raises an exception that is not a socket error. That exception escapes `connect_to_server` and the constructor, and this path is not modelled.
- UTF-8 encoding of commands: commands are strings, and the log records them as they were sent. The protocol puts no delimiter between commands on the TCP stream, and the model does not represent the byte stream.
- `print` logging and the `__main__` application start-up.
