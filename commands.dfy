/**
 * The command vocabulary of the LED remote: the strings that the window's
 * controls hand to `send_command`. Every builder is a total function on
 * strings; nothing here touches the connection.
 */
module Commands {
  import opened Wrappers

  // Fixed commands sent by the ON/OFF, step and Dynamic buttons.
  const DynamicCommand: string := "DYNAMIC"
  const ClearCommand: string := "CLEAR"
  const BrightnessUpCommand: string := "BRIGHTNESS:UP"
  const BrightnessDownCommand: string := "BRIGHTNESS:DOWN"
  const SpeedUpCommand: string := "TSPEED:UP"
  const SpeedDownCommand: string := "TSPEED:DOWN"

  // Prefixes of the commands that carry a value.
  const StaticPrefix: string := "STATIC:"
  const BrightnessPrefix: string := "BRIGHTNESS:"
  const SpeedPrefix: string := "TSPEED:"
  const EffectPrefix: string := "EFFECT:"

  /** The nine preset colour buttons: (label, colour string). */
  const Presets: seq<(string, string)> :=
    [("Red", "#FF0000"), ("Green", "#00FF00"), ("Blue", "#0000FF"),
     ("White", "#FFFFFF"), ("Scarlet", "#FF1000"), ("Violet", "#45009F"),
     ("Amber", "#FF7F00"), ("Teal blue", "#00799E"), ("Pink", "#D60082")]

  type PresetIndex = i: nat | i < 9

  /** The items of the effect drop-down, in order. */
  const EffectItems: seq<string> := ["RAINBOW", "PROGRESS"]

  /** The drop-down always has one of its two items selected. */
  type EffectIndex = i: nat | i < 2

  /**
   * Python's `s.replace('#', '0x')`: every '#' becomes the two characters
   * "0x", every other character is kept, in order.
   */
  function ReplaceHash(s: string): (r: string)
    ensures '#' !in r
  {
    if s == [] then []
    else (if s[0] == '#' then "0x" else [s[0]]) + ReplaceHash(s[1..])
  }

  /** `set_static_color`: "STATIC:" followed by the colour with '#' replaced by "0x". */
  function StaticColorCommand(color: string): (r: string)
    ensures StaticPrefix <= r
    ensures '#' !in r
  {
    StaticPrefix + ReplaceHash(color)
  }

  /**
   * `set_manual_brightness` / `set_manual_tspeed`: an empty input field sends
   * nothing; any other text is sent verbatim after the prefix.
   */
  function ManualCommand(prefix: string, text: string): (r: Option<string>)
    ensures r.None? <==> text == ""
    ensures r.Some? ==> prefix <= r.value && r.value[|prefix|..] == text
  {
    if text == "" then None else Some(prefix + text)
  }

  function BrightnessCommand(text: string): (r: Option<string>)
    ensures r.None? <==> text == ""
    ensures r.Some? ==> BrightnessPrefix <= r.value && r.value[|BrightnessPrefix|..] == text
  {
    ManualCommand(BrightnessPrefix, text)
  }

  function SpeedCommand(text: string): (r: Option<string>)
    ensures r.None? <==> text == ""
    ensures r.Some? ==> SpeedPrefix <= r.value && r.value[|SpeedPrefix|..] == text
  {
    ManualCommand(SpeedPrefix, text)
  }

  /** `apply_effect`: "EFFECT:" followed by the selected drop-down item. */
  function EffectCommand(selected: EffectIndex): (r: string)
    ensures r == "EFFECT:RAINBOW" || r == "EFFECT:PROGRESS"
    ensures EffectPrefix <= r && r[|EffectPrefix|..] in EffectItems
  {
    EffectPrefix + EffectItems[selected]
  }

  /** A control of the window together with the input it reads when activated. */
  datatype Action =
    | OnButton
    | OffButton
    | BrightnessPlus
    | BrightnessMinus
    | SetBrightness(brightnessText: string)
    | ChooseColor(picked: Option<string>)   // None: the colour dialog was cancelled
    | PresetColor(preset: PresetIndex)
    | EffectButton(selected: EffectIndex)
    | DynamicButton
    | SpeedPlus
    | SpeedMinus
    | SetSpeed(speedText: string)

  /**
   * The command an activated control passes to `send_command`, if any. Which
   * control sends what is stated by FixedButtonCommands, PresetCommands,
   * DynamicSentExactlyBy, ClearSentExactlyBy and NothingSentExactlyWhen.
   */
  function CommandFor(a: Action): (r: Option<string>)
    ensures r.Some? ==> |r.value| >= |ClearCommand|
  {
    match a
    case OnButton => Some(DynamicCommand)
    case OffButton => Some(ClearCommand)
    case BrightnessPlus => Some(BrightnessUpCommand)
    case BrightnessMinus => Some(BrightnessDownCommand)
    case SetBrightness(text) => BrightnessCommand(text)
    case ChooseColor(picked) =>
      if picked.Some? then Some(StaticColorCommand(picked.value)) else None
    case PresetColor(i) => Some(StaticColorCommand(Presets[i].1))
    case EffectButton(i) => Some(EffectCommand(i))
    case DynamicButton => Some(DynamicCommand)
    case SpeedPlus => Some(SpeedUpCommand)
    case SpeedMinus => Some(SpeedDownCommand)
    case SetSpeed(text) => SpeedCommand(text)
  }

  // ---------------------------------------------------------------------
  // Properties of the '#' replacement

  /** The result grows by exactly one character for each '#' of the input. */
  lemma {:induction false} ReplaceHashLength(s: string)
    ensures |ReplaceHash(s)| == |s| + multiset(s)['#']
  {
    if s != [] {
      assert s == [s[0]] + s[1..];
      ReplaceHashLength(s[1..]);
    }
  }

  /** A string without '#' is left as it is. */
  lemma {:induction false} ReplaceHashWithoutHash(s: string)
    requires '#' !in s
    ensures ReplaceHash(s) == s
  {
    if s != [] {
      assert s[0] != '#';
      ReplaceHashWithoutHash(s[1..]);
    }
  }

  /** The replacement works character by character: it distributes over concatenation. */
  lemma {:induction false} ReplaceHashAppend(a: string, b: string)
    ensures ReplaceHash(a + b) == ReplaceHash(a) + ReplaceHash(b)
  {
    if a == [] {
      assert a + b == b;
    } else {
      assert (a + b)[0] == a[0];
      assert (a + b)[1..] == a[1..] + b;
      ReplaceHashAppend(a[1..], b);
    }
  }

  /** Replacing twice is the same as replacing once. */
  lemma ReplaceHashIdempotent(s: string)
    ensures ReplaceHash(ReplaceHash(s)) == ReplaceHash(s)
  {
    ReplaceHashWithoutHash(ReplaceHash(s));
  }

  /** True when "0x" occurs somewhere in s. */
  predicate HasZeroX(s: string) {
    |s| >= 2 && ((s[0] == '0' && s[1] == 'x') || HasZeroX(s[1..]))
  }

  /** A string without 'x' holds no "0x". */
  lemma {:induction false} NoZeroXWithoutX(s: string)
    requires 'x' !in s
    ensures !HasZeroX(s)
  {
    if |s| >= 2 {
      assert s[1] in s;
      assert forall c :: c in s[1..] ==> c in s;
      NoZeroXWithoutX(s[1..]);
    }
  }

  /** Turns every "0x" back into '#', scanning left to right. */
  function RestoreHash(r: string): string {
    if |r| >= 2 && r[0] == '0' && r[1] == 'x' then "#" + RestoreHash(r[2..])
    else if r == [] then []
    else [r[0]] + RestoreHash(r[1..])
  }

  /** The replacement is undone by RestoreHash whenever the colour holds no "0x" of its own. */
  lemma {:induction false} RestoreReplaceHash(s: string)
    requires !HasZeroX(s)
    ensures RestoreHash(ReplaceHash(s)) == s
  {
    if s != [] {
      var rest := ReplaceHash(s[1..]);
      RestoreReplaceHash(s[1..]);
      if s[0] == '#' {
        assert ReplaceHash(s) == "0x" + rest;
        assert ("0x" + rest)[2..] == rest;
      } else {
        assert ReplaceHash(s) == [s[0]] + rest;
        assert ([s[0]] + rest)[1..] == rest;
        if s[0] == '0' && |rest| > 0 {
          // rest starts with '0' (from a '#') or with s[1]; neither is 'x'.
          assert |s| > 1;
          assert s[1] != 'x';
          assert rest[0] == (if s[1] == '#' then '0' else s[1]);
        }
      }
    }
  }

  /**
   * The collision the replacement allows: a colour written with '#' and the
   * same colour written with a literal "0x" give the same command.
   */
  lemma HashAndZeroXCollide(digits: string)
    requires '#' !in digits
    ensures "#" + digits != "0x" + digits
    ensures StaticColorCommand("#" + digits) == StaticColorCommand("0x" + digits)
  {
    assert |"#" + digits| != |"0x" + digits|;
    ReplaceHashWithoutHash(digits);
    ReplaceHashAppend("#", digits);
    ReplaceHashAppend("0x", digits);
    assert ReplaceHash("#") == "0x";
    ReplaceHashWithoutHash("0x");
  }

  // ---------------------------------------------------------------------
  // Static colour commands

  predicate IsHexDigit(c: char) {
    '0' <= c <= '9' || 'a' <= c <= 'f' || 'A' <= c <= 'F'
  }

  /** A colour written "#RRGGBB". */
  predicate IsHexColor(c: string) {
    |c| == 7 && c[0] == '#' && forall i :: 1 <= i < 7 ==> IsHexDigit(c[i])
  }

  /** A colour with no '#' passes through unchanged. */
  lemma StaticColorWithoutHash(color: string)
    requires '#' !in color
    ensures StaticColorCommand(color) == StaticPrefix + color
  {
    ReplaceHashWithoutHash(color);
  }

  /** The six digits of a "#RRGGBB" colour hold neither '#' nor "0x". */
  lemma HexColorShape(color: string)
    requires IsHexColor(color)
    ensures color == "#" + color[1..]
    ensures '#' !in color[1..]
    ensures !HasZeroX(color)
  {
    var digits := color[1..];
    forall i | 0 <= i < |digits| ensures digits[i] != '#' {
      assert digits[i] == color[i + 1];
      assert IsHexDigit(color[i + 1]);
    }
    forall i | 0 <= i < |color| ensures color[i] != 'x' {
      assert i == 0 || IsHexDigit(color[i]);
    }
    NoZeroXWithoutX(color);
  }

  /** The replacement turns "#RRGGBB" into "0xRRGGBB". */
  lemma HexColorReplaced(color: string)
    requires IsHexColor(color)
    ensures ReplaceHash(color) == "0x" + color[1..]
  {
    var digits := color[1..];
    HexColorShape(color);
    ReplaceHashWithoutHash(digits);
    ReplaceHashAppend("#", digits);
    assert ReplaceHash("#") == "0x";
  }

  /** "#RRGGBB" is sent as "STATIC:0xRRGGBB", fifteen characters. */
  lemma StaticColorOfHex(color: string)
    requires IsHexColor(color)
    ensures StaticColorCommand(color) == StaticPrefix + "0x" + color[1..]
    ensures |StaticColorCommand(color)| == 15
  {
    HexColorReplaced(color);
  }

  /** A "#RRGGBB" colour can be read back from its static colour command. */
  lemma HexColorRestores(color: string)
    requires IsHexColor(color)
    ensures RestoreHash(StaticColorCommand(color)[|StaticPrefix|..]) == color
  {
    HexColorShape(color);
    StaticColorRestores(color);
  }

  /** The colour is recovered from a static colour command unless it holds a "0x" of its own. */
  lemma StaticColorRestores(color: string)
    requires !HasZeroX(color)
    ensures RestoreHash(StaticColorCommand(color)[|StaticPrefix|..]) == color
  {
    StaticColorPayload(color);
    RestoreReplaceHash(color);
  }

  /** What follows "STATIC:" in a static colour command is the replaced colour. */
  lemma StaticColorPayload(color: string)
    ensures StaticColorCommand(color)[|StaticPrefix|..] == ReplaceHash(color)
  {
  }

  /** Every preset colour is written "#RRGGBB". */
  lemma PresetsAreHexColors()
    ensures forall i :: 0 <= i < |Presets| ==> IsHexColor(Presets[i].1)
  {
  }

  /** Every preset button sends "STATIC:0x" followed by the preset's six digits. */
  lemma PresetCommands(i: PresetIndex)
    ensures IsHexColor(Presets[i].1)
    ensures CommandFor(PresetColor(i)) == Some(StaticPrefix + "0x" + Presets[i].1[1..])
  {
    PresetsAreHexColors();
    StaticColorOfHex(Presets[i].1);
  }

  /**
   * The first preset button is labelled "Red" and sends exactly "STATIC:0xFF0000".
   * The index is a parameter fixed to 0 rather than the literal 0 because
   * Dafny evaluates functions applied to literals eagerly, and evaluating the
   * replacement on a seven-character literal is far more expensive than
   * reasoning from PresetCommands.
   */
  lemma RedPresetCommand(i: PresetIndex)
    requires i == 0
    ensures Presets[i].0 == "Red"
    ensures CommandFor(PresetColor(i)) == Some("STATIC:0xFF0000")
  {
    assert Presets[i].1[1..] == "FF0000";
    assert StaticPrefix + "0x" + "FF0000" == "STATIC:0xFF0000";
    PresetCommands(i);
  }

  // ---------------------------------------------------------------------
  // Which control sends what

  /** The fixed commands of the ON/OFF, step and Dynamic buttons. */
  lemma FixedButtonCommands()
    ensures CommandFor(OnButton) == Some("DYNAMIC")
    ensures CommandFor(OffButton) == Some("CLEAR")
    ensures CommandFor(DynamicButton) == Some("DYNAMIC")
    ensures CommandFor(BrightnessPlus) == Some("BRIGHTNESS:UP")
    ensures CommandFor(BrightnessMinus) == Some("BRIGHTNESS:DOWN")
    ensures CommandFor(SpeedPlus) == Some("TSPEED:UP")
    ensures CommandFor(SpeedMinus) == Some("TSPEED:DOWN")
  {
  }

  /** "DYNAMIC" is sent by the ON button and the Dynamic button and by no other control. */
  lemma DynamicSentExactlyBy(a: Action)
    ensures CommandFor(a) == Some(DynamicCommand) <==> a == OnButton || a == DynamicButton
  {
    if CommandFor(a) == Some(DynamicCommand) {
      var c := CommandFor(a).value;
      assert c[0] == 'D';
    }
  }

  /** "CLEAR" is sent by the OFF button and by no other control. */
  lemma ClearSentExactlyBy(a: Action)
    ensures CommandFor(a) == Some(ClearCommand) <==> a == OffButton
  {
    if CommandFor(a) == Some(ClearCommand) {
      var c := CommandFor(a).value;
      assert c[0] == 'C';
    }
  }

  /** A control sends nothing exactly when its input field is empty or the colour dialog is cancelled. */
  lemma NothingSentExactlyWhen(a: Action)
    ensures CommandFor(a).None? <==>
      a == SetBrightness("") || a == SetSpeed("") || a == ChooseColor(None)
  {
  }

  /** The value typed into a field is sent verbatim: no trimming and no range check. */
  lemma ManualValueVerbatim(text: string)
    requires text != ""
    ensures CommandFor(SetBrightness(text)) == Some(BrightnessPrefix + text)
    ensures CommandFor(SetSpeed(text)) == Some(SpeedPrefix + text)
  {
  }

  /** Each drop-down item gives its own command, and the two possible commands are exactly these. */
  lemma EffectCommands(i: EffectIndex, j: EffectIndex)
    ensures EffectCommand(0) == "EFFECT:RAINBOW" && EffectCommand(1) == "EFFECT:PROGRESS"
    ensures EffectCommand(i) == EffectCommand(j) <==> i == j
  {
  }
}
