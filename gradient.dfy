/**
 * The gradient editor's arithmetic: the `#RRGGBB` check on typed colors,
 * the channels `hexToRgba` reads out of a color, and the preset carousel
 * with its wrap-around and its out-of-range guard.
 */
module Gradient {
  import opened Common

  // ---------------------------------------------------------------------
  // Hex colors
  // ---------------------------------------------------------------------

  predicate IsHexDigit(c: char)
  {
    '0' <= c <= '9' || 'a' <= c <= 'f' || 'A' <= c <= 'F'
  }

  /** The value of a hex digit, either case. */
  function HexValue(c: char): (v: nat)
    requires IsHexDigit(c)
    ensures v < 16
  {
    if '0' <= c <= '9' then c as nat - '0' as nat
    else if 'a' <= c <= 'f' then c as nat - 'a' as nat + 10
    else c as nat - 'A' as nat + 10
  }

  /** The lower-case digit of a value below 16. */
  function HexDigit(v: nat): (c: char)
    requires v < 16
    ensures IsHexDigit(c) && HexValue(c) == v
  {
    if v < 10 then ('0' as int + v) as char else ('a' as int + v - 10) as char
  }

  /** `/^#[0-9A-Fa-f]{6}$/`: the only text the color fields accept. */
  predicate IsHexColor(s: string)
  {
    |s| == 7 && s[0] == '#' && forall i :: 1 <= i < 7 ==> IsHexDigit(s[i])
  }

  /** The hex digits `s` starts with, up to the first other character. */
  function HexRun(s: string): (d: string)
    ensures forall i :: 0 <= i < |d| ==> IsHexDigit(d[i])
  {
    if s == [] || !IsHexDigit(s[0]) then [] else [s[0]] + HexRun(s[1..])
  }

  /** The run is the longest prefix of hex digits: a prefix that stops at the end or before another character. */
  lemma {:induction false} HexRunIsLongest(s: string)
    ensures |HexRun(s)| <= |s| && HexRun(s) == s[..|HexRun(s)|]
    ensures |HexRun(s)| == |s| || !IsHexDigit(s[|HexRun(s)|])
  {
    if s != [] && IsHexDigit(s[0]) {
      HexRunIsLongest(s[1..]);
    }
  }

  /** The value of a run of hex digits, most significant first. */
  function HexDigitsValue(d: string): nat
    requires forall i :: 0 <= i < |d| ==> IsHexDigit(d[i])
  {
    if d == [] then 0 else HexDigitsValue(d[..|d| - 1]) * 16 + HexValue(d[|d| - 1])
  }

  /** `0x` or `0X` starts `s`. */
  predicate HexPrefix(s: string)
  {
    |s| >= 2 && s[0] == '0' && (s[1] == 'x' || s[1] == 'X')
  }

  /** The unsigned part of `parseInt(s, 16)`: an optional `0x` or `0X`, then the hex digits that follow. */
  function ReadHex(s: string): (r: Option<nat>)
    ensures r.Some? <==> HexRun(if HexPrefix(s) then s[2..] else s) != []
  {
    var d := HexRun(if HexPrefix(s) then s[2..] else s);
    if d == [] then None else Some(HexDigitsValue(d))
  }

  /**
   * `parseInt(t, 16)`: leading white space is skipped, then a sign, then
   * the digits as `ReadHex` reads them; a minus sign negates the value.
   * `None` stands for NaN.
   */
  function ParseHex(t: string): Option<int>
    decreases |t|
  {
    if t != [] && IsSpace(t[0]) then ParseHex(t[1..])
    else if t != [] && t[0] == '-' then
      (match ReadHex(t[1..]) case None => None case Some(v) => Some(-(v as int)))
    else if t != [] && t[0] == '+' then
      (match ReadHex(t[1..]) case None => None case Some(v) => Some(v as int))
    else
      (match ReadHex(t) case None => None case Some(v) => Some(v as int))
  }

  /** Text whose first character is `c` and second `d`. */
  predicate Starts2(t: string, c: char, d: char)
  {
    |t| == 2 && t[0] == c && t[1] == d
  }

  /** `0x` or `0X`: a prefix with nothing after it. */
  predicate BarePrefix(t: string)
  {
    Starts2(t, '0', 'x') || Starts2(t, '0', 'X')
  }

  /** The value of one and of two hex digits. */
  lemma HexDigitsValueShort(c: char, d: char)
    requires IsHexDigit(c) && IsHexDigit(d)
    ensures HexDigitsValue([c]) == HexValue(c)
    ensures HexDigitsValue([c, d]) == HexValue(c) * 16 + HexValue(d)
  {
    assert [c][..0] == [];
    assert [c, d][..1] == [c];
  }

  /** What `ParseHex` makes of text of one character. */
  lemma ParseHexOne(c: char)
    ensures ParseHex([c]) == if IsHexDigit(c) then Some(HexValue(c)) else None
  {
    var t := [c];
    if IsSpace(c) {
      assert t[1..] == [];
    } else if c == '-' || c == '+' {
      assert t[1..] == [];
    } else if IsHexDigit(c) {
      assert HexRun(t) == t;
      HexDigitsValueShort(c, c);
    }
  }

  /** Two hex digits read as their value. */
  lemma ParseHexDigits(t: string)
    requires |t| == 2 && IsHexDigit(t[0]) && IsHexDigit(t[1])
    ensures ParseHex(t) == Some(HexValue(t[0]) * 16 + HexValue(t[1]))
  {
    assert HexRun(t[1..]) == [t[1]];
    assert HexRun(t) == t == [t[0], t[1]];
    HexDigitsValueShort(t[0], t[1]);
  }

  /** White space or a sign, then one hex digit: its value, negated after a minus sign. */
  lemma ParseHexSigned(t: string)
    requires |t| == 2 && (IsSpace(t[0]) || t[0] == '+' || t[0] == '-') && IsHexDigit(t[1])
    ensures ParseHex(t) == Some(if t[0] == '-' then -(HexValue(t[1]) as int) else HexValue(t[1]))
  {
    var d := t[1];
    assert t[1..] == [d];
    ParseHexOne(d);
    if !IsSpace(t[0]) {
      assert HexRun([d]) == [d];
      HexDigitsValueShort(d, d);
    }
  }

  /** A hex digit followed by something else: the one digit's value, unless the text is a bare `0x`. */
  lemma ParseHexLeading(t: string)
    requires |t| == 2 && IsHexDigit(t[0]) && !IsHexDigit(t[1])
    ensures ParseHex(t) == if BarePrefix(t) then None else Some(HexValue(t[0]))
  {
    if BarePrefix(t) {
      assert t[2..] == [];
    } else {
      assert HexRun(t) == [t[0]];
      HexDigitsValueShort(t[0], t[0]);
    }
  }

  /** Text of two characters that starts neither with a hex digit nor with white space or a sign before one gives NaN. */
  lemma ParseHexNone(t: string)
    requires |t| == 2 && !IsHexDigit(t[0])
    requires !((IsSpace(t[0]) || t[0] == '+' || t[0] == '-') && IsHexDigit(t[1]))
    ensures ParseHex(t).None?
  {
    var d := t[1];
    assert t[1..] == [d];
    ParseHexOne(d);
  }

  /**
   * `parseInt(t, 16)` on two characters, as `hexToRgba` slices them: two
   * hex digits give their value; a hex digit before anything else gives
   * that digit, except in `0x` and `0X`, which give NaN; white space or
   * `+` before a hex digit give the digit and `-` its negation; anything
   * else gives NaN.
   */
  lemma ParseHexTwo(t: string)
    requires |t| == 2
    ensures IsHexDigit(t[0]) && IsHexDigit(t[1]) ==> ParseHex(t) == Some(HexValue(t[0]) * 16 + HexValue(t[1]))
    ensures IsHexDigit(t[0]) && !IsHexDigit(t[1]) && !BarePrefix(t) ==> ParseHex(t) == Some(HexValue(t[0]))
    ensures (IsSpace(t[0]) || t[0] == '+') && IsHexDigit(t[1]) ==> ParseHex(t) == Some(HexValue(t[1]))
    ensures t[0] == '-' && IsHexDigit(t[1]) ==> ParseHex(t) == Some(-(HexValue(t[1]) as int))
    ensures ParseHex(t).Some? <==>
      (IsHexDigit(t[0]) && !BarePrefix(t)) || ((IsSpace(t[0]) || t[0] == '+' || t[0] == '-') && IsHexDigit(t[1]))
  {
    if IsHexDigit(t[0]) {
      if IsHexDigit(t[1]) {
        ParseHexDigits(t);
      } else {
        ParseHexLeading(t);
      }
    } else if (IsSpace(t[0]) || t[0] == '+' || t[0] == '-') && IsHexDigit(t[1]) {
      ParseHexSigned(t);
    } else {
      ParseHexNone(t);
    }
  }

  /** `hex.slice(i, i + 2)`, cut short at the end of the text. */
  function Pair(hex: string, i: nat): (t: string)
    ensures |t| <= 2
  {
    if i >= |hex| then "" else if i + 2 >= |hex| then hex[i..] else hex[i..i + 2]
  }

  datatype Rgb = Rgb(r: Option<int>, g: Option<int>, b: Option<int>)

  /** The three channels `hexToRgba` reads. */
  function Channels(hex: string): Rgb
  {
    Rgb(ParseHex(Pair(hex, 1)), ParseHex(Pair(hex, 3)), ParseHex(Pair(hex, 5)))
  }

  /** The value of the two hex digits at `i` and `i + 1`, most significant first. */
  function PairValue(hex: string, i: nat): (v: nat)
    requires i + 1 < |hex| && IsHexDigit(hex[i]) && IsHexDigit(hex[i + 1])
    ensures v < 256
  {
    HexValue(hex[i]) * 16 + HexValue(hex[i + 1])
  }

  /** A color the fields accept gives three channels between 0 and 255: the values of its digit pairs. */
  lemma ValidColorChannels(hex: string)
    requires IsHexColor(hex)
    ensures Channels(hex) == Rgb(Some(PairValue(hex, 1)), Some(PairValue(hex, 3)), Some(PairValue(hex, 5)))
  {
    PairOfColor(hex, 1);
    PairOfColor(hex, 3);
    PairOfColor(hex, 5);
  }

  /** Each pair of a valid color reads as its two digits. */
  lemma PairOfColor(hex: string, i: nat)
    requires IsHexColor(hex) && (i == 1 || i == 3 || i == 5)
    ensures ParseHex(Pair(hex, i)) == Some(PairValue(hex, i))
  {
    var t := Pair(hex, i);
    assert t == [hex[i], hex[i + 1]];
    ParseHexDigits(t);
  }

  /** The `#rrggbb` text of three channels. */
  function ToHex(r: nat, g: nat, b: nat): (s: string)
    requires r < 256 && g < 256 && b < 256
    ensures IsHexColor(s)
  {
    ['#', HexDigit(r / 16), HexDigit(r % 16), HexDigit(g / 16), HexDigit(g % 16), HexDigit(b / 16), HexDigit(b % 16)]
  }

  /** Reading the channels back out of `ToHex` gives the channels put in. */
  lemma ChannelsOfToHex(r: nat, g: nat, b: nat)
    requires r < 256 && g < 256 && b < 256
    ensures Channels(ToHex(r, g, b)) == Rgb(Some(r), Some(g), Some(b))
  {
    ValidColorChannels(ToHex(r, g, b));
  }

  /** `toUpperCase` on ASCII letters; the text fields show colors upper-cased. */
  function Upper(s: string): (u: string)
    ensures |u| == |s|
    ensures forall i :: 0 <= i < |s| ==> u[i] == if 'a' <= s[i] <= 'z' then (s[i] as int - 32) as char else s[i]
  {
    seq(|s|, i requires 0 <= i < |s| => if 'a' <= s[i] <= 'z' then (s[i] as int - 32) as char else s[i])
  }

  /** Upper-casing a valid color keeps it valid and keeps its channels. */
  lemma UpperKeepsColor(hex: string)
    requires IsHexColor(hex)
    ensures IsHexColor(Upper(hex)) && Channels(Upper(hex)) == Channels(hex)
  {
    var u := Upper(hex);
    forall i | 1 <= i < 7
      ensures IsHexDigit(u[i]) && HexValue(u[i]) == HexValue(hex[i])
    {
    }
    SameDigitsSameChannels(hex, u);
  }

  /** Two valid colors whose digits have the same values have the same channels. */
  lemma SameDigitsSameChannels(a: string, b: string)
    requires IsHexColor(a) && IsHexColor(b)
    requires forall i :: 1 <= i < 7 ==> HexValue(a[i]) == HexValue(b[i])
    ensures Channels(a) == Channels(b)
  {
    ValidColorChannels(a);
    ValidColorChannels(b);
    assert PairValue(a, 1) == PairValue(b, 1);
    assert PairValue(a, 3) == PairValue(b, 3);
    assert PairValue(a, 5) == PairValue(b, 5);
  }

  /** What a color field shows when it loses focus: its text if valid, else the picker's color upper-cased. */
  function BlurredText(text: string, picker: string): (r: string)
    ensures IsHexColor(picker) ==> IsHexColor(r)
    ensures IsHexColor(text) ==> r == text
    ensures !IsHexColor(text) ==> r == Upper(picker)
  {
    if IsHexColor(text) then text
    else
      UpperKeepsIfValid(picker);
      Upper(picker)
  }

  lemma UpperKeepsIfValid(s: string)
    ensures IsHexColor(s) ==> IsHexColor(Upper(s))
  {
    if IsHexColor(s) {
      UpperKeepsColor(s);
    }
  }

  // ---------------------------------------------------------------------
  // Presets
  // ---------------------------------------------------------------------

  datatype Preset = Preset(name: string, color1: string, color2: string, color3: string)

  const Presets: seq<Preset> := [
    Preset("Default", "#fefefe", "#fff5f5", "#fff8f8"),
    Preset("Green Tea", "#f8fcf8", "#e6f5e6", "#d4edda"),
    Preset("Sakura", "#fffefe", "#ffeef0", "#ffe4e6"),
    Preset("Ocean", "#f0f8ff", "#e6f2ff", "#d9ecff"),
    Preset("Sunset", "#fffaf0", "#fff5e6", "#ffe6d9"),
    Preset("Lavender", "#faf9ff", "#f5f2ff", "#f0ebff")
  ]

  /** Every preset's colors would pass the fields' check. */
  lemma PresetColorsValid()
    ensures forall i :: 0 <= i < |Presets| ==>
      IsHexColor(Presets[i].color1) && IsHexColor(Presets[i].color2) && IsHexColor(Presets[i].color3)
  {
  }

  /** The index after `i`, wrapping from the last preset to the first. */
  function NextIndex(i: int): int
  {
    (i + 1) % |Presets|
  }

  /**
   * The index before `i`, wrapping from the first preset to the last.  For
   * an index in range the operand is not negative, so JavaScript's `%`
   * agrees with Dafny's.
   */
  function PrevIndex(i: int): int
  {
    (i - 1 + |Presets|) % |Presets|
  }

  /** Both moves stay in range and undo each other. */
  lemma NextPrevInverse(i: int)
    requires 0 <= i < |Presets|
    ensures 0 <= NextIndex(i) < |Presets| && 0 <= PrevIndex(i) < |Presets|
    ensures PrevIndex(NextIndex(i)) == i && NextIndex(PrevIndex(i)) == i
  {
  }

  /** `k` presses of "next" from `i`. */
  function NextTimes(i: int, k: nat): int
  {
    if k == 0 then i else NextIndex(NextTimes(i, k - 1))
  }

  /** Pressing "next" `k` times moves `k` places round the carousel. */
  lemma {:induction false} NextTimesWraps(i: int, k: nat)
    requires 0 <= i < |Presets|
    ensures NextTimes(i, k) == (i + k) % |Presets|
  {
    if k > 0 {
      NextTimesWraps(i, k - 1);
      WrapStep(i + k - 1);
    }
  }

  /** One step after `x` wraps to the same index as one step after `x`'s own wrap. */
  lemma WrapStep(x: nat)
    ensures NextIndex(x % |Presets|) == (x + 1) % |Presets|
  {
    assert |Presets| == 6;
  }

  /** Going once round the carousel comes back to the start. */
  lemma FullCircle(i: int)
    requires 0 <= i < |Presets|
    ensures NextTimes(i, |Presets|) == i
  {
    NextTimesWraps(i, |Presets|);
  }

  /** The carousel: `currentPresetIndex` and the preset last applied. */
  class PresetCarousel {
    var current: int

    predicate Valid()
      reads this
    {
      0 <= current < |Presets|
    }

    constructor()
      ensures Valid() && current == 0
    {
      current := 0;
    }

    /** `loadPreset(index)`: an index out of range is ignored; any other is applied. */
    method LoadPreset(index: int) returns (applied: Option<Preset>)
      modifies this
      ensures 0 <= index < |Presets| ==> current == index && applied == Some(Presets[index])
      ensures !(0 <= index < |Presets|) ==> current == old(current) && applied == None
    {
      if index < 0 || index >= |Presets| {
        return None;
      }
      current := index;
      applied := Some(Presets[index]);
    }

    /** The "next" button. */
    method Next() returns (applied: Option<Preset>)
      requires Valid()
      modifies this
      ensures Valid() && current == NextIndex(old(current)) && applied == Some(Presets[current])
    {
      applied := LoadPreset((current + 1) % |Presets|);
    }

    /** The "previous" button. */
    method Prev() returns (applied: Option<Preset>)
      requires Valid()
      modifies this
      ensures Valid() && current == PrevIndex(old(current)) && applied == Some(Presets[current])
    {
      applied := LoadPreset((current - 1 + |Presets|) % |Presets|);
    }

    /** The reset button: back to the first preset's colors. */
    method Reset()
      modifies this
      ensures Valid() && current == 0
    {
      current := 0;
    }
  }
}
