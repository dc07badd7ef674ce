/** The colour resolver of `src/color.rs`: the closed colour enum, the
    mapping of a foreground/background pair to SGR parameter tokens, the
    `ESC [ ... m` wrapper, and the CSS-style hex colour parser. */
module Color {
  import opened Strings

  const ESC: char := '\U{1B}'

  /** `COLORS`: eight palette entries, the terminal default, no colour, or a hex string. */
  datatype Colors = Black | Red | Green | Yellow | Blue | Magenta | Cyan | White | Default | None | Hex(hex: string)

  /** `Color { fg, bg }`. */
  datatype Color = Color(fg: Colors, bg: Colors)

  /** The two `panic!`s of `string_to_hexdec`, as values. */
  datatype HexError = InvalidHexLength | InvalidHexDigit

  datatype Result<T> = Ok(value: T) | Err(error: HexError)

  /** `ESC[39;49m`: default foreground and default background. */
  function Reset(): string
  {
    [ESC] + "[39;49m"
  }

  // ---------------------------------------------------------------------
  // Escape sequences
  // ---------------------------------------------------------------------

  /** `Color::format`: the tokens joined by ';' inside `ESC [` ... `m`. */
  function Format(m: seq<string>): (r: string)
    ensures |r| >= 3
    ensures m == [] ==> r == [ESC, '[', 'm']
  {
    [ESC] + "[" + Join(m, ";") + "m"
  }

  /** A terminal reading back the parameters of a `Format` result finds
      exactly the tokens, as long as there is at least one and none of them
      holds a ';' itself (palette tokens never do). */
  lemma FormatRoundTrip(m: seq<string>)
    requires |m| >= 1
    requires forall i :: 0 <= i < |m| ==> ';' !in m[i]
    ensures var r := Format(m);
      r[0] == ESC && r[1] == '[' && r[|r| - 1] == 'm' && Split(r[2..|r| - 1], ';') == m
  {
    var r := Format(m);
    assert r[2..|r| - 1] == Join(m, ";");
    SplitJoin(m, ';');
  }

  /** `unapply`: always the two reset tokens, whatever the pair. */
  function Unapply(c: Color): seq<string>
  {
    ["39", "49"]
  }

  /** `unset`. */
  function Unset(c: Color): (r: string)
    ensures r == Reset()
  {
    Format(Unapply(c))
  }

  // ---------------------------------------------------------------------
  // Colour resolution
  // ---------------------------------------------------------------------

  /** `parse_color`: the SGR suffix for one channel ("" for no colour). */
  function ParseColor(color: Colors): (r: Result<string>)
    ensures r.Err? <==> color.Hex? && HexValue(color.hex).Err?
    ensures r.Err? ==> r.error == HexValue(color.hex).error
    ensures r.Ok? ==> (r.value == "" <==> color == None)
    ensures r.Ok? && color.Hex? ==> |r.value| >= 9 && r.value[..4] == "8;2;"
    ensures r.Ok? && !color.Hex? && color != None ==> |r.value| == 1 && IsDecimalDigit(r.value[0])
  {
    match color
    case Black => Ok("0")
    case Red => Ok("1")
    case Green => Ok("2")
    case Yellow => Ok("3")
    case Blue => Ok("4")
    case Magenta => Ok("5")
    case Cyan => Ok("6")
    case White => Ok("7")
    case Default => Ok("9")
    case Hex(hex) =>
      (match HexValue(hex)
       case Ok(v) => Ok(ConvertHexToAnsi(v))
       case Err(e) => Err(e))
    case None => Ok("")
  }

  /** `apply`: the foreground token (prefix '3') then the background token
      (prefix '4'); a channel without colour contributes no token at all. */
  function Apply(c: Color): (r: Result<seq<string>>)
    ensures r.Err? <==> ParseColor(c.fg).Err? || ParseColor(c.bg).Err?
    ensures r.Err? ==> r.error == (if ParseColor(c.fg).Err? then ParseColor(c.fg).error else ParseColor(c.bg).error)
    ensures r.Ok? ==> |r.value| == (if c.fg == None then 0 else 1) + (if c.bg == None then 0 else 1)
    ensures r.Ok? ==> forall i :: 0 <= i < |r.value| ==> |r.value[i]| >= 2 && (r.value[i][0] == '3' || r.value[i][0] == '4')
    ensures r.Ok? && c.fg != None ==> r.value[0] == "3" + ParseColor(c.fg).value
    ensures r.Ok? && c.bg != None ==> r.value[|r.value| - 1] == "4" + ParseColor(c.bg).value
  {
    match ParseColor(c.fg)
    case Err(e) => Err(e)
    case Ok(fg) =>
      var sets := if fg != "" then ["3" + fg] else [];
      match ParseColor(c.bg)
      case Err(e) => Err(e)
      case Ok(bg) => Ok(if bg != "" then sets + ["4" + bg] else sets)
  }

  /** `set`. */
  function Set(c: Color): (r: Result<string>)
    ensures r.Ok? <==> Apply(c).Ok?
    ensures r.Ok? && c.fg == None && c.bg == None ==> r.value == [ESC, '[', 'm']
  {
    match Apply(c)
    case Ok(m) => Ok(Format(m))
    case Err(e) => Err(e)
  }

  /** `print`: the message between the pair's escape and the reset. */
  function Print(c: Color, message: string): (r: Result<string>)
    ensures r.Ok? <==> Apply(c).Ok?
    ensures r.Ok? ==> r.value == Format(Apply(c).value) + message + Reset()
  {
    match Set(c)
    case Ok(s) => Ok(s + message + Unset(c))
    case Err(e) => Err(e)
  }

  /** Two palette colours give `ESC[3f;4bm text ESC[39;49m` with the fixed digits. */
  lemma PalettePairPrint(fg: Colors, bg: Colors, message: string)
    requires !fg.Hex? && fg != None && !bg.Hex? && bg != None
    ensures Print(Color(fg, bg), message)
      == Ok([ESC, '['] + "3" + ParseColor(fg).value + ";4" + ParseColor(bg).value + "m" + message + Reset())
  {
    var tokens := Apply(Color(fg, bg)).value;
    var f, b := ParseColor(fg).value, ParseColor(bg).value;
    assert tokens == ["3" + f, "4" + b];
    assert Join(tokens, ";") == tokens[0] + ";" + tokens[1];
    assert Format(tokens) == [ESC] + "[" + ("3" + f + ";" + "4" + b) + "m";
    assert [ESC, '['] + "3" + f + ";4" + b + "m" == [ESC] + "[" + ("3" + f + ";" + "4" + b) + "m";
  }

  /** The in-repo tests of `Color::print`, one lemma per test. */
  lemma CreateColorExample()
    ensures Print(Color(Green, White), "hello") == Ok([ESC] + "[32;47mhello" + [ESC] + "[39;49m")
  {
    PalettePairPrint(Green, White, "hello");
    assert [ESC, '['] + "3" + "2" + ";4" + "7" + "m" + "hello" + Reset() == [ESC] + "[32;47mhello" + [ESC] + "[39;49m";
  }

  lemma CreateOnlyBgColorExample()
    ensures Print(Color(None, White), "hello") == Ok([ESC] + "[47mhello" + [ESC] + "[39;49m")
  {
    var tokens := Apply(Color(None, White)).value;
    assert tokens[0] == "47";
    assert tokens == ["47"];
    assert Format(["47"]) + "hello" + Reset() == [ESC] + "[47mhello" + [ESC] + "[39;49m";
  }

  lemma CreateOnlyFgColorExample()
    ensures Print(Color(Black, None), "hello") == Ok([ESC] + "[30mhello" + [ESC] + "[39;49m")
  {
    var tokens := Apply(Color(Black, None)).value;
    assert tokens[0] == "30";
    assert tokens == ["30"];
    assert Format(["30"]) + "hello" + Reset() == [ESC] + "[30mhello" + [ESC] + "[39;49m";
  }

  // ---------------------------------------------------------------------
  // Hex parsing
  // ---------------------------------------------------------------------

  /** The characters of `s` with every '#' removed (`retain(|x| x != "#")`). */
  function Stripped(s: string): (r: string)
    ensures |r| <= |s|
    ensures forall i :: 0 <= i < |r| ==> r[i] != '#'
    ensures forall c :: c in r <==> c in s && c != '#'
    ensures (forall i :: 0 <= i < |s| ==> s[i] != '#') ==> r == s
  {
    if s == [] then []
    else
      var last := s[|s| - 1];
      Stripped(s[..|s| - 1]) + (if last == '#' then [] else [last])
  }

  /** Stripping works piece by piece, so the kept characters stay in order. */
  lemma {:induction false} StrippedAppend(a: string, b: string)
    ensures Stripped(a + b) == Stripped(a) + Stripped(b)
    decreases |b|
  {
    if b == [] {
      assert a + b == a;
    } else {
      var n := |b| - 1;
      var keep := if b[n] == '#' then [] else [b[n]];
      StrippedAppend(a, b[..n]);
      assert (a + b)[..|a + b| - 1] == a + b[..n];
      assert Stripped(a + b) == Stripped(a + b[..n]) + keep;
      assert Stripped(b) == Stripped(b[..n]) + keep;
    }
  }

  /** Exactly the '#'s are removed: one character fewer for each of them. */
  lemma {:induction false} StrippedLength(s: string)
    ensures |Stripped(s)| == |s| - multiset(s)['#']
  {
    if s != [] {
      var n := |s| - 1;
      StrippedLength(s[..n]);
      assert s == s[..n] + [s[n]];
      assert multiset(s) == multiset(s[..n]) + multiset{s[n]};
      if s[n] == '#' {
        assert |Stripped(s)| == |Stripped(s[..n])|;
        assert multiset(s)['#'] == multiset(s[..n])['#'] + 1;
      } else {
        assert |Stripped(s)| == |Stripped(s[..n])| + 1;
        assert multiset(s)['#'] == multiset(s[..n])['#'];
      }
    }
  }

  /** Read from the front: a leading '#' is dropped, any other character kept. */
  lemma StrippedCons(c: char, rest: string)
    ensures Stripped([c] + rest) == (if c == '#' then [] else [c]) + Stripped(rest)
  {
    StrippedAppend([c], rest);
  }

  /** Every character written twice in place (the three-digit shorthand). */
  function Doubled(d: string): (r: string)
    ensures |r| == 2 * |d|
    ensures forall i :: 0 <= i < |r| ==> r[i] == d[i / 2]
  {
    if d == [] then []
    else
      var last := d[|d| - 1];
      Doubled(d[..|d| - 1]) + [last, last]
  }

  function Expanded(d: string): string
  {
    if |d| == 3 then Doubled(d) else d
  }

  predicate IsHexDigit(c: char)
  {
    '0' <= c <= '9' || 'a' <= c <= 'f' || 'A' <= c <= 'F'
  }

  /** The value of one hex digit of either case. */
  function DigitValue(c: char): (v: nat)
    requires IsHexDigit(c)
    ensures v < 16
  {
    if '0' <= c <= '9' then c as int - '0' as int
    else if 'a' <= c <= 'f' then c as int - 'a' as int + 10
    else c as int - 'A' as int + 10
  }

  /** The digit values of `s`, or `InvalidHexDigit` if one is not a hex digit. */
  function DigitValues(s: string): (r: Result<seq<nat>>)
    ensures r.Err? ==> r.error == InvalidHexDigit
    ensures r.Ok? <==> forall i :: 0 <= i < |s| ==> IsHexDigit(s[i])
    ensures r.Ok? ==> |r.value| == |s| && forall i :: 0 <= i < |s| ==> r.value[i] == DigitValue(s[i])
  {
    if s == [] then Ok([])
    else
      var last := s[|s| - 1];
      match DigitValues(s[..|s| - 1])
      case Err(e) => Err(e)
      case Ok(values) => if IsHexDigit(last) then Ok(values + [DigitValue(last)]) else Err(InvalidHexDigit)
  }

  /** `16.pow(k)`. */
  function Pow16(k: nat): (p: nat)
    ensures p >= 1
  {
    if k == 0 then 1 else 16 * Pow16(k - 1)
  }

  /** The source's fold: the digit at index i weighs 16^i. */
  function WeightedSum(values: seq<nat>): nat
  {
    if values == [] then 0
    else WeightedSum(values[..|values| - 1]) + values[|values| - 1] * Pow16(|values| - 1)
  }

  /** The value `string_to_hexdec` computes, or the error it panics with. */
  function HexValue(hex: string): Result<nat>
  {
    var digits := Stripped(hex);
    if |digits| != 3 && |digits| != 6 then Err(InvalidHexLength)
    else
      match DigitValues(Expanded(digits))
      case Err(e) => Err(e)
      case Ok(values) => Ok(WeightedSum(values))
  }

  /** `string_to_hexdec`: the four loops of the source, in order. */
  method StringToHexdec(hex: string) returns (r: Result<nat>)
    ensures r == HexValue(hex)
  {
    var hexVec := RetainNonHash(hex);
    var returnVex: string := [];
    if |hexVec| == 3 {
      returnVex := DoubleEach(hexVec);
    } else if |hexVec| == 6 {
      returnVex := returnVex + hexVec;
    } else {
      return Err(InvalidHexLength);
    }
    assert returnVex == Expanded(Stripped(hex));
    var hexU := ReadDigits(returnVex);
    match hexU
    case Err(e) => return Err(e);
    case Ok(values) =>
      var result := SumWeighted(values);
      return Ok(result);
  }

  /** `hex.split("")` followed by `retain(|&x| x != "" && x != "#")`. */
  method RetainNonHash(hex: string) returns (hexVec: string)
    ensures hexVec == Stripped(hex)
  {
    hexVec := [];
    var i := 0;
    while i < |hex|
      invariant 0 <= i <= |hex|
      invariant hexVec == Stripped(hex[..i])
    {
      assert hex[..i + 1][..i] == hex[..i];
      if hex[i] != '#' {
        hexVec := hexVec + [hex[i]];
      }
      i := i + 1;
    }
    assert hex[..|hex|] == hex;
  }

  /** The loop that pushes every item twice into `return_vex`. */
  method DoubleEach(hexVec: string) returns (returnVex: string)
    ensures returnVex == Doubled(hexVec)
  {
    returnVex := [];
    var j := 0;
    while j < |hexVec|
      invariant 0 <= j <= |hexVec|
      invariant returnVex == Doubled(hexVec[..j])
    {
      assert hexVec[..j + 1][..j] == hexVec[..j];
      returnVex := returnVex + [hexVec[j], hexVec[j]];
      j := j + 1;
    }
    assert hexVec[..|hexVec|] == hexVec;
  }

  /** The loop that maps every item to its digit value into `hex_u`,
      stopping at the first item that is not a hex digit. */
  method ReadDigits(returnVex: string) returns (r: Result<seq<nat>>)
    ensures r == DigitValues(returnVex)
  {
    var hexU: seq<nat> := [];
    var k := 0;
    while k < |returnVex|
      invariant 0 <= k <= |returnVex|
      invariant DigitValues(returnVex[..k]) == Ok(hexU)
    {
      var item := returnVex[k];
      if !IsHexDigit(item) {
        return Err(InvalidHexDigit);
      }
      assert returnVex[..k + 1][..k] == returnVex[..k];
      hexU := hexU + [DigitValue(item)];
      k := k + 1;
    }
    assert returnVex[..|returnVex|] == returnVex;
    return Ok(hexU);
  }

  /** The indexed loop `result += u * x.pow(index)`. */
  method SumWeighted(hexU: seq<nat>) returns (result: nat)
    ensures result == WeightedSum(hexU)
  {
    result := 0;
    var index := 0;
    while index < |hexU|
      invariant 0 <= index <= |hexU|
      invariant result == WeightedSum(hexU[..index])
    {
      assert hexU[..index + 1][..index] == hexU[..index];
      result := result + hexU[index] * Pow16(index);
      index := index + 1;
    }
    assert hexU[..|hexU|] == hexU;
  }

  /** The three channels `convert_hex_to_ansi` extracts. */
  function RedOf(v: nat): (r: nat)
    ensures r <= 255
  {
    (v / 0x1_0000) % 256
  }

  function GreenOf(v: nat): (g: nat)
    ensures g <= 255
  {
    (v / 0x100) % 256
  }

  function BlueOf(v: nat): (b: nat)
    ensures b <= 255
  {
    v % 256
  }

  /** `convert_hex_to_ansi`: "8;2;R;G;B" with unpadded decimal channels. */
  function ConvertHexToAnsi(color: nat): (r: string)
    ensures 9 <= |r| <= 15
    ensures r[..4] == "8;2;"
  {
    ByteDecimalLength(RedOf(color));
    ByteDecimalLength(GreenOf(color));
    ByteDecimalLength(BlueOf(color));
    "8;2;" + NatToDecimal(RedOf(color)) + ";" + NatToDecimal(GreenOf(color)) + ";" + NatToDecimal(BlueOf(color))
  }

  // ---------------------------------------------------------------------
  // Properties of the hex parser
  // ---------------------------------------------------------------------

  /** The fold reads the FIRST digit as the least significant one: the
      value is the first digit plus sixteen times the value of the rest. */
  lemma {:induction false} WeightedSumFirst(ds: seq<nat>)
    requires |ds| >= 1
    ensures WeightedSum(ds) == ds[0] + 16 * WeightedSum(ds[1..])
  {
    var n := |ds| - 1;
    if n == 0 {
      assert ds[..0] == [] && ds[1..] == [];
    } else {
      WeightedSumFirst(ds[..n]);
      assert ds[..n][1..] == ds[1..][..n - 1];
      assert ds[1..][n - 1] == ds[n];
      assert ds[n] * Pow16(n) == 16 * (ds[n] * Pow16(n - 1));
    }
  }

  /** k digits below 16 sum to less than 16^k. */
  lemma {:induction false} WeightedSumBound(ds: seq<nat>)
    requires forall i :: 0 <= i < |ds| ==> ds[i] < 16
    ensures WeightedSum(ds) < Pow16(|ds|)
  {
    if ds != [] {
      WeightedSumFirst(ds);
      WeightedSumBound(ds[1..]);
    }
  }

  /** A parsed hex colour always fits in 24 bits. */
  lemma HexValueBelow2To24(hex: string)
    requires HexValue(hex).Ok?
    ensures HexValue(hex).value < 0x100_0000
  {
    var values := DigitValues(Expanded(Stripped(hex))).value;
    WeightedSumBound(values);
    assert Pow16(6) == 0x100_0000;
  }

  /** The two failures, and exactly when each occurs: the length is checked
      (after removing every '#') before any digit is looked at. */
  lemma HexValueFailure(hex: string)
    ensures HexValue(hex) == Err(InvalidHexLength) <==> |Stripped(hex)| != 3 && |Stripped(hex)| != 6
    ensures HexValue(hex) == Err(InvalidHexDigit)
      <==> (|Stripped(hex)| == 3 || |Stripped(hex)| == 6)
           && exists i :: 0 <= i < |Stripped(hex)| && !IsHexDigit(Stripped(hex)[i])
  {
    var d := Stripped(hex);
    if |d| == 3 || |d| == 6 {
      var e := Expanded(d);
      if exists i :: 0 <= i < |d| && !IsHexDigit(d[i]) {
        var i :| 0 <= i < |d| && !IsHexDigit(d[i]);
        if |d| == 3 {
          assert e[2 * i] == d[i];
        } else {
          assert e[i] == d[i];
        }
      } else {
        forall j | 0 <= j < |e|
          ensures IsHexDigit(e[j])
        {
          if |d| == 3 {
            assert e[j] == d[j / 2];
          }
        }
      }
    }
  }

  /** The other side of the two failures: parsing succeeds exactly when,
      without its '#'s, the input has 3 or 6 characters, all hex digits. */
  lemma HexValueSuccess(hex: string)
    ensures HexValue(hex).Ok?
      <==> (|Stripped(hex)| == 3 || |Stripped(hex)| == 6)
           && forall i :: 0 <= i < |Stripped(hex)| ==> IsHexDigit(Stripped(hex)[i])
  {
    HexValueFailure(hex);
  }

  /** Every '#' is removed, wherever it stands, so the result is that of the
      string without them. */
  lemma HexValueIgnoresHashes(hex: string)
    ensures HexValue(hex) == HexValue(Stripped(hex))
  {
    assert Stripped(Stripped(hex)) == Stripped(hex);
  }

  /** The three-digit shorthand gives the value of its six-digit expansion. */
  lemma ShortFormExpands(hex: string)
    requires |Stripped(hex)| == 3
    ensures HexValue(hex) == HexValue(Doubled(Stripped(hex)))
  {
    var d := Stripped(hex);
    var full := Doubled(d);
    forall i | 0 <= i < |full|
      ensures full[i] != '#'
    {
      assert full[i] == d[i / 2];
    }
    assert Stripped(full) == full;
  }

  /** Splitting a 24-bit value into bytes and back. */
  lemma BytesOfSum(r: nat, g: nat, b: nat)
    requires r < 256 && g < 256 && b < 256
    ensures var v := r * 0x1_0000 + g * 0x100 + b;
      RedOf(v) == r && GreenOf(v) == g && BlueOf(v) == b
  {
    var v := r * 0x1_0000 + g * 0x100 + b;
    assert v / 0x100 == r * 0x100 + g;
    assert v / 0x1_0000 == r;
  }

  lemma ChannelsRecombine(v: nat)
    requires v < 0x100_0000
    ensures RedOf(v) * 0x1_0000 + GreenOf(v) * 0x100 + BlueOf(v) == v
  {
    assert v / 0x1_0000 < 256;
    assert (v / 0x100) / 0x100 == v / 0x1_0000;
  }

  /** Which digits make which channel. With the source's weighting the
      first two digits form the BLUE byte (low digit first) and the last
      two the RED byte, the reverse of the CSS reading. */
  lemma HexChannels(hex: string)
    requires HexValue(hex).Ok?
    ensures var e := Expanded(Stripped(hex)); var v := HexValue(hex).value;
      |e| == 6 && (forall i :: 0 <= i < 6 ==> IsHexDigit(e[i]))
      && BlueOf(v) == DigitValue(e[0]) + 16 * DigitValue(e[1])
      && GreenOf(v) == DigitValue(e[2]) + 16 * DigitValue(e[3])
      && RedOf(v) == DigitValue(e[4]) + 16 * DigitValue(e[5])
  {
    var e := Expanded(Stripped(hex));
    var ds := DigitValues(e).value;
    assert |ds| == 6;
    WeightedSumSix(ds);
    BytesOfSum(ds[4] + 16 * ds[5], ds[2] + 16 * ds[3], ds[0] + 16 * ds[1]);
  }

  /** Six digits, read in pairs: each pair is one byte, low digit first. */
  lemma WeightedSumSix(ds: seq<nat>)
    requires |ds| == 6
    ensures WeightedSum(ds) == (ds[0] + 16 * ds[1]) + (ds[2] + 16 * ds[3]) * 0x100 + (ds[4] + 16 * ds[5]) * 0x1_0000
  {
    WeightedSumFirst(ds);
    WeightedSumFirst(ds[1..]);
    WeightedSumFirst(ds[2..]);
    WeightedSumFirst(ds[3..]);
    WeightedSumFirst(ds[4..]);
    WeightedSumFirst(ds[5..]);
    assert ds[1..][1..] == ds[2..] && ds[2..][1..] == ds[3..] && ds[3..][1..] == ds[4..];
    assert ds[4..][1..] == ds[5..] && ds[5..][1..] == [];
  }

  /** For the shorthand every channel is a digit doubled: 17 times its value,
      the first digit giving blue and the last red. */
  lemma ShortFormChannels(hex: string)
    requires |Stripped(hex)| == 3 && HexValue(hex).Ok?
    ensures var d := Stripped(hex); var v := HexValue(hex).value;
      (forall i :: 0 <= i < 3 ==> IsHexDigit(d[i]))
      && BlueOf(v) == 17 * DigitValue(d[0])
      && GreenOf(v) == 17 * DigitValue(d[1])
      && RedOf(v) == 17 * DigitValue(d[2])
  {
    var d := Stripped(hex);
    var e := Expanded(d);
    HexChannels(hex);
    assert e[0] == d[0] && e[1] == d[0] && e[2] == d[1] && e[3] == d[1] && e[4] == d[2] && e[5] == d[2];
  }

  /** The hex token is the join of "8", "2" and the three channel decimals. */
  lemma HexTokenFields(v: nat)
    ensures ConvertHexToAnsi(v)
      == Join(["8", "2", NatToDecimal(RedOf(v)), NatToDecimal(GreenOf(v)), NatToDecimal(BlueOf(v))], ";")
  {
    var r, g, b := NatToDecimal(RedOf(v)), NatToDecimal(GreenOf(v)), NatToDecimal(BlueOf(v));
    JoinFive("8", "2", r, g, b, ";");
    assert "8" + ";" + "2" + ";" == "8;2;";
  }

  /** The hex token holds the three channels as decimals between ';'s, and
      for a 24-bit value they give back the value itself. */
  lemma HexTokenRoundTrip(v: nat)
    requires v < 0x100_0000
    ensures var parts := Split(ConvertHexToAnsi(v), ';');
      |parts| == 5 && parts[0] == "8" && parts[1] == "2"
      && DecimalValue(parts[2]) == RedOf(v)
      && DecimalValue(parts[3]) == GreenOf(v)
      && DecimalValue(parts[4]) == BlueOf(v)
      && DecimalValue(parts[2]) * 0x1_0000 + DecimalValue(parts[3]) * 0x100 + DecimalValue(parts[4]) == v
  {
    var r, g, b := NatToDecimal(RedOf(v)), NatToDecimal(GreenOf(v)), NatToDecimal(BlueOf(v));
    var m := ["8", "2", r, g, b];
    HexTokenFields(v);
    assert forall i :: 0 <= i < |m| ==> ';' !in m[i] by {
      assert !IsDecimalDigit(';');
    }
    SplitJoin(m, ';');
    DecimalRoundTrip(RedOf(v));
    DecimalRoundTrip(GreenOf(v));
    DecimalRoundTrip(BlueOf(v));
    ChannelsRecombine(v);
  }

  // ---------------------------------------------------------------------
  // Concrete hex colours
  // ---------------------------------------------------------------------

  /** A leading '#' is dropped. */
  lemma {:induction false} StripLeadingHash(d: string)
    requires '#' !in d
    ensures Stripped("#" + d) == d
  {
    if d != [] {
      var n := |d| - 1;
      StripLeadingHash(d[..n]);
      assert ("#" + d)[..|d|] == "#" + d[..n];
      assert d[..n] + [d[n]] == d;
    }
  }

  /** A valid hex colour resolves to the token of its value. */
  lemma ParseHexColor(hex: string, v: nat)
    requires HexValue(hex) == Ok(v)
    ensures ParseColor(Hex(hex)) == Ok(ConvertHexToAnsi(v))
  {
  }

  /** A shorthand colour "#xyz" of hex digits: each channel is a digit
      doubled, x giving blue and z giving red. */
  lemma ShortHexChannels(x: char, y: char, z: char)
    requires IsHexDigit(x) && IsHexDigit(y) && IsHexDigit(z)
    ensures HexValue(['#', x, y, z]).Ok?
    ensures var v := HexValue(['#', x, y, z]).value;
      BlueOf(v) == 17 * DigitValue(x) && GreenOf(v) == 17 * DigitValue(y) && RedOf(v) == 17 * DigitValue(z)
  {
    var hex := ['#', x, y, z];
    StripLeadingHash([x, y, z]);
    assert "#" + [x, y, z] == hex;
    HexValueSuccess(hex);
    assert forall i :: 0 <= i < 3 ==> IsHexDigit([x, y, z][i]);
    ShortFormChannels(hex);
  }

  /** The token of a value whose channels are known. */
  lemma TokenOfChannels(v: nat, r: nat, g: nat, b: nat)
    requires RedOf(v) == r && GreenOf(v) == g && BlueOf(v) == b
    ensures ConvertHexToAnsi(v) == "8;2;" + NatToDecimal(r) + ";" + NatToDecimal(g) + ";" + NatToDecimal(b)
  {
  }

  lemma Decimal255()
    ensures NatToDecimal(255) == "255"
  {
    assert NatToDecimal(25) == "25" by { assert NatToDecimal(2) == "2"; }
  }

  lemma WhiteTokenText()
    ensures "8;2;" + NatToDecimal(255) + ";" + NatToDecimal(255) + ";" + NatToDecimal(255) == "8;2;255;255;255"
  {
    Decimal255();
  }

  lemma RedTokenText()
    ensures "8;2;" + NatToDecimal(0) + ";" + NatToDecimal(0) + ";" + NatToDecimal(255) == "8;2;0;0;255"
  {
    Decimal255();
    assert NatToDecimal(0) == "0";
  }

  /** The channels of "#fff" are all 255. */
  lemma WhiteShorthandChannels()
    ensures HexValue("#fff").Ok?
    ensures var v := HexValue("#fff").value; RedOf(v) == 255 && GreenOf(v) == 255 && BlueOf(v) == 255
  {
    ShortHexChannels('f', 'f', 'f');
    assert DigitValue('f') == 15;
  }

  lemma DoubledThree(a: char, b: char, c: char)
    ensures Doubled([a, b, c]) == [a, a, b, b, c, c]
  {
    assert [a, b, c][..2] == [a, b] && [a, b][..1] == [a];
  }

  /** "#fff" is read as "ffffff". */
  lemma WhiteShorthandExpands()
    ensures HexValue("#fff") == HexValue("ffffff")
  {
    StripLeadingHash("fff");
    assert "#" + "fff" == "#fff";
    ShortFormExpands("#fff");
    DoubledThree('f', 'f', 'f');
  }

  /** "#fff" is white: "8;2;255;255;255". */
  lemma WhiteShorthandExample()
    ensures ParseColor(Hex("#fff")) == Ok("8;2;255;255;255")
  {
    WhiteShorthandChannels();
    var v := HexValue("#fff").value;
    TokenOfChannels(v, 255, 255, 255);
    WhiteTokenText();
    ParseHexColor("#fff", v);
  }

  /** The channels of "#f00": the 255 lands in BLUE. */
  lemma ShortRedChannels()
    ensures HexValue("#f00").Ok?
    ensures var v := HexValue("#f00").value; RedOf(v) == 0 && GreenOf(v) == 0 && BlueOf(v) == 255
  {
    ShortHexChannels('f', '0', '0');
    assert DigitValue('f') == 15 && DigitValue('0') == 0;
  }

  /** CSS red "#f00" renders as "8;2;0;0;255", which a terminal shows as
      blue: the source weights the first digit least. */
  lemma ShortRedExample()
    ensures ParseColor(Hex("#f00")) == Ok("8;2;0;0;255")
  {
    ShortRedChannels();
    var v := HexValue("#f00").value;
    TokenOfChannels(v, 0, 0, 255);
    RedTokenText();
    ParseHexColor("#f00", v);
  }

  /** "abc" is read as "aabbcc". */
  lemma ShorthandExample()
    ensures HexValue("abc") == HexValue("aabbcc")
  {
    assert Stripped("abc") == "abc";
    ShortFormExpands("abc");
    DoubledThree('a', 'b', 'c');
  }

  /** Five digits fail on the length. */
  lemma InvalidLengthExample()
    ensures HexValue("12345") == Err(InvalidHexLength)
  {
    assert Stripped("12345") == "12345";
  }

  /** Three characters, none a '#', the last not a hex digit: the length
      check passes and the digit check fails. */
  lemma LastDigitInvalid(x: char, y: char, z: char)
    requires x != '#' && y != '#' && z != '#' && !IsHexDigit(z)
    ensures HexValue([x, y, z]) == Err(InvalidHexDigit)
  {
    var s := [x, y, z];
    assert forall i :: 0 <= i < |s| ==> s[i] != '#';
    HexValueFailure(s);
    assert !IsHexDigit(s[2]);
  }

  /** "12g" has the right length and fails on its third digit. */
  lemma InvalidDigitExample()
    ensures HexValue("12g") == Err(InvalidHexDigit)
  {
    LastDigitInvalid('1', '2', 'g');
  }
}
