/** The builder tests of `src/lib.rs`, written as methods that drive the
    builder call by call and state the string `print` returns. */
module BuilderTests {
  import opened Strings
  import opened Color
  import opened TerminalColorBuilder

  /** The token `.fg().hex("#fff")` pushes. */
  const WhiteToken: string := "38;2;255;255;255"

  lemma WhiteHexToken()
    ensures HexValue("#fff").Ok?
    ensures ChannelPrefix(FG) + ConvertHexToAnsi(HexValue("#fff").value) == WhiteToken
  {
    WhiteShorthandExample();
    WhiteShorthandChannels();
    var v := HexValue("#fff").value;
    ParseHexColor("#fff", v);
    WhiteTokenPrefix();
  }

  lemma WhiteTokenPrefix()
    ensures ChannelPrefix(FG) + "8;2;255;255;255" == WhiteToken
  {
  }

  lemma FlattenPair(a: string, b: string)
    ensures Flatten([[a], [b]]) == [a, b]
  {
    assert [[a], [b]][..1] == [[a]];
    assert Flatten([[a]]) == [a] by { assert [[a]][..0] == []; }
  }

  lemma FormatPair(a: string, b: string)
    ensures Format([a, b]) == [ESC] + "[" + a + ";" + b + "m"
  {
    assert [a, b][1..] == [b];
    assert Join([a, b], ";") == a + ";" + b;
  }

  /** A foreground entry, a background entry and a text after a text
      entry (or at the start) add one segment holding the two tokens. */
  lemma PairSegments(output: seq<seq<string>>, fg: string, bg: string, message: string)
    requires output == [] || IsText(output[|output| - 1])
    requires fg != TextTag && bg != TextTag
    ensures var next := output + [[fg], [bg], TextEntry(message)];
      && IsText(next[|next| - 1])
      && Transcript(next).segments == Transcript(output).segments + [Segment([fg, bg], message)]
  {
    var tail := [[fg], [bg]];
    var next := output + [[fg], [bg], TextEntry(message)];
    assert next == output + tail + [TextEntry(message)];
    assert !IsText(tail[0]) && !IsText(tail[1]);
    SegmentAfterRun(output, tail, message);
    FlattenPair(fg, bg);
  }

  /** The same blocks, rendered: one escape with the two tokens, then the text. */
  lemma PairThenText(output: seq<seq<string>>, fg: string, bg: string, message: string)
    requires output == [] || IsText(output[|output| - 1])
    requires fg != TextTag && bg != TextTag
    ensures var next := output + [[fg], [bg], TextEntry(message)];
      && IsText(next[|next| - 1])
      && RenderSegments(Transcript(next).segments)
         == RenderSegments(Transcript(output).segments) + ([ESC] + "[" + fg + ";" + bg + "m" + message)
  {
    PairSegments(output, fg, bg, message);
    RenderSegmentsStep(Transcript(output).segments, Segment([fg, bg], message));
    FormatPair(fg, bg);
  }

  /** An escape with two tokens and its text, then the reset, spelled out. */
  lemma PairLine(fg: string, bg: string, message: string, literal: string)
    requires "[" + fg + ";" + bg + "m" + message == literal
    ensures [ESC] + "[" + fg + ";" + bg + "m" + message + Reset() == [ESC] + literal + [ESC] + "[39;49m"
  {
  }

  /** An escape with one token and its text, then the reset, spelled out. */
  lemma SingleLine(token: string, message: string, literal: string)
    requires "[" + token + "m" + message == literal
    ensures Format([token]) + message + Reset() == [ESC] + literal + [ESC] + "[39;49m"
  {
  }

  /** A foreground entry, a background entry and a text on a new builder. */
  lemma PairRender(fg: string, bg: string, message: string)
    requires fg != TextTag && bg != TextTag
    ensures Render([[fg], [bg], TextEntry(message)]) == [ESC] + "[" + fg + ";" + bg + "m" + message + Reset()
  {
    PairThenText([], fg, bg, message);
    assert [] + [[fg], [bg], TextEntry(message)] == [[fg], [bg], TextEntry(message)];
  }

  lemma WhiteOnGreenRender()
    ensures Render([["37"], ["42"], TextEntry("Hi")]) == [ESC] + "[37;42mHi" + [ESC] + "[39;49m"
  {
    PairRender("37", "42", "Hi");
    PairLine("37", "42", "Hi", "[37;42mHi");
  }

  /** `test_color_builder_green_bg_white_fg`. */
  method GreenBgWhiteFg() returns (s: string)
    ensures s == [ESC] + "[37;42mHi" + [ESC] + "[39;49m"
  {
    var start := new OutputFormatter();
    var fg := start.Fg();
    var f1 := fg.White();
    var bg := f1.Bg();
    var f2 := bg.Green();
    var f3 := f2.Text("Hi");
    s := f3.Print();
    assert ChannelPrefix(FG) + "7" == "37" && ChannelPrefix(BG) + "2" == "42";
    assert f3.output == [["37"], ["42"], TextEntry("Hi")];
    WhiteOnGreenRender();
  }

  lemma WhiteOnGreenTokens()
    ensures Apply(Color(White, Green)) == Ok(["37", "42"])
  {
    assert Apply(Color(White, Green)).Ok?;
    var t := Apply(Color(White, Green)).value;
    assert |t| == 2;
    assert t[0] == "3" + "7" == "37" && t[1] == "4" + "2" == "42";
    assert t == ["37", "42"];
  }

  lemma DefaultBgTokens()
    ensures Apply(Color(None, Default)) == Ok(["49"])
  {
    assert Apply(Color(None, Default)).Ok?;
    var t := Apply(Color(None, Default)).value;
    assert |t| == 1;
    assert t[0] == "4" + "9" == "49";
    assert t == ["49"];
  }

  /** One entry of tokens, then a text. */
  lemma EntryThenText(tokens: seq<string>, message: string)
    requires !IsText(tokens)
    ensures Render([tokens, TextEntry(message)]) == Format(tokens) + message + Reset()
  {
    SegmentTokensSincePreviousText([], [tokens], message);
    assert [] + [tokens] + [TextEntry(message)] == [tokens, TextEntry(message)];
    assert Flatten([tokens]) == tokens by { assert [tokens][..0] == []; }
  }

  lemma WhiteOnGreenCustomRender()
    ensures Render([["37", "42"], TextEntry("Hi")]) == [ESC] + "[37;42mHi" + [ESC] + "[39;49m"
  {
    EntryThenText(["37", "42"], "Hi");
    FormatPair("37", "42");
    PairLine("37", "42", "Hi", "[37;42mHi");
  }

  /** `test_color_builder_green_bg_white_fg_custom`. */
  method GreenBgWhiteFgCustom() returns (s: string)
    ensures s == [ESC] + "[37;42mHi" + [ESC] + "[39;49m"
  {
    var start := new OutputFormatter();
    WhiteOnGreenTokens();
    var r := start.Custom(White, Green);
    var f := r.value.Text("Hi");
    s := f.Print();
    assert f.output == [["37", "42"], TextEntry("Hi")];
    WhiteOnGreenCustomRender();
  }

  /** `test_color_builder_green_bg_white_fg_custom_combination`: the colour
      calls after the last text are dropped. */
  method CustomCombination() returns (s: string)
    ensures s == [ESC] + "[49mH" + [ESC] + "[39;49m"
  {
    var start := new OutputFormatter();
    DefaultBgTokens();
    var r := start.Custom(None, Default);
    assert r.value.output == [["49"]];
    var f1 := r.value.Text("H");
    assert f1.output == [["49"], TextEntry("H")];
    var f2 := FgWhite(f1);
    var bg := f2.Bg();
    var f3 := bg.Black();
    s := f3.Print();
    assert ChannelPrefix(BG) + "0" == "40";
    assert f3.output == [["49"], TextEntry("H")] + [[WhiteToken]] + [["40"]];
    assert f3.output == [["49"], TextEntry("H"), [WhiteToken], ["40"]];
    CombinationRender();
  }

  lemma CombinationRender()
    ensures Render([["49"], TextEntry("H"), [WhiteToken], ["40"]]) == [ESC] + "[49mH" + [ESC] + "[39;49m"
  {
    var head := [["49"], TextEntry("H")];
    assert [["49"], TextEntry("H"), [WhiteToken], ["40"]] == head + [[WhiteToken], ["40"]];
    TrailingColoursDropped(head, [[WhiteToken], ["40"]]);
    EntryThenText(["49"], "H");
    SingleLine("49", "H", "[49mH");
  }

  /** The entries of one rainbow block: white foreground, a background, a letter. */
  function Block(bg: string, message: string): seq<seq<string>>
  {
    [[WhiteToken], [bg], TextEntry(message)]
  }

  /** The escape and letter one rainbow block renders. */
  function BlockText(bg: string, message: string): string
  {
    [ESC] + "[" + WhiteToken + ";" + bg + "m" + message
  }

  lemma BlockRender(output: seq<seq<string>>, bg: string, message: string)
    requires output == [] || IsText(output[|output| - 1])
    requires bg != TextTag
    ensures var next := output + Block(bg, message);
      && IsText(next[|next| - 1])
      && RenderSegments(Transcript(next).segments) == RenderSegments(Transcript(output).segments) + BlockText(bg, message)
  {
    PairThenText(output, WhiteToken, bg, message);
  }

  /** A run of blocks and what it renders. */
  function Blocks(ps: seq<(string, string)>): seq<seq<string>>
  {
    if ps == [] then [] else Blocks(ps[..|ps| - 1]) + Block(ps[|ps| - 1].0, ps[|ps| - 1].1)
  }

  function BlocksText(ps: seq<(string, string)>): string
  {
    if ps == [] then "" else BlocksText(ps[..|ps| - 1]) + BlockText(ps[|ps| - 1].0, ps[|ps| - 1].1)
  }

  lemma {:induction false} BlocksRender(ps: seq<(string, string)>)
    requires forall i :: 0 <= i < |ps| ==> ps[i].0 != TextTag
    ensures var o := Blocks(ps);
      && (o == [] || IsText(o[|o| - 1]))
      && RenderSegments(Transcript(o).segments) == BlocksText(ps)
  {
    if ps != [] {
      var n := |ps| - 1;
      BlocksRender(ps[..n]);
      BlockRender(Blocks(ps[..n]), ps[n].0, ps[n].1);
    }
  }

  /** The rainbow's backgrounds and letters. */
  const RainbowBlocks: seq<(string, string)> := [("41", "H"), ("44", "e"), ("43", "l"), ("45", "l"), ("46", "o"), ("42", "!")]

  function RainbowOutput(): seq<seq<string>>
  {
    Block("41", "H") + Block("44", "e") + Block("43", "l") + Block("45", "l") + Block("46", "o") + Block("42", "!")
  }

  function RainbowText(): string
  {
    BlockText("41", "H") + BlockText("44", "e") + BlockText("43", "l") + BlockText("45", "l") + BlockText("46", "o") + BlockText("42", "!")
  }

  lemma RainbowUnfolds()
    ensures Blocks(RainbowBlocks) == RainbowOutput()
    ensures BlocksText(RainbowBlocks) == RainbowText()
  {
    var P := RainbowBlocks;
    assert P[..6][..5] == P[..5] && P[..5][..4] == P[..4] && P[..4][..3] == P[..3];
    assert P[..3][..2] == P[..2] && P[..2][..1] == P[..1] && P[..1][..0] == [];
    assert P[..6] == P;
    assert Blocks(P[..1]) == Block("41", "H");
    assert Blocks(P[..2]) == Block("41", "H") + Block("44", "e");
    assert Blocks(P[..3]) == Block("41", "H") + Block("44", "e") + Block("43", "l");
    assert Blocks(P[..4]) == Block("41", "H") + Block("44", "e") + Block("43", "l") + Block("45", "l");
    assert Blocks(P[..5]) == Block("41", "H") + Block("44", "e") + Block("43", "l") + Block("45", "l") + Block("46", "o");
    assert BlocksText(P[..1]) == BlockText("41", "H");
    assert BlocksText(P[..2]) == BlockText("41", "H") + BlockText("44", "e");
    assert BlocksText(P[..3]) == BlockText("41", "H") + BlockText("44", "e") + BlockText("43", "l");
    assert BlocksText(P[..4]) == BlockText("41", "H") + BlockText("44", "e") + BlockText("43", "l") + BlockText("45", "l");
    assert BlocksText(P[..5]) == BlockText("41", "H") + BlockText("44", "e") + BlockText("43", "l") + BlockText("45", "l") + BlockText("46", "o");
  }

  lemma RainbowRender()
    ensures Render(RainbowOutput()) == RainbowText() + Reset()
  {
    BlocksRender(RainbowBlocks);
    RainbowUnfolds();
  }

  /** A block's escape spelled out, given its literal text. */
  lemma BlockLiteral(bg: string, message: string, literal: string)
    requires "[38;2;255;255;255;" + bg + "m" + message == literal
    ensures BlockText(bg, message) == [ESC] + literal
  {
    assert "[" + WhiteToken + ";" == "[38;2;255;255;255;";
  }

  /** Regrouping seven escape-led pieces. */
  lemma Regroup(e: string, l1: string, l2: string, l3: string, l4: string, l5: string, l6: string, l7: string)
    ensures (e + l1) + (e + l2) + (e + l3) + (e + l4) + (e + l5) + (e + l6) + (e + l7)
      == e + l1 + e + l2 + e + l3 + e + l4 + e + l5 + e + l6 + e + l7
  {
  }

  lemma RainbowLiteral()
    ensures RainbowText() + Reset()
      == [ESC] + "[38;2;255;255;255;41mH" + [ESC] + "[38;2;255;255;255;44me" + [ESC] + "[38;2;255;255;255;43ml"
         + [ESC] + "[38;2;255;255;255;45ml" + [ESC] + "[38;2;255;255;255;46mo" + [ESC] + "[38;2;255;255;255;42m!"
         + [ESC] + "[39;49m"
  {
    BlockLiteral("41", "H", "[38;2;255;255;255;41mH");
    BlockLiteral("44", "e", "[38;2;255;255;255;44me");
    BlockLiteral("43", "l", "[38;2;255;255;255;43ml");
    BlockLiteral("45", "l", "[38;2;255;255;255;45ml");
    BlockLiteral("46", "o", "[38;2;255;255;255;46mo");
    BlockLiteral("42", "!", "[38;2;255;255;255;42m!");
    Regroup([ESC], "[38;2;255;255;255;41mH", "[38;2;255;255;255;44me", "[38;2;255;255;255;43ml",
      "[38;2;255;255;255;45ml", "[38;2;255;255;255;46mo", "[38;2;255;255;255;42m!", "[39;49m");
  }

  /** `.fg().hex("#fff")`. */
  method FgWhite(f: OutputFormatter) returns (g: OutputFormatter)
    requires f.Valid()
    modifies f
    ensures fresh(g) && g.Valid()
    ensures g.output == old(f.output) + [[WhiteToken]]
  {
    WhiteHexToken();
    var c := f.Fg();
    var r := c.Hex("#fff");
    g := r.value;
  }

  /** `.fg().hex("#fff").bg().<colour>().text(message)`. */
  method WhiteOn(f: OutputFormatter, bg: Colors, token: string, message: string) returns (g: OutputFormatter)
    requires f.Valid() && bg in {Red, Green, Yellow, Blue, Magenta, Cyan}
    requires token == ChannelPrefix(BG) + ParseColor(bg).value
    modifies f
    ensures fresh(g) && g.Valid()
    ensures g.output == old(f.output) + Block(token, message)
  {
    var w := FgWhite(f);
    var b := w.Bg();
    match bg {
      case Red => g := b.Red();
      case Green => g := b.Green();
      case Yellow => g := b.Yellow();
      case Blue => g := b.Blue();
      case Magenta => g := b.Magenta();
      case Cyan => g := b.Cyan();
    }
    assert g.output == old(f.output) + [[WhiteToken]] + [[token]];
    assert g.output + [TextEntry(message)] == old(f.output) + Block(token, message);
    g := g.Text(message);
  }

  /** `test_color_builder_rainbow`: white on six backgrounds, one letter each. */
  method Rainbow() returns (s: string)
    ensures s == [ESC] + "[38;2;255;255;255;41mH" + [ESC] + "[38;2;255;255;255;44me" + [ESC] + "[38;2;255;255;255;43ml"
      + [ESC] + "[38;2;255;255;255;45ml" + [ESC] + "[38;2;255;255;255;46mo" + [ESC] + "[38;2;255;255;255;42m!"
      + [ESC] + "[39;49m"
  {
    var f := new OutputFormatter();
    f := WhiteOn(f, Red, "41", "H");
    assert f.output == Block("41", "H");
    f := WhiteOn(f, Blue, "44", "e");
    f := WhiteOn(f, Yellow, "43", "l");
    f := WhiteOn(f, Magenta, "45", "l");
    f := WhiteOn(f, Cyan, "46", "o");
    f := WhiteOn(f, Green, "42", "!");
    s := f.Print();
    assert f.output == RainbowOutput();
    RainbowRender();
    RainbowLiteral();
  }
}
