/** The segment builder of `src/lib.rs`. An `OutputFormatter` keeps a list of
    entries: the SGR tokens of each colour call, and `["#text#", message]`
    for each text call. `print` walks the list, gathering colour tokens until
    it meets a text entry, then emits the escape for the gathered tokens
    followed by the message; it ends with the reset sequence. */
module TerminalColorBuilder {
  import opened Strings
  import opened Color

  /** The marker `text` puts in front of its message. */
  const TextTag: string := "#text#"

  /** `StyleType`: the channel a colour call sets. */
  datatype StyleType = FG | BG | Both

  /** What `print` takes for a text entry: its first element is the marker. */
  predicate IsText(entry: seq<string>)
  {
    |entry| > 0 && entry[0] == TextTag
  }

  /** `v.get(1).unwrap_or("")`. */
  function TextOf(entry: seq<string>): string
  {
    if |entry| > 1 then entry[1] else ""
  }

  function TextEntry(message: string): seq<string>
  {
    [TextTag, message]
  }

  /** SGR colour tokens: each starts with the '3' (foreground) or '4'
      (background) of its channel. */
  predicate ColourTokens(tokens: seq<string>)
  {
    forall j :: 0 <= j < |tokens| ==> |tokens[j]| >= 2 && (tokens[j][0] == '3' || tokens[j][0] == '4')
  }

  /** The tokens of one resolved colour pair: at most two colour tokens. */
  predicate IsColorEntry(entry: seq<string>)
  {
    |entry| <= 2 && ColourTokens(entry)
  }

  /** What `text` and `colorize` ever push. */
  predicate WellFormed(output: seq<seq<string>>)
  {
    forall i :: 0 <= i < |output| ==> output[i] == TextEntry(TextOf(output[i])) || IsColorEntry(output[i])
  }

  lemma WellFormedAppend(output: seq<seq<string>>, entry: seq<string>)
    requires WellFormed(output)
    requires entry == TextEntry(TextOf(entry)) || IsColorEntry(entry)
    ensures WellFormed(output + [entry])
  {
  }

  /** A colour entry can never pass for a text entry, and a text entry
      carries its message. */
  lemma EntryKinds(entry: seq<string>)
    ensures IsColorEntry(entry) ==> !IsText(entry)
    ensures entry == TextEntry(TextOf(entry)) ==> IsText(entry)
  {
    if IsColorEntry(entry) && |entry| > 0 {
      assert entry[0][0] != TextTag[0];
    }
  }

  /** Resolved tokens always form a colour entry, so a colour call never
      pushes something `print` would read as text. */
  lemma AppliedTokensAreColorEntry(c: Color)
    requires Apply(c).Ok?
    ensures IsColorEntry(Apply(c).value) && !IsText(Apply(c).value)
  {
    EntryKinds(Apply(c).value);
  }

  // ---------------------------------------------------------------------
  // Channel selection
  // ---------------------------------------------------------------------

  /** The pair `colorize` resolves: the BG context swaps its arguments. */
  function StyledColor(style: StyleType, fg: Colors, bg: Colors): (c: Color)
    ensures style == BG ==> c == Color(bg, fg)
    ensures style != BG ==> c == Color(fg, bg)
  {
    match style
    case FG => Color(fg, bg)
    case BG => Color(bg, fg)
    case Both => Color(fg, bg)
  }

  function ChannelPrefix(style: StyleType): string
  {
    if style == BG then "4" else "3"
  }

  /** A single-colour call (`black` ... `white`, `hex`) yields one token on the
      channel of its context, or nothing for no colour. */
  lemma SingleChannelToken(style: StyleType, c: Colors)
    requires ParseColor(c).Ok?
    ensures Apply(StyledColor(style, c, None))
      == Ok(if c == None then [] else [ChannelPrefix(style) + ParseColor(c).value])
  {
    if style == BG && c != None {
      assert [] + ["4" + ParseColor(c).value] == ["4" + ParseColor(c).value];
    }
  }

  /** `.bg().custom(a, b)` puts `a` in the background and `b` in the foreground. */
  lemma BgCustomSwaps(a: Colors, b: Colors)
    requires Apply(StyledColor(BG, a, b)).Ok?
    ensures var tokens := Apply(StyledColor(BG, a, b)).value;
      (a != None ==> tokens[|tokens| - 1] == "4" + ParseColor(a).value)
      && (b != None ==> tokens[0] == "3" + ParseColor(b).value)
  {
  }

  // ---------------------------------------------------------------------
  // What `print` renders
  // ---------------------------------------------------------------------

  /** One committed unit: the tokens gathered since the previous text entry,
      then the message. */
  datatype Segment = Segment(params: seq<string>, text: string)

  /** The committed segments and the tokens gathered since the last text. */
  datatype BuilderState = BuilderState(segments: seq<Segment>, pending: seq<string>)

  /** The messages of the text entries, in order. */
  function Messages(output: seq<seq<string>>): seq<string>
  {
    if output == [] then []
    else
      var last := output[|output| - 1];
      Messages(output[..|output| - 1]) + (if IsText(last) then [TextOf(last)] else [])
  }

  /** All the tokens of a list of colour entries, in order. */
  function Flatten(entries: seq<seq<string>>): seq<string>
  {
    if entries == [] then [] else Flatten(entries[..|entries| - 1]) + entries[|entries| - 1]
  }

  /** The builder state after the given entries: a text entry commits the
      gathered tokens with its message and clears them; any other entry adds
      its tokens to the gathered ones. There is one segment per text entry. */
  function Transcript(output: seq<seq<string>>): BuilderState
  {
    if output == [] then BuilderState([], [])
    else
      var before := Transcript(output[..|output| - 1]);
      var entry := output[|output| - 1];
      if IsText(entry) then BuilderState(before.segments + [Segment(before.pending, TextOf(entry))], [])
      else BuilderState(before.segments, before.pending + entry)
  }

  /** How one more entry changes the builder state. */
  lemma TranscriptStep(done: seq<seq<string>>, entry: seq<string>)
    ensures Transcript(done + [entry])
      == if IsText(entry) then BuilderState(Transcript(done).segments + [Segment(Transcript(done).pending, TextOf(entry))], [])
         else BuilderState(Transcript(done).segments, Transcript(done).pending + entry)
  {
    assert (done + [entry])[..|done|] == done;
  }

  /** The same step, for the prefixes of one list. */
  lemma PrefixStep(output: seq<seq<string>>, i: nat)
    requires i < |output|
    ensures Transcript(output[..i + 1])
      == if IsText(output[i]) then BuilderState(Transcript(output[..i]).segments + [Segment(Transcript(output[..i]).pending, TextOf(output[i]))], [])
         else BuilderState(Transcript(output[..i]).segments, Transcript(output[..i]).pending + output[i])
  {
    assert output[..i + 1] == output[..i] + [output[i]];
    TranscriptStep(output[..i], output[i]);
  }

  lemma RenderSegmentsStep(segments: seq<Segment>, last: Segment)
    ensures RenderSegments(segments + [last]) == RenderSegments(segments) + Format(last.params) + last.text
  {
    assert (segments + [last])[..|segments|] == segments;
  }

  /** One segment per text entry, carrying that entry's message, in order. */
  lemma {:induction false} SegmentPerText(output: seq<seq<string>>)
    ensures |Transcript(output).segments| == |Messages(output)|
    ensures forall i :: 0 <= i < |Messages(output)| ==> Transcript(output).segments[i].text == Messages(output)[i]
  {
    if output != [] {
      SegmentPerText(output[..|output| - 1]);
    }
  }

  /** In a builder holding only what `text` and `colorize` push, every
      gathered token and every token of a committed escape is a colour
      token: `print` never puts a message or the text marker inside an
      escape sequence. */
  lemma {:induction false} WellFormedEscapes(output: seq<seq<string>>)
    requires WellFormed(output)
    ensures ColourTokens(Transcript(output).pending)
    ensures forall k :: 0 <= k < |Transcript(output).segments| ==> ColourTokens(Transcript(output).segments[k].params)
  {
    if output != [] {
      var n := |output| - 1;
      var entry := output[n];
      assert WellFormed(output[..n]) by {
        forall i | 0 <= i < n
          ensures output[..n][i] == TextEntry(TextOf(output[..n][i])) || IsColorEntry(output[..n][i])
        {
          assert output[..n][i] == output[i];
        }
      }
      WellFormedEscapes(output[..n]);
      assert output == output[..n] + [entry];
      TranscriptStep(output[..n], entry);
      if !IsText(entry) {
        EntryKinds(entry);
        assert IsColorEntry(entry);
      }
    }
  }

  /** Each segment as its escape followed by its message. */
  function RenderSegments(segments: seq<Segment>): string
  {
    if segments == [] then ""
    else
      var last := segments[|segments| - 1];
      RenderSegments(segments[..|segments| - 1]) + Format(last.params) + last.text
  }

  /** The string `print` returns: the committed segments, then the reset. */
  function Render(output: seq<seq<string>>): string
  {
    RenderSegments(Transcript(output).segments) + Reset()
  }

  /** An independent reading of `print`, entry by entry from the front,
      carrying the tokens gathered so far. */
  function Stream(entries: seq<seq<string>>, colors: seq<string>): string
  {
    if entries == [] then Reset()
    else if IsText(entries[0]) then Format(colors) + TextOf(entries[0]) + Stream(entries[1..], [])
    else Stream(entries[1..], colors + entries[0])
  }

  lemma {:induction false} StreamContinues(done: seq<seq<string>>, rest: seq<seq<string>>)
    ensures RenderSegments(Transcript(done).segments) + Stream(rest, Transcript(done).pending) == Render(done + rest)
    decreases |rest|
  {
    if rest == [] {
      assert done + rest == done;
    } else {
      var e := rest[0];
      var next := done + [e];
      StreamContinues(next, rest[1..]);
      assert next + rest[1..] == done + rest;
      TranscriptStep(done, e);
      var before := Transcript(done);
      if IsText(e) {
        RenderSegmentsStep(before.segments, Segment(before.pending, TextOf(e)));
        assert RenderSegments(Transcript(done).segments) + Stream(rest, Transcript(done).pending)
          == RenderSegments(before.segments) + (Format(before.pending) + TextOf(e) + Stream(rest[1..], []));
      }
    }
  }

  /** The segment view and the streaming view of `print` agree. */
  lemma RenderIsStream(output: seq<seq<string>>)
    ensures Render(output) == Stream(output, [])
  {
    StreamContinues([], output);
    assert [] + output == output;
  }

  /** Colour entries after the last text entry change nothing that is
      rendered: they are dropped. */
  lemma {:induction false} TrailingColoursDropped(output: seq<seq<string>>, tail: seq<seq<string>>)
    requires forall i :: 0 <= i < |tail| ==> !IsText(tail[i])
    ensures Transcript(output + tail).segments == Transcript(output).segments
    ensures Render(output + tail) == Render(output)
  {
    if tail == [] {
      assert output + tail == output;
    } else {
      var n := |tail| - 1;
      TrailingColoursDropped(output, tail[..n]);
      assert output + tail == (output + tail[..n]) + [tail[n]];
      TranscriptStep(output + tail[..n], tail[n]);
    }
  }

  /** After a text entry (or at the start) the gathered tokens are exactly
      those of the colour entries pushed since. */
  lemma {:induction false} PendingSinceLastText(output: seq<seq<string>>, tail: seq<seq<string>>)
    requires output == [] || IsText(output[|output| - 1])
    requires forall i :: 0 <= i < |tail| ==> !IsText(tail[i])
    ensures Transcript(output + tail).pending == Flatten(tail)
  {
    if tail == [] {
      assert output + tail == output;
      if output != [] {
        assert Transcript(output).pending == [];
      }
    } else {
      var n := |tail| - 1;
      PendingSinceLastText(output, tail[..n]);
      assert output + tail == (output + tail[..n]) + [tail[n]];
      TranscriptStep(output + tail[..n], tail[n]);
      assert tail[..n] == tail[..|tail| - 1];
    }
  }

  /** A text entry renders as the escape of the tokens gathered since the
      previous text entry, followed by its message. */
  lemma TextCommitsPending(output: seq<seq<string>>, message: string)
    ensures Render(output + [TextEntry(message)])
      == RenderSegments(Transcript(output).segments) + Format(Transcript(output).pending) + message + Reset()
  {
    var next := output + [TextEntry(message)];
    assert next[..|output|] == output;
    var segs := Transcript(output).segments + [Segment(Transcript(output).pending, message)];
    assert segs[..|segs| - 1] == Transcript(output).segments;
  }

  /** The whole rule in one: text after a run of colour calls renders as the
      escape of exactly those calls' tokens, then the message. */
  lemma SegmentTokensSincePreviousText(output: seq<seq<string>>, tail: seq<seq<string>>, message: string)
    requires output == [] || IsText(output[|output| - 1])
    requires forall i :: 0 <= i < |tail| ==> !IsText(tail[i])
    ensures Render(output + tail + [TextEntry(message)])
      == RenderSegments(Transcript(output).segments) + Format(Flatten(tail)) + message + Reset()
  {
    TextCommitsPending(output + tail, message);
    TrailingColoursDropped(output, tail);
    PendingSinceLastText(output, tail);
  }

  /** At the segment level: a text entry after a run of colour entries adds
      exactly one segment, holding those entries' tokens and the message. */
  lemma SegmentAfterRun(output: seq<seq<string>>, tail: seq<seq<string>>, message: string)
    requires output == [] || IsText(output[|output| - 1])
    requires forall i :: 0 <= i < |tail| ==> !IsText(tail[i])
    ensures Transcript(output + tail + [TextEntry(message)])
      == BuilderState(Transcript(output).segments + [Segment(Flatten(tail), message)], [])
  {
    TranscriptStep(output + tail, TextEntry(message));
    TrailingColoursDropped(output, tail);
    PendingSinceLastText(output, tail);
  }

  /** A builder with no text prints only the reset. */
  lemma EmptyRender(output: seq<seq<string>>)
    requires forall i :: 0 <= i < |output| ==> !IsText(output[i])
    ensures Render(output) == [ESC] + "[39;49m"
  {
    TrailingColoursDropped([], output);
    assert [] + output == output;
  }

  /** Text with no colour before it still gets the empty escape `ESC[m`. */
  lemma UncolouredTextRender(output: seq<seq<string>>, message: string)
    requires output == [] || IsText(output[|output| - 1])
    ensures Render(output + [TextEntry(message)])
      == RenderSegments(Transcript(output).segments) + [ESC, '[', 'm'] + message + Reset()
  {
    SegmentTokensSincePreviousText(output, [], message);
    assert output + [] == output;
  }

  // ---------------------------------------------------------------------
  // The builder
  // ---------------------------------------------------------------------

  class OutputFormatter {
    var output: seq<seq<string>>

    ghost predicate Valid()
      reads this
    {
      WellFormed(output)
    }

    /** `new`. */
    constructor ()
      ensures output == [] && Valid()
    {
      output := [];
    }

    /** The copy `colorize` returns. */
    constructor FromOutput(output: seq<seq<string>>)
      ensures this.output == output
      ensures WellFormed(output) ==> Valid()
    {
      this.output := output;
    }

    /** `fg`: a foreground context over this builder. */
    method Fg() returns (c: OutputColor)
      ensures fresh(c) && c.formatter == this && c.forStyle == FG
    {
      c := new OutputColor(this, FG);
    }

    /** `bg`: a background context over this builder. */
    method Bg() returns (c: OutputColor)
      ensures fresh(c) && c.formatter == this && c.forStyle == BG
    {
      c := new OutputColor(this, BG);
    }

    /** `custom`: both channels at once, in the Both context. */
    method Custom(fg: Colors, bg: Colors) returns (r: Result<OutputFormatter>)
      requires Valid()
      modifies this
      ensures Valid()
      ensures match Apply(Color(fg, bg))
        case Ok(tokens) =>
          output == old(output) + [tokens] && r.Ok? && fresh(r.value) && r.value.output == output
        case Err(e) => output == old(output) && r == Err(e)
    {
      var custom := new OutputColor(this, Both);
      r := custom.Custom(fg, bg);
    }

    /** `text`: commits the gathered colour tokens with the message. */
    method Text(message: string) returns (f: OutputFormatter)
      requires Valid()
      modifies this
      ensures f == this && Valid()
      ensures output == old(output) + [TextEntry(message)]
      ensures Transcript(output)
        == BuilderState(Transcript(old(output)).segments + [Segment(Transcript(old(output)).pending, message)], [])
    {
      WellFormedAppend(output, TextEntry(message));
      TranscriptStep(output, TextEntry(message));
      output := output + [[TextTag, message]];
      f := this;
    }

    /** `text_str`: the same as `text`. */
    method TextStr(message: string) returns (f: OutputFormatter)
      requires Valid()
      modifies this
      ensures f == this && Valid()
      ensures output == old(output) + [TextEntry(message)]
      ensures Transcript(output)
        == BuilderState(Transcript(old(output)).segments + [Segment(Transcript(old(output)).pending, message)], [])
    {
      f := Text(message);
    }

    /** `print`: renders the entries without changing them. */
    method Print() returns (s: string)
      ensures s == Render(output)
    {
      var message: seq<string> := [];
      var colors: seq<string> := [];
      var useFormatter := false;
      var text := "";
      var i := 0;
      while i < |output|
        invariant 0 <= i <= |output|
        invariant Concat(message) == RenderSegments(Transcript(output[..i]).segments)
        invariant colors == Transcript(output[..i]).pending
        invariant !useFormatter
      {
        var v := output[i];
        PrefixStep(output, i);
        if |v| > 0 && v[0] == TextTag {
          useFormatter := true;
          text := if |v| > 1 then v[1] else "";
        }
        if useFormatter {
          RenderSegmentsStep(Transcript(output[..i]).segments, Segment(colors, text));
          ConcatPair(message, Format(colors), text);
          message := message + [Format(colors)];
          message := message + [text];
          text := "";
          colors := [];
          useFormatter := false;
        } else {
          var j := 0;
          ghost var before := colors;
          while j < |v|
            invariant 0 <= j <= |v|
            invariant colors == before + v[..j]
          {
            colors := colors + [v[j]];
            j := j + 1;
          }
          assert v[..|v|] == v;
        }
        i := i + 1;
      }
      assert output[..|output|] == output;
      var clr := Color(None, None);
      ConcatOne(message, Format(Unapply(clr)));
      message := message + [Format(Unapply(clr))];
      s := Concat(message);
    }
  }

  /** A colour context over a builder: the channel the next call sets. */
  class OutputColor {
    const formatter: OutputFormatter
    const forStyle: StyleType

    constructor (formatter: OutputFormatter, forStyle: StyleType)
      ensures this.formatter == formatter && this.forStyle == forStyle
    {
      this.formatter := formatter;
      this.forStyle := forStyle;
    }

    /** `colorize`: resolves the pair for this context, pushes its tokens
        (possibly none) as one entry and returns a copy of the builder. A
        malformed hex colour is reported and pushes nothing. */
    method Colorize(fg: Colors, bg: Colors) returns (r: Result<OutputFormatter>)
      requires formatter.Valid()
      modifies formatter
      ensures formatter.Valid()
      ensures match Apply(StyledColor(forStyle, fg, bg))
        case Ok(tokens) =>
          && formatter.output == old(formatter.output) + [tokens]
          && Transcript(formatter.output)
             == BuilderState(Transcript(old(formatter.output)).segments, Transcript(old(formatter.output)).pending + tokens)
          && r.Ok? && fresh(r.value) && r.value.output == formatter.output
        case Err(e) => formatter.output == old(formatter.output) && r == Err(e)
    {
      var color := match forStyle
        case FG => Apply(Color(fg, bg))
        case BG => Apply(Color(bg, fg))
        case Both => Apply(Color(fg, bg));
      if color.Err? {
        return Err(color.error);
      }
      var tokens := color.value;
      AppliedTokensAreColorEntry(StyledColor(forStyle, fg, bg));
      WellFormedAppend(formatter.output, tokens);
      TranscriptStep(formatter.output, tokens);
      formatter.output := formatter.output + [tokens];
      var copy := new OutputFormatter.FromOutput(formatter.output);
      return Ok(copy);
    }

    /** `custom` on a context: both colours, swapped in the BG context. */
    method Custom(fg: Colors, bg: Colors) returns (r: Result<OutputFormatter>)
      requires formatter.Valid()
      modifies formatter
      ensures formatter.Valid()
      ensures match Apply(StyledColor(forStyle, fg, bg))
        case Ok(tokens) =>
          formatter.output == old(formatter.output) + [tokens] && r.Ok? && fresh(r.value) && r.value.output == formatter.output
        case Err(e) => formatter.output == old(formatter.output) && r == Err(e)
    {
      r := Colorize(fg, bg);
    }

    /** `hex`: a hex colour on this context's channel. */
    method Hex(color: string) returns (r: Result<OutputFormatter>)
      requires formatter.Valid()
      modifies formatter
      ensures formatter.Valid()
      ensures match HexValue(color)
        case Ok(v) =>
          formatter.output == old(formatter.output) + [[ChannelPrefix(forStyle) + ConvertHexToAnsi(v)]]
          && r.Ok? && fresh(r.value) && r.value.output == formatter.output
        case Err(e) => formatter.output == old(formatter.output) && r == Err(e)
    {
      if HexValue(color).Ok? {
        SingleChannelToken(forStyle, Colors.Hex(color));
        ParseHexColor(color, HexValue(color).value);
      }
      r := Colorize(Colors.Hex(color), None);
    }

    /** The eight palette calls below: one token on this context's channel. */
    method Named(c: Colors) returns (f: OutputFormatter)
      requires formatter.Valid() && !c.Hex? && c != None
      modifies formatter
      ensures formatter.Valid() && fresh(f) && f.output == formatter.output
      ensures formatter.output == old(formatter.output) + [[ChannelPrefix(forStyle) + ParseColor(c).value]]
    {
      SingleChannelToken(forStyle, c);
      var r := Colorize(c, None);
      f := r.value;
    }

    method Black() returns (f: OutputFormatter)
      requires formatter.Valid()
      modifies formatter
      ensures formatter.Valid() && fresh(f) && f.output == formatter.output
      ensures formatter.output == old(formatter.output) + [[ChannelPrefix(forStyle) + "0"]]
    {
      f := Named(Colors.Black);
    }

    method Red() returns (f: OutputFormatter)
      requires formatter.Valid()
      modifies formatter
      ensures formatter.Valid() && fresh(f) && f.output == formatter.output
      ensures formatter.output == old(formatter.output) + [[ChannelPrefix(forStyle) + "1"]]
    {
      f := Named(Colors.Red);
    }

    method Green() returns (f: OutputFormatter)
      requires formatter.Valid()
      modifies formatter
      ensures formatter.Valid() && fresh(f) && f.output == formatter.output
      ensures formatter.output == old(formatter.output) + [[ChannelPrefix(forStyle) + "2"]]
    {
      f := Named(Colors.Green);
    }

    method Yellow() returns (f: OutputFormatter)
      requires formatter.Valid()
      modifies formatter
      ensures formatter.Valid() && fresh(f) && f.output == formatter.output
      ensures formatter.output == old(formatter.output) + [[ChannelPrefix(forStyle) + "3"]]
    {
      f := Named(Colors.Yellow);
    }

    method Blue() returns (f: OutputFormatter)
      requires formatter.Valid()
      modifies formatter
      ensures formatter.Valid() && fresh(f) && f.output == formatter.output
      ensures formatter.output == old(formatter.output) + [[ChannelPrefix(forStyle) + "4"]]
    {
      f := Named(Colors.Blue);
    }

    method Magenta() returns (f: OutputFormatter)
      requires formatter.Valid()
      modifies formatter
      ensures formatter.Valid() && fresh(f) && f.output == formatter.output
      ensures formatter.output == old(formatter.output) + [[ChannelPrefix(forStyle) + "5"]]
    {
      f := Named(Colors.Magenta);
    }

    method Cyan() returns (f: OutputFormatter)
      requires formatter.Valid()
      modifies formatter
      ensures formatter.Valid() && fresh(f) && f.output == formatter.output
      ensures formatter.output == old(formatter.output) + [[ChannelPrefix(forStyle) + "6"]]
    {
      f := Named(Colors.Cyan);
    }

    method White() returns (f: OutputFormatter)
      requires formatter.Valid()
      modifies formatter
      ensures formatter.Valid() && fresh(f) && f.output == formatter.output
      ensures formatter.output == old(formatter.output) + [[ChannelPrefix(forStyle) + "7"]]
    {
      f := Named(Colors.White);
    }
  }
}
