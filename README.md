# terminal_color_builder in Dafny

A model of the Rust crate `terminal_color_builder`. The crate builds ANSI
SGR escape sequences, the `ESC [ p1 ; p2 ; … m` control sequence of ECMA-48
section 8.3.117, for coloured terminal text. It has two parts.

- **Colour resolution** (`src/color.rs`, module `Color`).
  - A `Color` pairs a foreground with a background, each one of the closed set `Colors`: eight palette colours, `Default`, `None`, or a CSS-style hex string.
  - `ParseColor` gives one channel's SGR suffix.
  - `Apply` gives the pair's tokens: `3x` for the foreground, then `4x` for the background.
  - `Format` wraps the tokens in `ESC [ … m`.
  - `Print` surrounds a message with the pair's escape and the reset `ESC[39;49m`.
  - Hex strings are read by `StringToHexdec`. It uses the four loops of the source, and the function `HexValue` specifies it.
  - `ConvertHexToAnsi` renders the 24-bit value as the extended-colour parameters `8;2;R;G;B` of ITU-T T.416.
- **The segment builder** (`src/lib.rs`, module `TerminalColorBuilder`).
  - `OutputFormatter` is a class whose `output` field holds the list of entries.
  - Each entry is either the tokens of one colour call, or `["#text#", message]` for a text call.
  - `OutputColor` is a colour context (FG, BG or Both) over a builder. Its colour calls append an entry through `Colorize`.
  - `Print` is the source's loop. It is proved equal to `Render`, a recursive specification.
  - `Render` works like this: each text entry commits the colour tokens gathered since the previous text entry, as `Format(tokens) + message`, and the reset closes the output.
- Module `Strings` holds the string operations the crate borrows from Rust's standard library.
  - `Join` stands for `[String]::join`; `Split` undoes it for one or more tokens that do not contain the separator (`Strings.SplitJoin`).
  - `NatToDecimal` stands for `format!("{}", n)`; `DecimalValue` is its inverse.
  - `Concat` stands for `join("")`.
- Module `BuilderTests` restates the builder tests of `src/lib.rs` as methods. Each drives the classes call by call and states the exact string `print` returns.

Two behaviours of the code differ from what a CSS reader would expect, and the model follows the code in both.

- **Digit weighting.** `string_to_hexdec` weights the digit at index `i` by `16^i`, so the first digit is the least significant.
  - The first two digits (low digit first) form the blue byte and the last two form the red byte.
  - So `"#f00"` resolves to `8;2;0;0;255`, which is blue (`Color.ShortRedExample`). The crate's own description reads hex colours the usual big-endian way.
  - Only `"#fff"` appears in the tests, and every reading of it gives white.
- **Stray characters.** Only `'#'` characters are removed from a hex string, wherever they stand. Any other character is not skipped: it counts toward the length, and when the length is 3 or 6 it fails with `InvalidHexDigit`.

The two `panic!`s of `string_to_hexdec` become the error values `InvalidHexLength` and `InvalidHexDigit` of a `Result`. They are passed on through `ParseColor`, `Apply`, `Set` and `Print`. A builder colour call that meets one returns the error and leaves `output` unchanged.

## Model

| member | source | states |
|---|---|---|
| Strings.NatToDecimal | src/color.rs:151 | the `{}` rendering of a number is a non-empty string of decimal digits with no leading zero, and it is a single digit exactly when the number is below 10 |
| Strings.DecimalRoundTrip | src/color.rs:151 | reading the decimal rendering back gives the number, so the rendering loses nothing |
| Strings.ByteDecimalLength | src/color.rs:148-151 | a channel value up to 255 renders in at most three digits |
| Strings.SplitJoin | src/color.rs:81 | splitting a `join(";")` at `;` gives back the tokens, provided there is at least one token and none contains the separator |
| Strings.JoinFive | src/color.rs:81 | joining five tokens puts the separator between each neighbouring pair and nowhere else |
| Color.Format | src/color.rs:80-82 | the escape is at least `ESC [ m` long, and it is exactly `ESC[m` for an empty token list |
| Color.FormatRoundTrip | src/color.rs:80-82 | the escape starts with `ESC [` and ends with `m`, and, provided there is at least one token and none contains `;`, the parameters between them split back into exactly the tokens (palette tokens never contain `;`; a hex token always does, so its five fields come back instead) |
| Color.Unset | src/color.rs:60-77 | `unset` is the reset `ESC[39;49m` whatever the pair |
| Color.ParseColor | src/color.rs:84-98 | total except for a bad hex string, which fails with that string's error. The value is empty exactly for `None`. A palette colour or `Default` gives one decimal digit. A hex colour gives a token starting `8;2;` of at least nine characters |
| Color.Apply | src/color.rs:45-56 | fails exactly when a channel fails, with the foreground's error first. One token per channel that is not `None`, with no empty token. The foreground token comes first with prefix `3`, the background token last with prefix `4`, and every token has at least two characters |
| Color.Set | src/color.rs:67-71 | succeeds exactly when `Apply` does, and with no colour on either channel gives `ESC[m` |
| Color.Print | src/color.rs:38-41 | succeeds exactly when `Apply` does, and the result is the pair's escape, then the message, then the reset |
| Color.PalettePairPrint | src/color.rs:38-56 | two palette colours print as `ESC[3f;4bm`, then the message, then the reset, with the fixed digit of each colour |
| Color.CreateColorExample | src/lib.rs:232-235 | Green on White prints `ESC[32;47mhello ESC[39;49m` |
| Color.CreateOnlyBgColorExample | src/lib.rs:238-241 | no foreground on White prints `ESC[47mhello ESC[39;49m` |
| Color.CreateOnlyFgColorExample | src/lib.rs:244-247 | Black on no background prints `ESC[30mhello ESC[39;49m` |
| Color.Stripped | src/color.rs:101-102 | no `'#'` is left, the characters left are exactly those of the input other than `'#'`, and a string without `'#'` is kept whole |
| Color.StrippedAppend | src/color.rs:101-102 | stripping a concatenation strips each part in place, so the kept characters keep their order |
| Color.StrippedCons | src/color.rs:101-102 | reading from the front, a `'#'` is dropped and any other character is kept |
| Color.StrippedLength | src/color.rs:101-105 | the length the `match` at line 105 sees is the input's length less its number of `'#'`s |
| Color.Doubled | src/color.rs:106-110 | the expansion is twice as long and holds each digit twice in place |
| Color.DigitValues | src/color.rs:114-137 | succeeds exactly when every character is a hex digit of either case, and then gives each digit's value in order; otherwise it fails with `InvalidHexDigit` |
| Color.StringToHexdec | src/color.rs:100-144 | the four loops of `string_to_hexdec` compute exactly `HexValue` |
| Color.RetainNonHash | src/color.rs:101-102 | the `retain` loop computes `Stripped` |
| Color.DoubleEach | src/color.rs:106-110 | the doubling loop computes `Doubled` |
| Color.ReadDigits | src/color.rs:114-137 | the digit loop computes `DigitValues`, stopping at the first character that is not a hex digit |
| Color.SumWeighted | src/color.rs:138-143 | the indexed fold computes `WeightedSum`, the digit at index i weighted by 16^i |
| Color.WeightedSumFirst | src/color.rs:140-142 | the fold reads the first digit as the least significant: the value is the first digit plus 16 times the value of the rest |
| Color.WeightedSumBound | src/color.rs:140-142 | k digits below 16 sum to less than 16^k |
| Color.HexValueBelow2To24 | src/color.rs:100-143 | every parsed hex colour is below 2^24, so the `u32` never overflows |
| Color.HexValueFailure | src/color.rs:105-137 | it fails with `InvalidHexLength` exactly when the input without `'#'` has a length other than 3 or 6. Otherwise it fails with `InvalidHexDigit` exactly when one of those characters is not a hex digit |
| Color.HexValueSuccess | src/color.rs:105-143 | it succeeds exactly when the input without `'#'` has 3 or 6 characters and all of them are hex digits |
| Color.HexValueIgnoresHashes | src/color.rs:101-102 | every `'#'`, wherever it stands, can be deleted without changing the result |
| Color.ShortFormExpands | src/color.rs:105-111 | a three-digit colour has the value of its six-digit expansion |
| Color.ShorthandExample | src/color.rs:106-110 | `"abc"` and `"aabbcc"` give the same result |
| Color.InvalidLengthExample | src/color.rs:112 | `"12345"` fails with `InvalidHexLength` |
| Color.InvalidDigitExample | src/color.rs:134 | `"12g"` passes the length check and fails with `InvalidHexDigit` |
| Color.RedOf | src/color.rs:148 | `(v >> 16) & 255` is at most 255 |
| Color.GreenOf | src/color.rs:149 | `(v >> 8) & 255` is at most 255 |
| Color.BlueOf | src/color.rs:150 | `v & 255` is at most 255 |
| Color.BytesOfSum | src/color.rs:148-150 | the three channels of a value built from three bytes are those bytes |
| Color.ChannelsRecombine | src/color.rs:148-150 | for a 24-bit value the three channels rebuild the value, so no bit is lost |
| Color.ConvertHexToAnsi | src/color.rs:146-152 | the token starts with `8;2;` and is between 9 and 15 characters long |
| Color.HexTokenFields | src/color.rs:151 | the token is `8`, `2` and the decimal red, green and blue channels, joined by `;` |
| Color.HexTokenRoundTrip | src/color.rs:146-152 | the token splits into five fields, `8`, `2`, then three decimals that read back as red, green and blue, and they rebuild the value for a value below 2^24 (every parsed colour, by `Color.HexValueBelow2To24`) |
| Color.HexChannels | src/color.rs:138-152 | with the source's weighting the expanded digits e0 e1 give blue = e0 + 16·e1, e2 e3 give green, and e4 e5 give red |
| Color.WeightedSumSix | src/color.rs:138-143 | six digits are read as three bytes, each pair low digit first, the first pair lowest |
| Color.ShortHexChannels | src/color.rs:100-150 | any `"#xyz"` of hex digits parses, with blue 17·x, green 17·y and red 17·z |
| Color.ShortFormChannels | src/color.rs:104-152 | for a three-digit colour each channel is 17 times one digit, the first digit giving blue and the last giving red |
| Color.StripLeadingHash | src/color.rs:101-102 | a leading `'#'` before `'#'`-free text is dropped |
| Color.ParseHexColor | src/color.rs:95 | a hex colour that parses resolves to the token of its value |
| Color.WhiteShorthandChannels | src/color.rs:100-150 | `"#fff"` parses, and all three channels are 255 |
| Color.WhiteShorthandExpands | src/color.rs:101-111 | `"#fff"` has the value of `"ffffff"` |
| Color.WhiteShorthandExample | src/color.rs:95 | `"#fff"` resolves to `8;2;255;255;255` |
| Color.ShortRedChannels | src/color.rs:100-150 | `"#f00"` parses to red 0, green 0, blue 255 |
| Color.ShortRedExample | src/color.rs:95-152 | `"#f00"` resolves to `8;2;0;0;255`, which is blue |
| TerminalColorBuilder.WellFormedAppend | src/lib.rs:117 | appending a text entry (or, at line 220, a colour entry) keeps every entry one of the two kinds |
| TerminalColorBuilder.WellFormedEscapes | src/lib.rs:133-148 | in a builder whose entries are of those two kinds (the class invariant `OutputFormatter.Valid`), every gathered token and every token inside a committed escape is a `3x`/`4x` colour token, never a message or the text marker |
| TerminalColorBuilder.EntryKinds | src/lib.rs:134 | a colour entry can never be read as a text entry, and a text entry always is one |
| TerminalColorBuilder.AppliedTokensAreColorEntry | src/lib.rs:214-220 | the tokens `colorize` pushes form a colour entry: at most two tokens, each starting with `3` or `4`, and never the `#text#` marker |
| TerminalColorBuilder.SingleChannelToken | src/lib.rs:159-219 | a single-colour call pushes one token on the context's channel, `3…` under FG and `4…` under BG, or no token for `None` |
| TerminalColorBuilder.BgCustomSwaps | src/lib.rs:210-218 | `.bg().custom(a, b)` puts `a` in the background token and `b` in the foreground token |
| TerminalColorBuilder.SegmentPerText | src/lib.rs:133-148 | there is exactly one segment per text entry, carrying that entry's message, in order |
| TerminalColorBuilder.StreamContinues | src/lib.rs:133-152 | rendering the entries done so far, then the rest from the front with the gathered tokens, gives the rendering of the whole list |
| TerminalColorBuilder.RenderIsStream | src/lib.rs:127-153 | the segment-by-segment specification agrees with an independent front-to-back reading of the loop |
| TerminalColorBuilder.TrailingColoursDropped | src/lib.rs:138-148 | colour entries after the last text entry change neither the segments nor the printed string |
| TerminalColorBuilder.PendingSinceLastText | src/lib.rs:141-147 | after a text entry the gathered tokens are exactly the tokens of the colour entries pushed since, in order |
| TerminalColorBuilder.TextCommitsPending | src/lib.rs:134-142 | a text entry prints as the escape of the tokens gathered before it, then its message |
| TerminalColorBuilder.SegmentTokensSincePreviousText | src/lib.rs:127-153 | a text after a run of colour calls prints as the escape of exactly those calls' tokens, then the message, then the reset |
| TerminalColorBuilder.SegmentAfterRun | src/lib.rs:133-148 | a text after a run of colour calls adds exactly one segment, made of those calls' tokens and the message, and clears the gathered tokens |
| TerminalColorBuilder.EmptyRender | src/lib.rs:150-152 | a builder with no text prints only `ESC[39;49m` |
| TerminalColorBuilder.UncolouredTextRender | src/lib.rs:134-142 | text with no colour before it still gets the empty escape `ESC[m` |
| TerminalColorBuilder.OutputFormatter.constructor | src/lib.rs:75-79 | a new builder has no entries |
| TerminalColorBuilder.OutputFormatter.Fg | src/lib.rs:83-88 | `fg` gives a foreground context over this builder |
| TerminalColorBuilder.OutputFormatter.Bg | src/lib.rs:92-97 | `bg` gives a background context over this builder |
| TerminalColorBuilder.OutputFormatter.Custom | src/lib.rs:107-113 | appends exactly the `Apply` tokens of the pair, unswapped, and returns a fresh copy; a hex error returns the error and leaves the entries unchanged |
| TerminalColorBuilder.OutputFormatter.Text | src/lib.rs:116-119 | appends exactly `["#text#", message]`, keeps the earlier entries, and commits the gathered tokens with the message as a new segment |
| TerminalColorBuilder.OutputFormatter.TextStr | src/lib.rs:122-124 | the same as `Text` |
| TerminalColorBuilder.OutputFormatter.Print | src/lib.rs:127-153 | the loop returns `Render(output)`. It may change nothing, so two calls give the same string |
| TerminalColorBuilder.OutputColor.Colorize | src/lib.rs:214-224 | appends exactly one entry, the `Apply` tokens of the pair as the context arranges it (possibly none), and returns a fresh copy of the entries. It keeps the builder well formed and adds the tokens to the gathered ones. A hex error returns the error and changes nothing |
| TerminalColorBuilder.OutputColor.Custom | src/lib.rs:210-212 | the same as `Colorize` with both colours |
| TerminalColorBuilder.OutputColor.Hex | src/lib.rs:205-207 | appends the one token `3`/`4` + `8;2;R;G;B` of the parsed value on the context's channel, or returns the parse error and changes nothing |
| TerminalColorBuilder.OutputColor.Black | src/lib.rs:159-161 | appends the one token `30` (FG) or `40` (BG) |
| TerminalColorBuilder.OutputColor.Red | src/lib.rs:164-166 | appends the one token `31` or `41` |
| TerminalColorBuilder.OutputColor.Green | src/lib.rs:169-171 | appends the one token `32` or `42` |
| TerminalColorBuilder.OutputColor.Yellow | src/lib.rs:174-176 | appends the one token `33` or `43` |
| TerminalColorBuilder.OutputColor.Blue | src/lib.rs:179-181 | appends the one token `34` or `44` |
| TerminalColorBuilder.OutputColor.Magenta | src/lib.rs:184-186 | appends the one token `35` or `45` |
| TerminalColorBuilder.OutputColor.Cyan | src/lib.rs:189-191 | appends the one token `36` or `46` |
| TerminalColorBuilder.OutputColor.White | src/lib.rs:194-196 | appends the one token `37` or `47` |
| BuilderTests.GreenBgWhiteFg | src/lib.rs:250-253 | `new().fg().white().bg().green().text("Hi").print()` is `ESC[37;42mHi ESC[39;49m` |
| BuilderTests.GreenBgWhiteFgCustom | src/lib.rs:256-259 | `new().custom(White, Green).text("Hi").print()` is the same string |
| BuilderTests.CustomCombination | src/lib.rs:262-271 | the hex and black calls after the last text are dropped: `ESC[49mH ESC[39;49m` |
| BuilderTests.Rainbow | src/lib.rs:275-308 | white hex foreground on six palette backgrounds, one letter each, prints the six escapes and letters of the test, then the reset |
| BuilderTests.PairRender | src/lib.rs:127-153 | on a new builder, a foreground token, a background token and a text print as one escape with both tokens, the text, then the reset |
| BuilderTests.BlocksRender | src/lib.rs:127-153 | the segments of a run of white-on-colour letter blocks render as the concatenation of their escapes and letters; the reset `print` appends is not part of it |

## Left out

- Rust's ownership moves are not modelled. Every chained call consumes `self`; in the model the builder is one mutable object. `colorize` clones the entries into a new `OutputFormatter`, which the model gives as a fresh object with a copy of the entries.
- The `Box` allocation in `convert_hex_to_ansi` is not modelled. It does not affect the result.
- `split("")` and `to_uppercase` work on Unicode text. The model takes the input as a sequence of characters and accepts ASCII hex digits of either case.
- Panics are not modelled as process aborts. They are the error values of `Result`, and a failing builder call returns its error instead of aborting.
- `u32` arithmetic is unbounded `nat` in the model. `Color.HexValueBelow2To24` shows every parsed value stays below 2^24, so nothing wraps.
- `#[derive(Debug)]`, the `println!` doc examples and the `#[test]` runner are not modelled. The in-repo tests are restated as lemmas (module `Color`) and methods (module `BuilderTests`).
- `Color::new` and the struct literals for `OutputColor` are the datatype constructor `Color` and the `OutputColor` constructor, which need no contract of their own.
