# Cest, modelled in Dafny

Cest is a small header-only unit-test runtime for C++. A test is a name plus a
body. Inside the body, `expect(value)` wraps a value with the file and line of
the call. The matchers `toBe(expected)` and `toPass(predicate)` on that wrapper
either return or throw a `TestFailure` record. `testImpl` runs the body inside a
`try` block followed by three `catch` clauses. It writes a coloured banner and any detail lines to
standard output or standard error:

- a pass banner when the body completed;
- a fail banner, the assertion's location and the expected and actual texts when
  a matcher failed;
- a banner plus a description line when the body threw a standard exception or
  anything else.

The colours are ANSI SGR control sequences, section 8.3.117 of ECMA-48. The
bright colours 90–97 and 100–107 are the aixterm extension. The `38;5;n` and
`48;5;n` forms are the xterm 256-colour extension.

Two versions of the engine are modelled side by side:

- `src/v1.hpp`, the earlier one, writes its banners inline;
- `src/cest.hpp`, the current one, takes its banners from `src/message.hpp`, and
  those banners also carry the test's duration.

Modules:

- `Text`: decimal rendering of integers as `operator<<(int)` writes them, and the
  parsers used to read reports back.
- `Colorize`:
  - the code tables of `src/colorize.hpp`;
  - its five renderers;
  - a reference form of SGR sequences (`Sgr`, with parser `ParseSgr`) that every
    renderer is proved to produce.
- `Message`: the pass and fail banners of `src/message.hpp`, with a parser
  `ParseBanner` that reads a banner back.
- `Exceptions`: C++ throwing as values.
  - A matcher call yields a `Completion`.
  - A test body is a sequence of `Step`s.
  - `Run` gives the `Outcome` that the catch clauses sort a body into.
- `Streams`: a `Console` class whose `out` and `err` fields are the lines written
  to `std::cout` and `std::cerr`. Each element is the text streamed before one
  `std::endl`.
- `CestV1` and `Cest`: the two engines. Each has:
  - the matchers;
  - a `Report` function that lists the lines a call writes;
  - a `TestImpl` method that writes those lines to a `Console`, with one method
    per catch clause writing that clause's lines one line at a time.
- `Versions`: how the two engines compare.

## Model

| member | source | states |
|---|---|---|
| Cest.ToBe | src/cest.hpp:27-34 | returns normally iff the wrapped value equals the expected one; otherwise throws a `TestFailure` with the wrapper's file and line, the expected rendering present and the actual rendering |
| Cest.ToPass | src/cest.hpp:36-42 | returns normally iff the predicate holds of the value; otherwise throws a `TestFailure` with the wrapper's file and line, no expected text and the actual rendering |
| Cest.FailureAtCallSite | src/cest.hpp:27-51 | `expectImpl` keeps value, file and line unchanged, and every failure either matcher throws carries exactly that file and line |
| Cest.ExpectImpl | src/cest.hpp:49-51 | the wrapper holds the value, file and line as given; `Cest.FailureAtCallSite` proves the matchers report that file and line |
| Cest.FailedAtLine | src/cest.hpp:62 | "Test failed at ", grey, the assertion's file ":" line, reset; `Cest.ParseFailedAtRoundTrip` reads it back and `Cest.FailedAtLineNotBanner` proves it is no banner |
| Cest.ExpectedLine | src/cest.hpp:64 | cyan, tab "Expected: " newline, two tabs, the expected text, reset; `Cest.FailureReport` proves it is written exactly when the record has an expected text |
| Cest.GotLine | src/cest.hpp:66 | red, tab "Got: " newline, two tabs, the actual text, reset; `Cest.FailureReport` proves it is the last line of a failure report |
| Cest.StdExceptionLine | src/cest.hpp:69 | tab "Test threw STL exception: ", bright red, the description, reset; `Cest.FaultReport` reads the description back |
| Cest.Report | src/cest.hpp:57-73 | the lines each outcome writes, as written: the pass banner on standard output for a completed body; on standard error the fail banner and the failure's details, the pass banner and the description for a standard exception, the fail banner and the fixed line otherwise; `Cest.ExactlyOneBanner` and `Cest.BannerVerdict` state its properties |
| Cest.CorrectedReport | src/cest.hpp:67-69 | the same lines with the fail banner for a standard exception; `Cest.CorrectedBannerVerdict` proves its banner passes iff the body completed |
| Cest.TestImpl | src/cest.hpp:53-74 | the new standard output and standard error are the old ones followed by the report's lines for the outcome of running the body; nothing else changes |
| Cest.WriteFailureReport | src/cest.hpp:60-66 | the `TestFailure` clause appends to standard error exactly the lines of that outcome's report and leaves standard output unchanged |
| Cest.WriteStdExceptionReport | src/cest.hpp:67-69 | the `std::exception` clause appends exactly that outcome's report lines to standard error, standard output unchanged |
| Cest.WriteUnknownExceptionReport | src/cest.hpp:70-72 | the catch-all appends exactly that outcome's report lines to standard error, standard output unchanged |
| Cest.FailureDetailsNotBanners | src/cest.hpp:62-66 | none of the lines after a failure's banner can be read as a banner |
| Cest.ExactlyOneBanner | src/cest.hpp:57-73 | for every outcome the report holds exactly one banner, and it is the first line; standard output gets a line iff the body completed, and then it gets exactly the pass banner and standard error gets nothing |
| Cest.BannerVerdict | src/cest.hpp:57-73 | as written, the banner starts with the pass head iff the body completed or threw a standard exception |
| Cest.StdExceptionGetsPassBanner | src/cest.hpp:67-69 | a standard exception writes nothing to standard output and writes the pass banner, with the pass head, as the first line on standard error |
| Cest.CorrectedBannerVerdict | src/cest.hpp:57-73 | with the standard-exception branch given the fail banner, the banner starts with the pass head iff the body completed; every other outcome's report is unchanged |
| Cest.BannerCarriesTest | src/cest.hpp:57-73 | whatever the outcome, the banner parses back to the test's own name, file, line and duration (name and file free of ESC) |
| Cest.ParseFailedAtRoundTrip | src/cest.hpp:62 | the "Test failed at" line reads back to the assertion's file and line |
| Cest.FailureReport | src/cest.hpp:60-66 | a failure writes only to standard error: the fail banner with the test's location; then the assertion's location; then the expected text exactly when the record has one; then the actual text last; 4 lines or 3 |
| Cest.FaultReport | src/cest.hpp:67-72 | a standard exception gives 2 lines, the second holding its description between the fixed head and the reset; any other throw gives the fail banner and the fixed "unknown exception" line |
| Cest.ExampleAssertions | examples/v1.test.cpp:3-25 | `expect(3).toBe(3)` and `expect(2).toPass(isEven)` return; `expect(2).toBe(4)` throws expected "4" and got "2"; `expect(3).toPass(isEven)` throws got "3" with no expected text |
| Cest.IsEven | examples/v1.test.cpp:3-5 | the example's predicate: `a % 2 == 0`, used by `Cest.ExampleAssertions` |
| Cest.ExampleShouldFail | examples/v1.test.cpp:11-13 | the "should fail" test writes the fail banner, the assertion's location, "4" as expected and "2" as got, all on standard error |
| Cest.ExampleShouldThrow | examples/v1.test.cpp:14-16 | the "should throw" test writes the pass banner and the standard-exception line to standard error |
| CestV1.ToBe | src/v1.hpp:26-33 | returns normally iff the values are equal; otherwise throws both renderings with the wrapper's file and line |
| CestV1.ToPass | src/v1.hpp:35-41 | returns normally iff the predicate holds; otherwise throws only the actual rendering |
| CestV1.FailureAtCallSite | src/v1.hpp:26-46 | `expectImpl` stores value, file and line unchanged, and the failures carry that file and line |
| CestV1.ExpectImpl | src/v1.hpp:44-46 | the wrapper holds the value, file and line as given; `CestV1.FailureAtCallSite` proves the matchers report that file and line |
| CestV1.PassLine | src/v1.hpp:52-53 | bright green check, reset, space, name, space, grey file ":" line, reset; `CestV1.ParseLineRoundTrip` reads it back |
| CestV1.FailLine | src/v1.hpp:55-56 | bright red cross, reset, space, name, space, grey file ":" line, reset; `CestV1.ParseLineRoundTrip` reads it back |
| CestV1.Report | src/v1.hpp:50-69 | the lines each outcome writes: the pass line on standard output for a completed body; on standard error the fail line followed by the failure's details, the description, or the fixed line; `CestV1.ExactlyOneBanner` and `CestV1.BannerVerdict` state its properties |
| CestV1.BannerLineParts | src/v1.hpp:52-56 | each inline banner is its head (glyph colour, glyph, reset, space) followed by the same body: name, space, grey file ":" decimal line, reset |
| CestV1.ParseLineRoundTrip | src/v1.hpp:52-56 | an inline banner parses back to its verdict and to the name, file and line it was built from (name and file free of ESC) |
| CestV1.BannerCarriesTest | src/v1.hpp:50-69 | whatever the outcome, the first line of the report parses back to the pass verdict iff the body completed, and to the test's own name, file and line (name and file free of ESC) |
| CestV1.TestImpl | src/v1.hpp:48-71 | the new streams are the old ones followed by the report's lines for the body's outcome |
| CestV1.WriteFailureReport | src/v1.hpp:54-61 | the `TestFailure` clause appends exactly that outcome's report lines to standard error, standard output unchanged |
| CestV1.WriteStdExceptionReport | src/v1.hpp:62-65 | the `std::exception` clause appends exactly that outcome's report lines to standard error, standard output unchanged |
| CestV1.WriteUnknownExceptionReport | src/v1.hpp:66-69 | the catch-all appends exactly that outcome's report lines to standard error, standard output unchanged |
| CestV1.BannerHeads | src/v1.hpp:52-56 | the inline pass line starts with the green check head, and the fail line starts with the red cross head and not the pass head |
| CestV1.ExactlyOneBanner | src/v1.hpp:50-70 | exactly one banner per call, first; standard output gets a line iff the body completed, and then exactly the inline pass line; every other branch writes only to standard error |
| CestV1.BannerVerdict | src/v1.hpp:50-69 | the banner starts with the pass head iff the body completed |
| CestV1.ParseFailedAtRoundTrip | src/v1.hpp:57 | the "Test failed at" line reads back to the assertion's file and line |
| CestV1.FailureReport | src/v1.hpp:54-61 | fail banner; then the assertion's location; then the optional expected text; then the actual text; 4 lines or 3 |
| CestV1.FaultReport | src/v1.hpp:62-69 | a standard exception gives the fail banner and its description after "Test threw STL expetion: "; any other throw gives the fail banner and the fixed "unknown exeption" line |
| Versions.VerdictsDifferOnlyOnStdException | src/v1.hpp:62-65 | for outcomes of the same kind, the two versions' banners agree on pass or fail iff the outcome is not a standard exception; the corrected current version always agrees with the earlier one |
| Versions.MatchersAgree | src/cest.hpp:27-42 | for `toBe` and for `toPass`, the two versions' matchers return normally on the same inputs, and when they throw, the records agree on file, line, expected text and actual text |
| Colorize.ForegroundCode | src/colorize.hpp:9-25 | every foreground code is 30–37 or one of 90, 91, 92, 93, 95, 96, 97 |
| Colorize.BackgroundCode | src/colorize.hpp:27-43 | every background code is the same colour's foreground code plus 10 |
| Colorize.HueOfForegroundCode | src/colorize.hpp:9-25 | the colour with a given foreground code, and none when no colour has it |
| Colorize.HueOfForegroundCodeInverse | src/colorize.hpp:9-25 | reading back a colour's foreground code gives the colour |
| Colorize.CodesInjective | src/colorize.hpp:9-43 | distinct colours have distinct foreground codes and distinct background codes |
| Colorize.RenderForeground | src/colorize.hpp:69-71 | a standard foreground colour renders as the SGR sequence holding its code |
| Colorize.RenderBackground | src/colorize.hpp:72-74 | a standard background colour renders as the SGR sequence holding its code |
| Colorize.StandardRenderingsDistinct | src/colorize.hpp:9-74 | distinct colours render distinctly on each layer, and no foreground rendering equals a background one |
| Colorize.ToUnsignedChar | src/colorize.hpp:51 | the conversion to `unsigned char` keeps the value modulo 256 and leaves 0..255 unchanged |
| Colorize.ExtendedForegroundOf | src/colorize.hpp:49-51 | an extended foreground built from an `int` holds an index congruent to it modulo 256 |
| Colorize.ExtendedBackgroundOf | src/colorize.hpp:57-59 | an extended background built from an `int` holds an index congruent to it modulo 256 |
| Colorize.ExtendedOfIntRenders | src/colorize.hpp:49-81 | an `int` index in 0..255 renders as 38;5;n or 48;5;n as given, and `n` and `n + 256` give the same colour on both layers |
| Colorize.RenderExtendedForeground | src/colorize.hpp:76-78 | an extended foreground value n renders as the SGR sequence 38;5;n |
| Colorize.RenderExtendedBackground | src/colorize.hpp:79-81 | an extended background value n renders as the SGR sequence 48;5;n |
| Colorize.ExtendedRenderingsDistinct | src/colorize.hpp:76-81 | distinct extended values render distinctly, and the two layers never coincide |
| Colorize.RenderEnd | src/colorize.hpp:83-85 | the reset renders as ESC [ 0 m, the SGR sequence holding 0 |
| Colorize.ResetsAgree | src/colorize.hpp:83-85 | the three reset constants, `end` (line 6), `standart::colorEnd` (line 45) and `extended::colorEnd` (line 65), all render as ESC [ 0 m |
| Colorize.RenderingsAreSgr | src/colorize.hpp:69-85 | every rendered sequence is ESC '[', then only digits and ';', then 'm' |
| Colorize.SgrRoundTrip | src/colorize.hpp:69-85 | an SGR sequence with at least one parameter parses back to its parameters |
| Colorize.SgrInjective | src/colorize.hpp:69-85 | distinct non-empty parameter lists give distinct sequences |
| Message.RenderPass | src/message.hpp:22-27 | `operator<<(message::pass)`: bright green check, reset, space, name, space, grey file ":" line, reset, yellow " (" duration ")", reset; `Message.BannerParts` and `Message.ParseBannerRoundTrip` state what it holds |
| Message.RenderFail | src/message.hpp:29-34 | `operator<<(message::fail)`: the same with a bright red cross; `Message.PassAndFailDifferOnlyInGlyph` relates it to the pass banner |
| Message.BannerParts | src/message.hpp:22-34 | each banner is its fixed head (glyph colour, glyph, reset, space) followed by the same body: name, space, grey file ":" decimal line, reset, yellow " (" duration ")", reset |
| Message.PassAndFailDifferOnlyInGlyph | src/message.hpp:22-34 | the two banners have the same length in characters and differ only at the colour digit (2 against 1) and the glyph (✓ against x) |
| Message.BannerHeads | src/message.hpp:24-31 | the pass banner starts with the pass head and not the fail head, and the other way round |
| Message.BannersEndWithReset | src/message.hpp:26-33 | both banners end with the reset sequence |
| Message.BannersHaveNoNewline | src/message.hpp:22-34 | with no newline in name, file and duration, neither banner holds one (the caller adds `std::endl`) |
| Message.ParseBannerRoundTrip | src/message.hpp:22-34 | a banner parses back to its verdict and to the name, file, line and duration it was built from (name and file free of ESC) |
| Exceptions.Run | src/cest.hpp:57-58 | the body completes iff every statement returns; otherwise the outcome is what the first statement that does not return throws |
| Exceptions.RunStopsAtFirstThrow | src/cest.hpp:57-58 | statements after the first throw make no difference to the outcome |
| Streams.Console.WriteOut | src/cest.hpp:59 | appends one line to standard output and leaves standard error as it was |
| Streams.Console.WriteErr | src/cest.hpp:61 | appends one line to standard error and leaves standard output as it was |
| Text.DecimalRoundTrip | src/message.hpp:25 | the decimal text of a line number reads back to the number |
| Text.IntRoundTrip | src/cest.hpp:62 | the text `operator<<(int)` writes, with a minus sign for negatives, reads back to the integer |

## Left out

- The clock and the elapsed-time text. `src/time_util.hpp` is not part of this model. Its double-valued durations, `std::setprecision(2)` and the clock read at `src/cest.hpp:56` are left out. The duration is an opaque string parameter of `Cest.TestImpl` and of the banners.
- The description of a standard exception. `catch (std::exception e)` catches a sliced copy, so `what()` is an opaque string carried by the outcome. The model does not claim it equals the message that was thrown.
- The `test` and `expect` macros. They only capture `__FILE__` and `__LINE__`, which are passed explicitly here. The unused helper `f` at `src/cest.hpp:45-47` is left out too.
- `operator<<` and `operator!=` on the user's type. They are foreign code. `render` is a parameter, and `!=` is taken to be the negation of `==`.
- References and lifetimes. `TestCase` holds a `const T&`; here it holds the value.
- Real exception machinery and `std::function`. A body is a sequence of steps: matcher calls and throws. Output the body itself writes is not modelled.
- Character encoding. The check mark is one character, not its three UTF-8 bytes, and a C string is its characters without the terminating NUL.
- The two colour enums. `standart::foreground` and `standart::background` are one `Hue` datatype with a code table for each layer, and the renderer is chosen by layer.
- Message.ParseBannerRoundTrip: requires that name and file hold no ESC character. A name holding one could imitate the grey location head, and then the banner does not determine its parts. Cest.BannerCarriesTest inherits that requirement.
- CestV1.ParseLineRoundTrip: requires that name and file hold no ESC character, for the same reason. CestV1.BannerCarriesTest inherits that requirement.
- Colorize.SgrRoundTrip: requires at least one parameter, because `ESC [ m` has no parameter text to read back. Every renderer writes at least one.

## Findings

| source | as written | input that shows it | evidently intended | confidence | as-written member | corrected member |
|---|---|---|---|---|---|---|
| src/cest.hpp:67-68 | the `std::exception` clause writes `message::pass`, the green check banner, for a test whose body threw | the "should throw" test of examples/v1.test.cpp:14-16, which throws `std::out_of_range` | the fail banner, as the catch-all does and as the earlier version does at src/v1.hpp:63-64 | not executed | Cest.StdExceptionGetsPassBanner | Cest.CorrectedBannerVerdict |

The model follows the code: `CestV1.BannerVerdict` proves the earlier version
gives a pass banner only for a completed body. `Cest.CorrectedReport` is the
corrected definition. `Versions.VerdictsDifferOnlyOnStdException` proves that it
agrees with the earlier version on every outcome. The as-written `Cest.Report`
and `Cest.TestImpl` model the code as it stands.
