/**
  The earlier version of the assertion engine and test runner: the matchers
  `toBe` and `toPass`, the `expect` entry point, and a `testImpl` whose report
  lines spell out their banners inline, without a duration, and which reports a
  standard exception with the fail banner.
 */
module CestV1 {
  import opened Text
  import opened Colorize
  import opened Exceptions
  import opened Streams

  /** The record a failing matcher throws. */
  datatype TestFailure = TestFailure(file: string, line: int, expectedRepr: Option<string>, resultRepr: string)

  /**
    `TestCase<T>`: the value under test and the file and line of the `expect`
    that wrapped it. The source holds a reference to the value; here it is the value.
   */
  datatype TestCase<T> = TestCase(val: T, file: string, line: int)

  // ---------------------------------------------------------------------------
  // Matchers. `render` stands for the `operator<<` that writes a `T`.

  /** `TestCase<T>::toBe`: returns iff the values are equal, else throws both renderings. */
  function ToBe<T(==)>(tc: TestCase<T>, expected: T, render: T -> string): (c: Completion<TestFailure>)
    ensures c.Normal? <==> tc.val == expected
    ensures c.Throw? ==> c.thrown == TestFailure(tc.file, tc.line, Some(render(expected)), render(tc.val))
  {
    if tc.val != expected then
      Throw(TestFailure(tc.file, tc.line, Some(render(expected)), render(tc.val)))
    else
      Normal
  }

  /** `TestCase<T>::toPass`: returns iff the predicate holds, else throws the actual rendering only. */
  function ToPass<T>(tc: TestCase<T>, pred: T -> bool, render: T -> string): (c: Completion<TestFailure>)
    ensures c.Normal? <==> pred(tc.val)
    ensures c.Throw? ==> c.thrown == TestFailure(tc.file, tc.line, None, render(tc.val))
  {
    if !pred(tc.val) then Throw(TestFailure(tc.file, tc.line, None, render(tc.val))) else Normal
  }

  /** `expectImpl`: wraps a value with the call site the `expect` macro captured. */
  function ExpectImpl<T>(val: T, filename: string, line: int): TestCase<T>
  {
    TestCase(val, filename, line)
  }

  /** A failure carries, unchanged, the value and the call site `expectImpl` was given. */
  lemma FailureAtCallSite<T>(v: T, expected: T, pred: T -> bool, render: T -> string, filename: string, line: int)
    ensures ExpectImpl(v, filename, line) == TestCase(v, filename, line)
    ensures ToBe(ExpectImpl(v, filename, line), expected, render).Throw? ==>
              ToBe(ExpectImpl(v, filename, line), expected, render).thrown.file == filename
              && ToBe(ExpectImpl(v, filename, line), expected, render).thrown.line == line
    ensures ToPass(ExpectImpl(v, filename, line), pred, render).Throw? ==>
              ToPass(ExpectImpl(v, filename, line), pred, render).thrown.file == filename
              && ToPass(ExpectImpl(v, filename, line), pred, render).thrown.line == line
  {
  }

  // ---------------------------------------------------------------------------
  // The lines `testImpl` writes

  /** The pass banner: green check, name, grey file:line. */
  function PassLine(name: string, filename: string, line: int): string
  {
    RenderForeground(BrightGreen) + "✓" + RenderEnd(StandardColorEnd) + " " + name + " "
    + RenderForeground(BrightBlack) + filename + ":" + IntText(line) + RenderEnd(StandardColorEnd)
  }

  /** The fail banner: red x, name, grey file:line. */
  function FailLine(name: string, filename: string, line: int): string
  {
    RenderForeground(BrightRed) + "x" + RenderEnd(StandardColorEnd) + " " + name + " "
    + RenderForeground(BrightBlack) + filename + ":" + IntText(line) + RenderEnd(StandardColorEnd)
  }

  const FailedAtHead: string := "Test failed at " + RenderForeground(BrightBlack)
  const ExpectedHead: string := RenderForeground(Cyan) + "\tExpected: \n\t\t"
  const GotHead: string := RenderForeground(Red) + "\tGot: \n\t\t"
  const StdExceptionHead: string := "\tTest threw STL expetion: " + RenderForeground(BrightRed)

  /** Where the failing assertion was. */
  function FailedAtLine(f: TestFailure): string
  {
    FailedAtHead + f.file + ":" + IntText(f.line) + RenderEnd(StandardColorEnd)
  }

  function ExpectedLine(repr: string): string
  {
    ExpectedHead + repr + RenderEnd(StandardColorEnd)
  }

  function GotLine(repr: string): string
  {
    GotHead + repr + RenderEnd(StandardColorEnd)
  }

  function StdExceptionLine(what: string): string
  {
    StdExceptionHead + what + RenderEnd(StandardColorEnd)
  }

  const UnknownExceptionLine: string :=
    RenderForeground(BrightRed) + "\tTest threw unknown exeption" + RenderEnd(StandardColorEnd)

  /** The lines one call of `testImpl` adds to standard output and standard error. */
  datatype Lines = Lines(out: seq<string>, err: seq<string>)

  /**
    The lines after the banner when a matcher failed: the assertion's location,
    the expected text when there is one, and the actual text.
   */
  function FailureDetails(f: TestFailure): seq<string>
  {
    [FailedAtLine(f)]
    + (if f.expectedRepr.Some? then [ExpectedLine(f.expectedRepr.value)] else [])
    + [GotLine(f.resultRepr)]
  }

  /** What `testImpl` reports for each way the body can end. */
  function Report(name: string, filename: string, line: int, outcome: Outcome<TestFailure>): Lines
  {
    match outcome
    case Completed => Lines([PassLine(name, filename, line)], [])
    case ThrewFailure(f) => Lines([], [FailLine(name, filename, line)] + FailureDetails(f))
    case ThrewStd(what) => Lines([], [FailLine(name, filename, line), StdExceptionLine(what)])
    case ThrewOther => Lines([], [FailLine(name, filename, line), UnknownExceptionLine])
  }

  /** The `catch (const TestFailure&)` clause: the fail banner, then the failure's details. */
  method WriteFailureReport(console: Console, name: string, filename: string, line: int, failure: TestFailure)
    modifies console
    ensures console.out == old(console.out)
    ensures console.err == old(console.err) + Report(name, filename, line, ThrewFailure(failure)).err
  {
    console.WriteErr(FailLine(name, filename, line));
    console.WriteErr(FailedAtLine(failure));
    if failure.expectedRepr.Some? {
      console.WriteErr(ExpectedLine(failure.expectedRepr.value));
    }
    console.WriteErr(GotLine(failure.resultRepr));
  }

  /** The `catch (std::exception e)` clause: the fail banner, then the description. */
  method WriteStdExceptionReport(console: Console, name: string, filename: string, line: int, what: string)
    modifies console
    ensures console.out == old(console.out)
    ensures console.err == old(console.err) + Report(name, filename, line, ThrewStd(what)).err
  {
    console.WriteErr(FailLine(name, filename, line));
    console.WriteErr(StdExceptionLine(what));
  }

  /** The `catch (...)` clause: the fail banner, then the fixed line. */
  method WriteUnknownExceptionReport(console: Console, name: string, filename: string, line: int)
    modifies console
    ensures console.out == old(console.out)
    ensures console.err == old(console.err) + Report(name, filename, line, ThrewOther).err
  {
    console.WriteErr(FailLine(name, filename, line));
    console.WriteErr(UnknownExceptionLine);
  }

  /**
    `testImpl`: runs the body inside the try, then writes the report of the catch
    clause that matched.
   */
  method TestImpl(console: Console, name: string, testFunc: seq<Step<TestFailure>>, filename: string, line: int)
    modifies console
    ensures console.out == old(console.out) + Report(name, filename, line, Run(testFunc)).out
    ensures console.err == old(console.err) + Report(name, filename, line, Run(testFunc)).err
  {
    var outcome := Run(testFunc);
    match outcome {
      case Completed => console.WriteOut(PassLine(name, filename, line));
      case ThrewFailure(failure) => WriteFailureReport(console, name, filename, line, failure);
      case ThrewStd(what) => WriteStdExceptionReport(console, name, filename, line, what);
      case ThrewOther => WriteUnknownExceptionReport(console, name, filename, line);
    }
  }

  // ---------------------------------------------------------------------------
  // What the report promises

  // The earlier header does not use the banner module: it builds each head inline
  // from `colorEnd`, so these are its own definitions, and
  // `Versions.VerdictsDifferOnlyOnStdException` proves them equal to the current ones.
  const PassHead: string := RenderForeground(BrightGreen) + "✓" + RenderEnd(StandardColorEnd) + " "
  const FailHead: string := RenderForeground(BrightRed) + "x" + RenderEnd(StandardColorEnd) + " "

  /** A line that starts the way a banner starts. */
  predicate IsBanner(s: string)
  {
    StartsWith(s, PassHead) || StartsWith(s, FailHead)
  }

  lemma HeadsSpelled()
    ensures PassHead == [Esc, '[', '9', '2', 'm', '✓', Esc, '[', '0', 'm', ' ']
    ensures FailHead == [Esc, '[', '9', '1', 'm', 'x', Esc, '[', '0', 'm', ' ']
  {
    assert Decimal(92) == "92" && Decimal(91) == "91";
  }

  /** The characters that tell a banner's head from the other lines a report holds. */
  lemma HeadsLead()
    ensures |PassHead| == 11 && |FailHead| == 11
    ensures PassHead[0] == Esc && FailHead[0] == Esc
    ensures PassHead[2] == '9' && FailHead[2] == '9'
    ensures PassHead[5] == '✓' && FailHead[5] == 'x'
  {
    HeadsSpelled();
  }

  lemma BannerHeads(name: string, filename: string, line: int)
    ensures StartsWith(PassLine(name, filename, line), PassHead)
    ensures StartsWith(FailLine(name, filename, line), FailHead)
    ensures !StartsWith(FailLine(name, filename, line), PassHead)
  {
    HeadsSpelled();
    var p, f := PassLine(name, filename, line), FailLine(name, filename, line);
    assert p[..|PassHead|] == PassHead;
    assert f[..|FailHead|] == FailHead;
    assert f[3] != PassHead[3];
  }

  /** A line that differs from both heads at some position within them is no banner. */
  lemma NotBannerAt(s: string, k: nat)
    requires k < |s| && k < 11
    requires s[k] != PassHead[k] && s[k] != FailHead[k]
    ensures !IsBanner(s)
  {
    HeadsLead();
  }

  // No line other than a banner starts like one: each differs from both banner
  // heads at one of the positions `HeadsLead` spells out.

  lemma FailedAtLineNotBanner(f: TestFailure)
    ensures !IsBanner(FailedAtLine(f))
  {
    HeadsLead();
    assert FailedAtLine(f)[0] == 'T';
    NotBannerAt(FailedAtLine(f), 0);
  }

  lemma ExpectedLineNotBanner(repr: string)
    ensures !IsBanner(ExpectedLine(repr))
  {
    HeadsLead();
    assert RenderForeground(Cyan) == [Esc, '[', '3', '6', 'm'] by { assert Decimal(36) == "36"; }
    assert ExpectedLine(repr)[2] == '3';
    NotBannerAt(ExpectedLine(repr), 2);
  }

  lemma GotLineNotBanner(repr: string)
    ensures !IsBanner(GotLine(repr))
  {
    HeadsLead();
    assert RenderForeground(Red) == [Esc, '[', '3', '1', 'm'] by { assert Decimal(31) == "31"; }
    assert GotLine(repr)[2] == '3';
    NotBannerAt(GotLine(repr), 2);
  }

  lemma StdExceptionLineNotBanner(what: string)
    ensures !IsBanner(StdExceptionLine(what))
  {
    HeadsLead();
    assert StdExceptionLine(what)[0] == '\t';
    NotBannerAt(StdExceptionLine(what), 0);
  }

  lemma UnknownExceptionLineNotBanner()
    ensures !IsBanner(UnknownExceptionLine)
  {
    HeadsLead();
    assert RenderForeground(BrightRed) == [Esc, '[', '9', '1', 'm'] by { assert Decimal(91) == "91"; }
    assert UnknownExceptionLine[5] == '\t';
    NotBannerAt(UnknownExceptionLine, 5);
  }

  lemma FailureDetailsNotBanners(f: TestFailure)
    ensures forall i :: 0 <= i < |FailureDetails(f)| ==> !IsBanner(FailureDetails(f)[i])
  {
    var details := FailureDetails(f);
    forall i | 0 <= i < |details| ensures !IsBanner(details[i]) {
      if i == 0 {
        FailedAtLineNotBanner(f);
      } else if i == |details| - 1 {
        assert details[i] == GotLine(f.resultRepr);
        GotLineNotBanner(f.resultRepr);
      } else {
        assert details[i] == ExpectedLine(f.expectedRepr.value);
        ExpectedLineNotBanner(f.expectedRepr.value);
      }
    }
  }

  /** The lines of a report in the order written, standard output's first. */
  function AllLines(r: Lines): seq<string>
  {
    r.out + r.err
  }

  /**
    A report whose first line is the banner and whose other lines are the ones
    the failure record and the fault descriptions produce.
   */
  predicate OneBannerFirst(r: Lines)
  {
    && |AllLines(r)| > 0
    && forall i :: 0 <= i < |AllLines(r)| ==> (IsBanner(AllLines(r)[i]) <==> i == 0)
  }

  /** A banner followed by detail lines only holds one banner, first. */
  lemma BannerThenDetails(banner: string, details: seq<string>)
    requires IsBanner(banner)
    requires forall i :: 0 <= i < |details| ==> !IsBanner(details[i])
    ensures OneBannerFirst(Lines([], [banner] + details))
  {
    var all := AllLines(Lines([], [banner] + details));
    assert all == [banner] + details;
    assert forall i :: 1 <= i < |all| ==> all[i] == details[i - 1];
  }

  /**
    Every call writes exactly one banner, and it is the first line it writes;
    standard output receives a line exactly when the body completed, and then it
    receives just the pass line and nothing goes to standard error.
   */
  lemma ExactlyOneBanner(name: string, filename: string, line: int, o: Outcome<TestFailure>)
    ensures OneBannerFirst(Report(name, filename, line, o))
    ensures Report(name, filename, line, o).out != [] <==> o.Completed?
    ensures o.Completed? ==> Report(name, filename, line, o).err == []
    ensures o.Completed? ==> Report(name, filename, line, o).out == [PassLine(name, filename, line)]
  {
    BannerHeads(name, filename, line);
    match o
    case Completed =>
      assert AllLines(Report(name, filename, line, o)) == [PassLine(name, filename, line)];
    case ThrewFailure(f) =>
      FailureDetailsNotBanners(f);
      BannerThenDetails(FailLine(name, filename, line), FailureDetails(f));
    case ThrewStd(what) =>
      StdExceptionLineNotBanner(what);
      BannerThenDetails(FailLine(name, filename, line), [StdExceptionLine(what)]);
    case ThrewOther =>
      UnknownExceptionLineNotBanner();
      BannerThenDetails(FailLine(name, filename, line), [UnknownExceptionLine]);
  }

  /** The banner shows the pass glyph exactly when the body completed. */
  lemma BannerVerdict(name: string, filename: string, line: int, o: Outcome<TestFailure>)
    ensures StartsWith(AllLines(Report(name, filename, line, o))[0], PassHead) <==> o.Completed?
  {
    BannerHeads(name, filename, line);
  }

  // ---------------------------------------------------------------------------
  // Reading an inline banner back

  /** The grey colour both inline banners switch to before the test's file:line. */
  const LocationHead: string := RenderForeground(BrightBlack)

  /** What follows an inline banner's head: name, space, grey file ":" line, reset. */
  function LineBody(name: string, filename: string, line: int): string
  {
    name + " " + LocationHead + (filename + ":" + IntText(line)) + RenderEnd(StandardColorEnd)
  }

  lemma LineRegroup(glyph: string, reset: string, name: string, loc: string, file: string, line: string)
    ensures glyph + reset + " " + name + " " + loc + file + ":" + line + reset
         == (glyph + reset + " ") + (name + " " + loc + (file + ":" + line) + reset)
  {
  }

  /** Each inline banner is its head followed by the same body. */
  lemma BannerLineParts(name: string, filename: string, line: int)
    ensures PassLine(name, filename, line) == PassHead + LineBody(name, filename, line)
    ensures FailLine(name, filename, line) == FailHead + LineBody(name, filename, line)
  {
    var reset, lineText := RenderEnd(StandardColorEnd), IntText(line);
    LineRegroup(RenderForeground(BrightGreen) + "✓", reset, name, LocationHead, filename, lineText);
    LineRegroup(RenderForeground(BrightRed) + "x", reset, name, LocationHead, filename, lineText);
  }

  /** An inline banner read back: whether it is the pass line, and the test's name, file and line. */
  datatype Banner = Banner(passed: bool, name: string, filename: string, line: int)

  /** Recovers the verdict and the test from an inline banner; None if it is not one. */
  function ParseLine(s: string): Option<Banner>
  {
    if StartsWith(s, PassHead) then ParseLineBody(true, s[|PassHead|..])
    else if StartsWith(s, FailHead) then ParseLineBody(false, s[|FailHead|..])
    else None
  }

  /** The name runs up to the first ESC, less its trailing space. */
  function ParseLineBody(passed: bool, b: string): Option<Banner>
  {
    match SplitAtFirst(b, Esc)
    case None => None
    case Some((nameSpace, r1)) =>
      if |nameSpace| == 0 || nameSpace[|nameSpace| - 1] != ' ' then None
      else ParseLineLocation(passed, nameSpace[..|nameSpace| - 1], r1)
  }

  /** The grey head, then file ":" line up to the next ESC, then exactly the reset. */
  function ParseLineLocation(passed: bool, name: string, r1: string): Option<Banner>
  {
    if !StartsWith(r1, LocationHead) then None
    else
      match SplitAtFirst(r1[|LocationHead|..], Esc)
      case None => None
      case Some((location, rest)) =>
        if rest != RenderEnd(StandardColorEnd) then None
        else
          match SplitAtLast(location, ':')
          case None => None
          case Some((file, lineText)) =>
            match ParseInt(lineText)
            case None => None
            case Some(line) => Some(Banner(passed, name, file, line))
  }

  lemma LineLocationRoundTrip(passed: bool, name: string, filename: string, line: int)
    requires Esc !in filename
    ensures ParseLineLocation(passed, name, LocationHead + ((filename + ":" + IntText(line)) + RenderEnd(StandardColorEnd)))
            == Some(Banner(passed, name, filename, line))
  {
    var lineText := IntText(line);
    var location := filename + ":" + lineText;
    var reset := RenderEnd(StandardColorEnd);
    var r1 := LocationHead + (location + reset);
    assert StartsWith(r1, LocationHead);
    assert r1[|LocationHead|..] == location + reset;
    assert Esc !in location by {
      forall k | 0 <= k < |lineText| ensures lineText[k] != Esc { }
    }
    SplitAtFirstOf(location, reset, Esc);
    assert ':' !in lineText by {
      forall k | 0 <= k < |lineText| ensures lineText[k] != ':' { }
    }
    SplitAtLastOf(filename, ':', lineText);
    IntRoundTrip(line);
  }

  lemma LineBodyRoundTrip(passed: bool, name: string, filename: string, line: int)
    requires Esc !in name && Esc !in filename
    ensures ParseLineBody(passed, LineBody(name, filename, line)) == Some(Banner(passed, name, filename, line))
  {
    var r1 := LocationHead + ((filename + ":" + IntText(line)) + RenderEnd(StandardColorEnd));
    assert r1[0] == Esc;
    assert LineBody(name, filename, line) == (name + " ") + r1;
    SplitAtFirstOf(name + " ", r1, Esc);
    assert (name + " ")[..|name|] == name;
    LineLocationRoundTrip(passed, name, filename, line);
  }

  /**
    An inline banner carries the test's name, file and line verbatim: as long as
    the name and the file hold no escape character, all three and the verdict can
    be read back.
   */
  lemma ParseLineRoundTrip(name: string, filename: string, line: int)
    requires Esc !in name && Esc !in filename
    ensures ParseLine(PassLine(name, filename, line)) == Some(Banner(true, name, filename, line))
    ensures ParseLine(FailLine(name, filename, line)) == Some(Banner(false, name, filename, line))
  {
    BannerLineParts(name, filename, line);
    BannerHeads(name, filename, line);
    assert PassLine(name, filename, line)[|PassHead|..] == LineBody(name, filename, line);
    assert FailLine(name, filename, line)[|FailHead|..] == LineBody(name, filename, line);
    LineBodyRoundTrip(true, name, filename, line);
    LineBodyRoundTrip(false, name, filename, line);
  }

  /**
    The first line of every report is the banner of the test itself: it reads back
    to the pass verdict exactly when the body completed, and to the test's own
    name, file and line.
   */
  lemma BannerCarriesTest(name: string, filename: string, line: int, o: Outcome<TestFailure>)
    requires Esc !in name && Esc !in filename
    ensures ParseLine(AllLines(Report(name, filename, line, o))[0]) == Some(Banner(o.Completed?, name, filename, line))
  {
    ParseLineRoundTrip(name, filename, line);
    if o.Completed? {
      assert AllLines(Report(name, filename, line, o))[0] == PassLine(name, filename, line);
    } else {
      assert AllLines(Report(name, filename, line, o))[0] == FailLine(name, filename, line);
    }
  }

  /** Reads back the assertion's location from a "Test failed at" line. */
  function ParseFailedAt(s: string): Option<(string, int)>
  {
    match Between(s, FailedAtHead, Reset)
    case None => None
    case Some(location) =>
      match SplitAtLast(location, ':')
      case None => None
      case Some((file, lineText)) =>
        match ParseInt(lineText)
        case None => None
        case Some(line) => Some((file, line))
  }

  lemma ParseFailedAtRoundTrip(f: TestFailure)
    ensures ParseFailedAt(FailedAtLine(f)) == Some((f.file, f.line))
  {
    var lineText := IntText(f.line);
    assert FailedAtLine(f) == FailedAtHead + (f.file + ":" + lineText) + Reset;
    BetweenOf(FailedAtHead, f.file + ":" + lineText, Reset);
    assert ':' !in lineText by {
      forall k | 0 <= k < |lineText| ensures lineText[k] != ':' { }
    }
    SplitAtLastOf(f.file, ':', lineText);
    IntRoundTrip(f.line);
  }

  /**
    The report of a failed assertion: the fail banner with the test's own
    location; then the assertion's location; then the expected text exactly when
    the failure has one; then the actual text, last.
   */
  lemma FailureReport(name: string, filename: string, line: int, f: TestFailure)
    ensures Report(name, filename, line, ThrewFailure(f)).out == []
    ensures Report(name, filename, line, ThrewFailure(f)).err[0] == FailLine(name, filename, line)
    ensures |Report(name, filename, line, ThrewFailure(f)).err| == if f.expectedRepr.Some? then 4 else 3
    ensures ParseFailedAt(Report(name, filename, line, ThrewFailure(f)).err[1]) == Some((f.file, f.line))
    ensures f.expectedRepr.Some? ==>
              Between(Report(name, filename, line, ThrewFailure(f)).err[2], ExpectedHead, Reset) == f.expectedRepr
    ensures var err := Report(name, filename, line, ThrewFailure(f)).err;
            Between(err[|err| - 1], GotHead, Reset) == Some(f.resultRepr)
  {
    ParseFailedAtRoundTrip(f);
    BetweenOf(GotHead, f.resultRepr, Reset);
    if f.expectedRepr.Some? {
      BetweenOf(ExpectedHead, f.expectedRepr.value, Reset);
    }
  }

  /** A standard exception is reported with its description; any other throw with a fixed line. */
  lemma FaultReport(name: string, filename: string, line: int, what: string)
    ensures Report(name, filename, line, ThrewStd(what)).err[0] == FailLine(name, filename, line)
    ensures |Report(name, filename, line, ThrewStd(what)).err| == 2
    ensures Between(Report(name, filename, line, ThrewStd(what)).err[1], StdExceptionHead, Reset) == Some(what)
    ensures Report(name, filename, line, ThrewOther).err == [FailLine(name, filename, line), UnknownExceptionLine]
  {
    BetweenOf(StdExceptionHead, what, Reset);
  }
}
