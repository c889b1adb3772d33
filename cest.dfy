/**
  The current version of the assertion engine and test runner: the same
  matchers and `expect` entry point as the earlier version, and a `testImpl`
  whose banners come from `Message` and carry the test's duration.
 */
module Cest {
  import opened Text
  import opened Colorize
  import opened Exceptions
  import opened Streams
  import opened Message

  /** The record a failing matcher throws. */
  datatype TestFailure = TestFailure(file: string, line: int, expectedRepr: Option<string>, resultRepr: string)

  /**
    `TestCase<T>`: the value under test and the file and line of the `expect`
    that wrapped it. The source holds a reference to the value; here it is the value.
   */
  datatype TestCase<T> = TestCase(val: T, file: string, line: int)

  // ---------------------------------------------------------------------------
  // Matchers. `render` stands for the `operator<<` that writes a `T`.

  /** `TestCase<T>::toBe`: returns iff the values are equal, else throws both renderings. */
  function ToBe<T(==)>(tc: TestCase<T>, expected: T, render: T -> string): (c: Completion<TestFailure>)
    ensures c.Normal? <==> tc.val == expected
    ensures c.Throw? ==> c.thrown == TestFailure(tc.file, tc.line, Some(render(expected)), render(tc.val))
  {
    if tc.val != expected then
      Throw(TestFailure(tc.file, tc.line, Some(render(expected)), render(tc.val)))
    else
      Normal
  }

  /** `TestCase<T>::toPass`: returns iff the predicate holds, else throws the actual rendering only. */
  function ToPass<T>(tc: TestCase<T>, pred: T -> bool, render: T -> string): (c: Completion<TestFailure>)
    ensures c.Normal? <==> pred(tc.val)
    ensures c.Throw? ==> c.thrown == TestFailure(tc.file, tc.line, None, render(tc.val))
  {
    if !pred(tc.val) then Throw(TestFailure(tc.file, tc.line, None, render(tc.val))) else Normal
  }

  /** `expectImpl`: wraps a value with the call site the `expect` macro captured. */
  function ExpectImpl<T>(val: T, filename: string, line: int): TestCase<T>
  {
    TestCase(val, filename, line)
  }

  /** A failure carries, unchanged, the value and the call site `expectImpl` was given. */
  lemma FailureAtCallSite<T>(v: T, expected: T, pred: T -> bool, render: T -> string, filename: string, line: int)
    ensures ExpectImpl(v, filename, line) == TestCase(v, filename, line)
    ensures ToBe(ExpectImpl(v, filename, line), expected, render).Throw? ==>
              ToBe(ExpectImpl(v, filename, line), expected, render).thrown.file == filename
              && ToBe(ExpectImpl(v, filename, line), expected, render).thrown.line == line
    ensures ToPass(ExpectImpl(v, filename, line), pred, render).Throw? ==>
              ToPass(ExpectImpl(v, filename, line), pred, render).thrown.file == filename
              && ToPass(ExpectImpl(v, filename, line), pred, render).thrown.line == line
  {
  }

  // ---------------------------------------------------------------------------
  // The lines `testImpl` writes besides its banner

  const FailedAtHead: string := "Test failed at " + RenderForeground(BrightBlack)
  const ExpectedHead: string := RenderForeground(Cyan) + "\tExpected: \n\t\t"
  const GotHead: string := RenderForeground(Red) + "\tGot: \n\t\t"
  const StdExceptionHead: string := "\tTest threw STL exception: " + RenderForeground(BrightRed)

  /** Where the failing assertion was. */
  function FailedAtLine(f: TestFailure): string
  {
    FailedAtHead + f.file + ":" + IntText(f.line) + RenderEnd(End)
  }

  function ExpectedLine(repr: string): string
  {
    ExpectedHead + repr + RenderEnd(End)
  }

  function GotLine(repr: string): string
  {
    GotHead + repr + RenderEnd(End)
  }

  function StdExceptionLine(what: string): string
  {
    StdExceptionHead + what + RenderEnd(End)
  }

  const UnknownExceptionLine: string :=
    RenderForeground(BrightRed) + "\tTest threw unknown exception" + RenderEnd(End)

  /** The lines one call of `testImpl` adds to standard output and standard error. */
  datatype Lines = Lines(out: seq<string>, err: seq<string>)

  /**
    The lines after the banner when a matcher failed: the assertion's location,
    the expected text when there is one, and the actual text.
   */
  function FailureDetails(f: TestFailure): seq<string>
  {
    [FailedAtLine(f)]
    + (if f.expectedRepr.Some? then [ExpectedLine(f.expectedRepr.value)] else [])
    + [GotLine(f.resultRepr)]
  }

  /**
    What `testImpl` reports for each way the body can end, as written: a standard
    exception gets the pass banner.
   */
  function Report(name: string, filename: string, line: int, duration: string, outcome: Outcome<TestFailure>): Lines
  {
    var m := Msg(name, filename, line, duration);
    match outcome
    case Completed => Lines([RenderPass(m)], [])
    case ThrewFailure(f) => Lines([], [RenderFail(m)] + FailureDetails(f))
    case ThrewStd(what) => Lines([], [RenderPass(m), StdExceptionLine(what)])
    case ThrewOther => Lines([], [RenderFail(m), UnknownExceptionLine])
  }

  /**
    The report with the standard-exception case given the fail banner, as the
    earlier version does; every other case is reported as written.
   */
  function CorrectedReport(name: string, filename: string, line: int, duration: string, outcome: Outcome<TestFailure>): Lines
  {
    match outcome
    case ThrewStd(what) => Lines([], [RenderFail(Msg(name, filename, line, duration)), StdExceptionLine(what)])
    case _ => Report(name, filename, line, duration, outcome)
  }

  /** The `catch (const TestFailure&)` clause: the fail banner, then the failure's details. */
  method WriteFailureReport(console: Console, m: Msg, failure: TestFailure)
    modifies console
    ensures console.out == old(console.out)
    ensures console.err == old(console.err) + Report(m.name, m.filename, m.line, m.duration, ThrewFailure(failure)).err
  {
    console.WriteErr(RenderFail(m));
    console.WriteErr(FailedAtLine(failure));
    if failure.expectedRepr.Some? {
      console.WriteErr(ExpectedLine(failure.expectedRepr.value));
    }
    console.WriteErr(GotLine(failure.resultRepr));
  }

  /** The `catch (std::exception e)` clause, as written: the pass banner, then the description. */
  method WriteStdExceptionReport(console: Console, m: Msg, what: string)
    modifies console
    ensures console.out == old(console.out)
    ensures console.err == old(console.err) + Report(m.name, m.filename, m.line, m.duration, ThrewStd(what)).err
  {
    console.WriteErr(RenderPass(m));
    console.WriteErr(StdExceptionLine(what));
  }

  /** The `catch (...)` clause: the fail banner, then the fixed line. */
  method WriteUnknownExceptionReport(console: Console, m: Msg)
    modifies console
    ensures console.out == old(console.out)
    ensures console.err == old(console.err) + Report(m.name, m.filename, m.line, m.duration, ThrewOther).err
  {
    console.WriteErr(RenderFail(m));
    console.WriteErr(UnknownExceptionLine);
  }

  /**
    `testImpl`: runs the body inside the try, then writes the report of the catch
    clause that matched. `duration` is the text the elapsed time since the start
    of the call streams as.
   */
  method TestImpl(console: Console, name: string, testFunc: seq<Step<TestFailure>>, filename: string, line: int,
                  duration: string)
    modifies console
    ensures console.out == old(console.out) + Report(name, filename, line, duration, Run(testFunc)).out
    ensures console.err == old(console.err) + Report(name, filename, line, duration, Run(testFunc)).err
  {
    var m := Msg(name, filename, line, duration);
    var outcome := Run(testFunc);
    match outcome {
      case Completed => console.WriteOut(RenderPass(m));
      case ThrewFailure(failure) => WriteFailureReport(console, m, failure);
      case ThrewStd(what) => WriteStdExceptionReport(console, m, what);
      case ThrewOther => WriteUnknownExceptionReport(console, m);
    }
  }

  // ---------------------------------------------------------------------------
  // What the report promises

  // No line other than a banner starts like one: each differs from both banner
  // heads at one of the positions `Message.HeadsLead` spells out.

  lemma FailedAtLineNotBanner(f: TestFailure)
    ensures !IsBanner(FailedAtLine(f))
  {
    HeadsLead();
    assert FailedAtLine(f)[0] == 'T';
    NotBannerAt(FailedAtLine(f), 0);
  }

  lemma ExpectedLineNotBanner(repr: string)
    ensures !IsBanner(ExpectedLine(repr))
  {
    HeadsLead();
    assert RenderForeground(Cyan) == [Esc, '[', '3', '6', 'm'] by { assert Decimal(36) == "36"; }
    assert ExpectedLine(repr)[2] == '3';
    NotBannerAt(ExpectedLine(repr), 2);
  }

  lemma GotLineNotBanner(repr: string)
    ensures !IsBanner(GotLine(repr))
  {
    HeadsLead();
    assert RenderForeground(Red) == [Esc, '[', '3', '1', 'm'] by { assert Decimal(31) == "31"; }
    assert GotLine(repr)[2] == '3';
    NotBannerAt(GotLine(repr), 2);
  }

  lemma StdExceptionLineNotBanner(what: string)
    ensures !IsBanner(StdExceptionLine(what))
  {
    HeadsLead();
    assert StdExceptionLine(what)[0] == '\t';
    NotBannerAt(StdExceptionLine(what), 0);
  }

  lemma UnknownExceptionLineNotBanner()
    ensures !IsBanner(UnknownExceptionLine)
  {
    HeadsLead();
    assert RenderForeground(BrightRed) == [Esc, '[', '9', '1', 'm'] by { assert Decimal(91) == "91"; }
    assert UnknownExceptionLine[5] == '\t';
    NotBannerAt(UnknownExceptionLine, 5);
  }

  lemma FailureDetailsNotBanners(f: TestFailure)
    ensures forall i :: 0 <= i < |FailureDetails(f)| ==> !IsBanner(FailureDetails(f)[i])
  {
    var details := FailureDetails(f);
    forall i | 0 <= i < |details| ensures !IsBanner(details[i]) {
      if i == 0 {
        FailedAtLineNotBanner(f);
      } else if i == |details| - 1 {
        assert details[i] == GotLine(f.resultRepr);
        GotLineNotBanner(f.resultRepr);
      } else {
        assert details[i] == ExpectedLine(f.expectedRepr.value);
        ExpectedLineNotBanner(f.expectedRepr.value);
      }
    }
  }

  /** The lines of a report in the order written, standard output's first. */
  function AllLines(r: Lines): seq<string>
  {
    r.out + r.err
  }

  /**
    A report whose first line is the banner and whose other lines are the ones
    the failure record and the fault descriptions produce.
   */
  predicate OneBannerFirst(r: Lines)
  {
    && |AllLines(r)| > 0
    && forall i :: 0 <= i < |AllLines(r)| ==> (IsBanner(AllLines(r)[i]) <==> i == 0)
  }

  /** A banner followed by detail lines only holds one banner, first. */
  lemma BannerThenDetails(banner: string, details: seq<string>)
    requires IsBanner(banner)
    requires forall i :: 0 <= i < |details| ==> !IsBanner(details[i])
    ensures OneBannerFirst(Lines([], [banner] + details))
  {
    var all := AllLines(Lines([], [banner] + details));
    assert all == [banner] + details;
    assert forall i :: 1 <= i < |all| ==> all[i] == details[i - 1];
  }

  lemma ReportHasOneBanner(m: Msg, o: Outcome<TestFailure>)
    ensures OneBannerFirst(Report(m.name, m.filename, m.line, m.duration, o))
  {
    match o
    case Completed =>
      assert IsBanner(RenderPass(m)) by { BannerHeads(m); }
      assert AllLines(Report(m.name, m.filename, m.line, m.duration, o)) == [RenderPass(m)];
    case ThrewFailure(f) =>
      assert IsBanner(RenderFail(m)) by { BannerHeads(m); }
      FailureDetailsNotBanners(f);
      BannerThenDetails(RenderFail(m), FailureDetails(f));
    case ThrewStd(what) =>
      assert IsBanner(RenderPass(m)) by { BannerHeads(m); }
      StdExceptionLineNotBanner(what);
      BannerThenDetails(RenderPass(m), [StdExceptionLine(what)]);
    case ThrewOther =>
      assert IsBanner(RenderFail(m)) by { BannerHeads(m); }
      UnknownExceptionLineNotBanner();
      BannerThenDetails(RenderFail(m), [UnknownExceptionLine]);
  }

  lemma CorrectedReportHasOneBanner(m: Msg, o: Outcome<TestFailure>)
    ensures OneBannerFirst(CorrectedReport(m.name, m.filename, m.line, m.duration, o))
  {
    match o
    case ThrewStd(what) =>
      assert IsBanner(RenderFail(m)) by { BannerHeads(m); }
      StdExceptionLineNotBanner(what);
      BannerThenDetails(RenderFail(m), [StdExceptionLine(what)]);
    case _ =>
      ReportHasOneBanner(m, o);
  }

  /**
    Every call writes exactly one banner, and it is the first line it writes;
    standard output receives a line exactly when the body completed, and then
    nothing goes to standard error.
   */
  lemma ExactlyOneBanner(name: string, filename: string, line: int, duration: string, o: Outcome<TestFailure>)
    ensures OneBannerFirst(Report(name, filename, line, duration, o))
    ensures OneBannerFirst(CorrectedReport(name, filename, line, duration, o))
    ensures Report(name, filename, line, duration, o).out != [] <==> o.Completed?
    ensures o.Completed? ==> Report(name, filename, line, duration, o).err == []
    ensures o.Completed? ==> Report(name, filename, line, duration, o).out == [RenderPass(Msg(name, filename, line, duration))]
  {
    ReportHasOneBanner(Msg(name, filename, line, duration), o);
    CorrectedReportHasOneBanner(Msg(name, filename, line, duration), o);
  }

  /**
    As written, the banner shows the pass glyph when the body completed and also
    when it threw a standard exception.
   */
  lemma BannerVerdict(name: string, filename: string, line: int, duration: string, o: Outcome<TestFailure>)
    ensures StartsWith(AllLines(Report(name, filename, line, duration, o))[0], PassHead)
            <==> o.Completed? || o.ThrewStd?
  {
    BannerHeads(Msg(name, filename, line, duration));
  }

  /** A body that throws a standard exception is reported under a pass banner. */
  lemma StdExceptionGetsPassBanner(name: string, filename: string, line: int, duration: string, what: string)
    ensures Report(name, filename, line, duration, ThrewStd(what)).out == []
    ensures Report(name, filename, line, duration, ThrewStd(what)).err[0] == RenderPass(Msg(name, filename, line, duration))
    ensures StartsWith(Report(name, filename, line, duration, ThrewStd(what)).err[0], PassHead)
  {
    var m := Msg(name, filename, line, duration);
    BannerHeads(m);
  }

  /** With the correction, the banner shows the pass glyph exactly when the body completed. */
  lemma CorrectedBannerVerdict(name: string, filename: string, line: int, duration: string, o: Outcome<TestFailure>)
    ensures StartsWith(AllLines(CorrectedReport(name, filename, line, duration, o))[0], PassHead) <==> o.Completed?
    ensures !o.ThrewStd? ==> CorrectedReport(name, filename, line, duration, o) == Report(name, filename, line, duration, o)
  {
    BannerHeads(Msg(name, filename, line, duration));
  }

  /**
    The banner of a report carries the test's own name, location and duration,
    whatever the outcome, when the name and file hold no escape character.
   */
  lemma BannerCarriesTest(name: string, filename: string, line: int, duration: string, o: Outcome<TestFailure>)
    requires Esc !in name && Esc !in filename
    ensures ParseBanner(AllLines(Report(name, filename, line, duration, o))[0]).Some?
    ensures ParseBanner(AllLines(Report(name, filename, line, duration, o))[0]).value.1
            == Msg(name, filename, line, duration)
  {
    var m := Msg(name, filename, line, duration);
    ParseBannerRoundTrip(Passed, m);
    ParseBannerRoundTrip(Failed, m);
  }

  /** Reads back the assertion's location from a "Test failed at" line. */
  function ParseFailedAt(s: string): Option<(string, int)>
  {
    match Between(s, FailedAtHead, Reset)
    case None => None
    case Some(location) =>
      match SplitAtLast(location, ':')
      case None => None
      case Some((file, lineText)) =>
        match ParseInt(lineText)
        case None => None
        case Some(line) => Some((file, line))
  }

  lemma ParseFailedAtRoundTrip(f: TestFailure)
    ensures ParseFailedAt(FailedAtLine(f)) == Some((f.file, f.line))
  {
    var lineText := IntText(f.line);
    assert FailedAtLine(f) == FailedAtHead + (f.file + ":" + lineText) + Reset;
    BetweenOf(FailedAtHead, f.file + ":" + lineText, Reset);
    assert ':' !in lineText by {
      forall k | 0 <= k < |lineText| ensures lineText[k] != ':' { }
    }
    SplitAtLastOf(f.file, ':', lineText);
    IntRoundTrip(f.line);
  }

  /**
    The report of a failed assertion: the fail banner with the test's own
    location; then the assertion's location; then the expected text exactly when
    the failure has one; then the actual text, last.
   */
  lemma FailureReport(name: string, filename: string, line: int, duration: string, f: TestFailure)
    ensures Report(name, filename, line, duration, ThrewFailure(f)).out == []
    ensures Report(name, filename, line, duration, ThrewFailure(f)).err[0] == RenderFail(Msg(name, filename, line, duration))
    ensures |Report(name, filename, line, duration, ThrewFailure(f)).err| == if f.expectedRepr.Some? then 4 else 3
    ensures ParseFailedAt(Report(name, filename, line, duration, ThrewFailure(f)).err[1]) == Some((f.file, f.line))
    ensures f.expectedRepr.Some? ==>
              Between(Report(name, filename, line, duration, ThrewFailure(f)).err[2], ExpectedHead, Reset) == f.expectedRepr
    ensures var err := Report(name, filename, line, duration, ThrewFailure(f)).err;
            Between(err[|err| - 1], GotHead, Reset) == Some(f.resultRepr)
  {
    ParseFailedAtRoundTrip(f);
    BetweenOf(GotHead, f.resultRepr, Reset);
    if f.expectedRepr.Some? {
      BetweenOf(ExpectedHead, f.expectedRepr.value, Reset);
    }
  }

  /** A standard exception is reported with its description; any other throw with a fixed line. */
  lemma FaultReport(name: string, filename: string, line: int, duration: string, what: string)
    ensures |Report(name, filename, line, duration, ThrewStd(what)).err| == 2
    ensures Between(Report(name, filename, line, duration, ThrewStd(what)).err[1], StdExceptionHead, Reset) == Some(what)
    ensures Report(name, filename, line, duration, ThrewOther).err
            == [RenderFail(Msg(name, filename, line, duration)), UnknownExceptionLine]
  {
    BetweenOf(StdExceptionHead, what, Reset);
  }

  // ---------------------------------------------------------------------------
  // The example program

  /** `isEven` of the example program; `%` by 2 is zero for the same numbers in C++ and here. */
  function IsEven(a: int): bool
  {
    a % 2 == 0
  }

  /** The four assertions of the example program, with `int` rendered as `operator<<(int)` does. */
  lemma ExampleAssertions(file: string)
    ensures ToBe(ExpectImpl(3, file, 9), 3, IntText) == Normal
    ensures ToBe(ExpectImpl(2, file, 12), 4, IntText) == Throw(TestFailure(file, 12, Some("4"), "2"))
    ensures ToPass(ExpectImpl(2, file, 21), IsEven, IntText) == Normal
    ensures ToPass(ExpectImpl(3, file, 24), IsEven, IntText) == Throw(TestFailure(file, 24, None, "3"))
  {
    assert IntText(4) == "4" && IntText(2) == "2" && IntText(3) == "3";
  }

  /**
    The "should fail" test of the example program: the fail banner, the location
    of the `expect`, then "4" as expected and "2" as got, all on standard error.
   */
  lemma ExampleShouldFail(file: string, duration: string)
    ensures var f := TestFailure(file, 12, Some("4"), "2");
            Report("should fail", file, 11, duration, Run([Check(ToBe(ExpectImpl(2, file, 12), 4, IntText))]))
            == Lines([], [RenderFail(Msg("should fail", file, 11, duration)), FailedAtLine(f), ExpectedLine("4"), GotLine("2")])
  {
    ExampleAssertions(file);
    var body: seq<Step<TestFailure>> := [Check(ToBe(ExpectImpl(2, file, 12), 4, IntText))];
    assert Run(body) == ThrewFailure(TestFailure(file, 12, Some("4"), "2"));
  }

  /** The "should throw" test: a `std::out_of_range` is reported under the pass banner. */
  lemma ExampleShouldThrow(file: string, duration: string, what: string)
    ensures Report("should throw", file, 14, duration, Run([RaiseStd(what)]))
            == Lines([], [RenderPass(Msg("should throw", file, 14, duration)), StdExceptionLine(what)])
  {
    var body: seq<Step<TestFailure>> := [RaiseStd(what)];
    assert Run(body) == ThrewStd(what);
  }
}
