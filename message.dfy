/**
  The one-line pass and fail banners of the current runner: a coloured status
  glyph, the test's name, its file:line and the elapsed time. The time is
  supplied as the text the duration formatter produced for it.
 */
module Message {
  import opened Text
  import opened Colorize

  /**
    The fields of `message::_msg`. The start time point is replaced by the duration
    text that `time_util::timeDiff(start)` streams as.
   */
  datatype Msg = Msg(name: string, filename: string, line: int, duration: string)

  datatype Verdict = Passed | Failed

  /** `operator<<(std::ostream&, const message::pass&)`. */
  function RenderPass(m: Msg): string
  {
    RenderForeground(BrightGreen) + "✓" + RenderEnd(End) + " " + m.name + " "
    + RenderForeground(BrightBlack) + m.filename + ":" + IntText(m.line) + RenderEnd(End)
    + RenderForeground(Yellow) + " (" + m.duration + ")" + RenderEnd(End)
  }

  /** `operator<<(std::ostream&, const message::fail&)`. */
  function RenderFail(m: Msg): string
  {
    RenderForeground(BrightRed) + "x" + RenderEnd(End) + " " + m.name + " "
    + RenderForeground(BrightBlack) + m.filename + ":" + IntText(m.line) + RenderEnd(End)
    + RenderForeground(Yellow) + " (" + m.duration + ")" + RenderEnd(End)
  }

  function Render(v: Verdict, m: Msg): string
  {
    match v
    case Passed => RenderPass(m)
    case Failed => RenderFail(m)
  }

  // The fixed pieces a banner is made of.

  const PassHead: string := RenderForeground(BrightGreen) + "✓" + Reset + " "
  const FailHead: string := RenderForeground(BrightRed) + "x" + Reset + " "
  const LocationHead: string := RenderForeground(BrightBlack)
  const DurationHead: string := Reset + RenderForeground(Yellow) + " ("
  const DurationTail: string := ")" + Reset

  /** A line that starts the way a pass or a fail banner starts. */
  predicate IsBanner(s: string)
  {
    StartsWith(s, PassHead) || StartsWith(s, FailHead)
  }

  /** The two heads spelled out character by character. */
  lemma HeadsSpelled()
    ensures PassHead == [Esc, '[', '9', '2', 'm', '✓', Esc, '[', '0', 'm', ' ']
    ensures FailHead == [Esc, '[', '9', '1', 'm', 'x', Esc, '[', '0', 'm', ' ']
    ensures LocationHead == [Esc, '[', '9', '0', 'm']
    ensures DurationHead == [Esc, '[', '0', 'm', Esc, '[', '3', '3', 'm', ' ', '(']
  {
    assert Decimal(92) == "92" && Decimal(91) == "91" && Decimal(90) == "90" && Decimal(33) == "33";
  }

  /** The characters that tell a banner's head from the other lines a report holds. */
  lemma HeadsLead()
    ensures |PassHead| == 11 && |FailHead| == 11
    ensures PassHead[0] == Esc && FailHead[0] == Esc
    ensures PassHead[2] == '9' && FailHead[2] == '9'
    ensures PassHead[5] == '✓' && FailHead[5] == 'x'
  {
    HeadsSpelled();
  }

  /** A line that differs from both heads at some position within them is no banner. */
  lemma NotBannerAt(s: string, k: nat)
    requires k < |s| && k < 11
    requires s[k] != PassHead[k] && s[k] != FailHead[k]
    ensures !IsBanner(s)
  {
    HeadsLead();
  }

  /** The middle of a banner, shared by both verdicts. */
  function Body(m: Msg): string
  {
    m.name + " " + LocationHead + (m.filename + ":" + IntText(m.line))
    + DurationHead + m.duration + DurationTail
  }

  lemma BannerParts(m: Msg)
    ensures RenderPass(m) == PassHead + Body(m)
    ensures RenderFail(m) == FailHead + Body(m)
  {
    var line, yellow := IntText(m.line), RenderForeground(Yellow);
    Regroup(RenderForeground(BrightGreen) + "✓", Reset, m.name, LocationHead, m.filename, line, yellow, m.duration);
    Regroup(RenderForeground(BrightRed) + "x", Reset, m.name, LocationHead, m.filename, line, yellow, m.duration);
  }

  lemma Regroup(glyph: string, reset: string, name: string, loc: string, file: string, line: string,
                yellow: string, duration: string)
    ensures glyph + reset + " " + name + " " + loc + file + ":" + line + reset + yellow + " (" + duration + ")" + reset
         == (glyph + reset + " ") + (name + " " + loc + (file + ":" + line) + (reset + yellow + " (") + duration + (")" + reset))
  {
  }

  /**
    With the duration text held fixed, the two banners have the same length and
    differ only at the colour code's last digit (index 3) and at the glyph (index 5).
   */
  lemma PassAndFailDifferOnlyInGlyph(m: Msg)
    ensures |RenderPass(m)| == |RenderFail(m)|
    ensures RenderPass(m)[3] == '2' && RenderFail(m)[3] == '1'
    ensures RenderPass(m)[5] == '✓' && RenderFail(m)[5] == 'x'
    ensures forall i :: 0 <= i < |RenderPass(m)| && i != 3 && i != 5 ==> RenderPass(m)[i] == RenderFail(m)[i]
  {
    BannerParts(m);
    HeadsSpelled();
    var b := Body(m);
    forall i | 0 <= i < |RenderPass(m)| && i != 3 && i != 5
      ensures RenderPass(m)[i] == RenderFail(m)[i]
    {
      if i >= |PassHead| {
        assert RenderPass(m)[i] == b[i - |PassHead|] == RenderFail(m)[i];
      }
    }
  }

  /** A pass banner is never a fail banner, and each is recognised by its head. */
  lemma BannerHeads(m: Msg)
    ensures StartsWith(RenderPass(m), PassHead) && !StartsWith(RenderPass(m), FailHead)
    ensures StartsWith(RenderFail(m), FailHead) && !StartsWith(RenderFail(m), PassHead)
  {
    BannerParts(m);
    HeadsSpelled();
    assert RenderPass(m)[..|PassHead|] == PassHead;
    assert RenderFail(m)[..|FailHead|] == FailHead;
    assert RenderPass(m)[3] != FailHead[3];
    assert RenderFail(m)[3] != PassHead[3];
  }

  /** Both banners end with the reset sequence. */
  lemma BannersEndWithReset(m: Msg)
    ensures EndsWith(RenderPass(m), Reset) && EndsWith(RenderFail(m), Reset)
  {
  }

  /** A banner spans a single line whenever its name, file and duration texts do. */
  lemma BannersHaveNoNewline(m: Msg)
    requires '\n' !in m.name && '\n' !in m.filename && '\n' !in m.duration
    ensures '\n' !in RenderPass(m) && '\n' !in RenderFail(m)
  {
    BannerParts(m);
    HeadsSpelled();
    var t := IntText(m.line);
    assert '\n' !in t by {
      forall k | 0 <= k < |t| ensures t[k] != '\n' { }
    }
    assert '\n' !in DurationTail;
  }

  // ---------------------------------------------------------------------------
  // Reading a banner back

  /** Recovers the verdict and the fields from a banner line; None if it is not one. */
  function ParseBanner(s: string): Option<(Verdict, Msg)>
  {
    if StartsWith(s, PassHead) then ParseBody(Passed, s[|PassHead|..])
    else if StartsWith(s, FailHead) then ParseBody(Failed, s[|FailHead|..])
    else None
  }

  /** Recovers the fields from what follows a banner's head: the name up to the first ESC, then the rest. */
  function ParseBody(v: Verdict, b: string): Option<(Verdict, Msg)>
  {
    match SplitAtFirst(b, Esc)
    case None => None
    case Some((nameSpace, r1)) =>
      if |nameSpace| == 0 || nameSpace[|nameSpace| - 1] != ' ' then None
      else ParseLocation(v, nameSpace[..|nameSpace| - 1], r1)
  }

  /** Recovers file, line and duration from what follows the name. */
  function ParseLocation(v: Verdict, name: string, r1: string): Option<(Verdict, Msg)>
  {
    if !StartsWith(r1, LocationHead) then None
    else
      match SplitAtFirst(r1[|LocationHead|..], Esc)
      case None => None
      case Some((location, r2)) =>
        match SplitAtLast(location, ':')
        case None => None
        case Some((file, lineText)) =>
          match (ParseInt(lineText), Between(r2, DurationHead, DurationTail))
          case (Some(line), Some(duration)) => Some((v, Msg(name, file, line, duration)))
          case _ => None
  }

  /** What follows the grey location head reads back to the file, line and duration. */
  lemma LocationPartsRoundTrip(m: Msg)
    requires Esc !in m.filename
    ensures var location := m.filename + ":" + IntText(m.line);
            var r2 := DurationHead + m.duration + DurationTail;
            && SplitAtFirst(location + r2, Esc) == Some((location, r2))
            && SplitAtLast(location, ':') == Some((m.filename, IntText(m.line)))
            && ParseInt(IntText(m.line)) == Some(m.line)
            && Between(r2, DurationHead, DurationTail) == Some(m.duration)
  {
    assert DurationHead[0] == Esc by { HeadsSpelled(); }
    var lineText := IntText(m.line);
    var location := m.filename + ":" + lineText;
    var r2 := DurationHead + m.duration + DurationTail;
    assert Esc !in location by {
      forall k | 0 <= k < |lineText| ensures lineText[k] != Esc { }
    }
    assert r2[0] == Esc;
    SplitAtFirstOf(location, r2, Esc);
    assert ':' !in lineText by {
      forall k | 0 <= k < |lineText| ensures lineText[k] != ':' { }
    }
    SplitAtLastOf(m.filename, ':', lineText);
    IntRoundTrip(m.line);
    BetweenOf(DurationHead, m.duration, DurationTail);
  }

  lemma LocationRoundTrip(v: Verdict, m: Msg)
    requires Esc !in m.filename
    ensures ParseLocation(v, m.name, LocationHead + ((m.filename + ":" + IntText(m.line))
                                     + (DurationHead + m.duration + DurationTail)))
            == Some((v, m))
  {
    var location := m.filename + ":" + IntText(m.line);
    var r2 := DurationHead + m.duration + DurationTail;
    var r1 := LocationHead + (location + r2);
    assert StartsWith(r1, LocationHead);
    assert r1[|LocationHead|..] == location + r2;
    LocationPartsRoundTrip(m);
  }

  lemma ParseBodyRoundTrip(v: Verdict, m: Msg)
    requires Esc !in m.name && Esc !in m.filename
    ensures ParseBody(v, Body(m)) == Some((v, m))
  {
    var r1 := LocationHead + ((m.filename + ":" + IntText(m.line)) + (DurationHead + m.duration + DurationTail));
    assert r1[0] == Esc by { HeadsSpelled(); }
    assert Body(m) == (m.name + " ") + r1;
    SplitAtFirstOf(m.name + " ", r1, Esc);
    assert (m.name + " ")[..|m.name|] == m.name;
    LocationRoundTrip(v, m);
  }

  /**
    A banner carries its name, file, line and duration verbatim: as long as the name
    and the file hold no escape character, all four and the verdict can be read back.
   */
  lemma ParseBannerRoundTrip(v: Verdict, m: Msg)
    requires Esc !in m.name && Esc !in m.filename
    ensures ParseBanner(Render(v, m)) == Some((v, m))
  {
    BannerParts(m);
    BannerHeads(m);
    ParseBodyRoundTrip(v, m);
    var s := Render(v, m);
    match v
    case Passed => assert s[|PassHead|..] == Body(m);
    case Failed => assert s[|FailHead|..] == Body(m);
  }
}
