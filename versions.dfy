/**
  The earlier and the current runner side by side: their matchers agree, both
  write banners that start the same way, and their verdicts differ on exactly one
  kind of outcome, the standard exception.
 */
module Versions {
  import opened Text
  import opened Exceptions
  import V1 = CestV1
  import Cest
  import Message

  /** Two outcomes of the same kind, whatever failure record each carries. */
  predicate SameCase<F, G>(a: Outcome<F>, b: Outcome<G>)
  {
    a.Completed? == b.Completed? && a.ThrewFailure? == b.ThrewFailure? && a.ThrewStd? == b.ThrewStd?
  }

  /** Both versions' matchers decide alike and throw the same fields. */
  lemma MatchersAgree<T>(v: T, expected: T, pred: T -> bool, render: T -> string, filename: string, line: int)
    ensures V1.ToBe(V1.ExpectImpl(v, filename, line), expected, render).Normal?
            == Cest.ToBe(Cest.ExpectImpl(v, filename, line), expected, render).Normal?
    ensures V1.ToPass(V1.ExpectImpl(v, filename, line), pred, render).Normal?
            == Cest.ToPass(Cest.ExpectImpl(v, filename, line), pred, render).Normal?
    ensures V1.ToBe(V1.ExpectImpl(v, filename, line), expected, render).Throw? ==>
              var a := V1.ToBe(V1.ExpectImpl(v, filename, line), expected, render).thrown;
              var b := Cest.ToBe(Cest.ExpectImpl(v, filename, line), expected, render).thrown;
              a.file == b.file && a.line == b.line && a.expectedRepr == b.expectedRepr && a.resultRepr == b.resultRepr
    ensures V1.ToPass(V1.ExpectImpl(v, filename, line), pred, render).Throw? ==>
              var a := V1.ToPass(V1.ExpectImpl(v, filename, line), pred, render).thrown;
              var b := Cest.ToPass(Cest.ExpectImpl(v, filename, line), pred, render).thrown;
              a.file == b.file && a.line == b.line && a.expectedRepr == b.expectedRepr && a.resultRepr == b.resultRepr
  {
  }

  /**
    The two versions show the same verdict glyph for every kind of outcome but a
    standard exception, for which the earlier one shows the fail glyph and the
    current one the pass glyph.
   */
  lemma VerdictsDifferOnlyOnStdException(name: string, filename: string, line: int, duration: string,
                                         o1: Outcome<V1.TestFailure>, o2: Outcome<Cest.TestFailure>)
    requires SameCase(o1, o2)
    ensures V1.PassHead == Message.PassHead && V1.FailHead == Message.FailHead
    ensures (StartsWith(V1.AllLines(V1.Report(name, filename, line, o1))[0], V1.PassHead)
             == StartsWith(Cest.AllLines(Cest.Report(name, filename, line, duration, o2))[0], Message.PassHead))
            <==> !o1.ThrewStd?
    ensures StartsWith(V1.AllLines(V1.Report(name, filename, line, o1))[0], V1.PassHead)
            == StartsWith(Cest.AllLines(Cest.CorrectedReport(name, filename, line, duration, o2))[0], Message.PassHead)
  {
    V1.BannerVerdict(name, filename, line, o1);
    Cest.BannerVerdict(name, filename, line, duration, o2);
    Cest.CorrectedBannerVerdict(name, filename, line, duration, o2);
  }
}
