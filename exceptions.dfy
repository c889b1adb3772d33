/**
  The C++ exception mechanism the runtime relies on, as values. A matcher call
  either returns or throws; a test body is a sequence of statements that stops at
  the first one that throws; and the try/catch in `testImpl` sorts what the body
  did into one of four cases, by the order of its catch clauses.
 */
module Exceptions {

  /** How a call that may throw an `F` ends. */
  datatype Completion<F> = Normal | Throw(thrown: F)

  /**
    What running a test body amounts to, as the catch clauses see it: it returned;
    it threw the runtime's failure record (`catch (const TestFailure&)`); it threw
    something derived from `std::exception`, of which the runner sees only the
    description of its sliced copy (`catch (std::exception e)`); or it threw
    anything else (`catch (...)`).
   */
  datatype Outcome<F> = Completed | ThrewFailure(failure: F) | ThrewStd(what: string) | ThrewOther

  /**
    One statement of a test body: a matcher call, a `throw` of a standard
    exception (carrying the text `what()` gives on the caught copy), or a `throw`
    of any other value.
   */
  datatype Step<F> = Check(completion: Completion<F>) | RaiseStd(what: string) | RaiseOther

  predicate Returns<F>(s: Step<F>) {
    s.Check? && s.completion.Normal?
  }

  /** The outcome a statement throws with; for a statement that returns, Completed. */
  function Raised<F>(s: Step<F>): Outcome<F> {
    match s
    case Check(Normal) => Completed
    case Check(Throw(f)) => ThrewFailure(f)
    case RaiseStd(what) => ThrewStd(what)
    case RaiseOther => ThrewOther
  }

  /**
    Runs a body: the outcome is Completed exactly when every statement returns;
    otherwise it is what the first statement that does not return throws, and the
    statements after it never run.
   */
  function Run<F>(body: seq<Step<F>>): (r: Outcome<F>)
    ensures r.Completed? <==> forall i :: 0 <= i < |body| ==> Returns(body[i])
    ensures !r.Completed? ==>
              exists i :: 0 <= i < |body| && r == Raised(body[i]) && !Returns(body[i])
                          && forall j :: 0 <= j < i ==> Returns(body[j])
  {
    if |body| == 0 then Completed
    else if Returns(body[0]) then
      var r := Run(body[1..]);
      assert forall i :: 1 <= i < |body| ==> body[i] == body[1..][i - 1];
      assert !r.Completed? ==>
               exists i :: 0 <= i < |body| && r == Raised(body[i]) && !Returns(body[i])
                           && forall j :: 0 <= j < i ==> Returns(body[j]) by {
        if !r.Completed? {
          var k :| 0 <= k < |body[1..]| && r == Raised(body[1..][k]) && !Returns(body[1..][k])
                   && forall j :: 0 <= j < k ==> Returns(body[1..][j]);
          assert r == Raised(body[k + 1]) && forall j :: 0 <= j < k + 1 ==> Returns(body[j]);
        }
      }
      r
    else Raised(body[0])
  }

  /** Statements after the first one that throws make no difference. */
  lemma {:induction false} RunStopsAtFirstThrow<F>(before: seq<Step<F>>, s: Step<F>, after: seq<Step<F>>)
    requires forall i :: 0 <= i < |before| ==> Returns(before[i])
    requires !Returns(s)
    ensures Run(before + [s] + after) == Raised(s)
  {
    if |before| > 0 {
      assert (before + [s] + after)[1..] == before[1..] + [s] + after;
      RunStopsAtFirstThrow(before[1..], s, after);
    }
  }
}
