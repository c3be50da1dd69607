/**
 * The parameter state of the Gaussian neighborhood operator: the variance of
 * the Gaussian and the maximum error allowed in its discrete approximation,
 * with their defaults, copy semantics and the validating setter.
 */
module GaussianOperators {
  import opened Wrappers

  /** What the maximum-error setter throws. */
  datatype ExceptionObject = ExceptionObject

  /** The two parameters of the operator. */
  datatype Settings = Settings(variance: real, maximumError: real)

  /** The parameters of a freshly constructed operator. */
  const Default := Settings(1.0, 0.01)

  /** A usable maximum error lies strictly between 0 and 1. */
  predicate InRange(e: real) {
    0.0 < e < 1.0
  }

  /**
   * Setting the maximum error as the operator does it: the check is made on
   * the value already stored, not on the argument; when the check passes the
   * argument is stored whatever it is.
   */
  function TrySetMaximumError(s: Settings, e: real): (r: Result<Settings, ExceptionObject>)
    ensures r.Failure? <==> !InRange(s.maximumError)
    ensures r.Success? ==> r.value.maximumError == e && r.value.variance == s.variance
  {
    if s.maximumError >= 1.0 || s.maximumError <= 0.0 then Failure(ExceptionObject)
    else Success(s.(maximumError := e))
  }

  /** The state after one call whose exception, if any, the caller catches. */
  function AfterSetMaximumError(s: Settings, e: real): (t: Settings)
    ensures t.variance == s.variance
    ensures t == s || t.maximumError == e
  {
    match TrySetMaximumError(s, e)
    case Success(u) => u
    case Failure(_) => s
  }

  /** The state after a sequence of such calls. */
  function Replay(s: Settings, calls: seq<real>): (t: Settings)
    ensures t.variance == s.variance
    decreases |calls|
  {
    if |calls| == 0 then s else Replay(AfterSetMaximumError(s, calls[0]), calls[1..])
  }

  /** From the defaults the first call always succeeds, whatever its argument. */
  lemma FirstCallSucceeds(e: real)
    ensures TrySetMaximumError(Default, e) == Success(Settings(1.0, e))
  {
  }

  /** Once an out-of-range value is stored, every later call throws and nothing changes. */
  lemma {:induction false} StuckOutOfRange(s: Settings, calls: seq<real>)
    requires !InRange(s.maximumError)
    ensures Replay(s, calls) == s
    decreases |calls|
  {
    if |calls| > 0 {
      StuckOutOfRange(AfterSetMaximumError(s, calls[0]), calls[1..]);
    }
  }

  /**
   * While the stored value and every argument but the last are in range,
   * each call succeeds, so the last argument is the one that stays, in range
   * or not.
   */
  lemma {:induction false} LastCallStays(s: Settings, calls: seq<real>)
    requires InRange(s.maximumError) && |calls| > 0
    requires forall i :: 0 <= i < |calls| - 1 ==> InRange(calls[i])
    ensures Replay(s, calls) == Settings(s.variance, calls[|calls| - 1])
    decreases |calls|
  {
    if |calls| > 1 {
      LastCallStays(AfterSetMaximumError(s, calls[0]), calls[1..]);
    }
  }

  /**
   * As written, an out-of-range value is accepted and then blocks a valid
   * one: from the defaults, setting 5 and then 0.5 leaves 5 stored.
   */
  lemma ValidValueRejected()
    ensures TrySetMaximumError(Default, 5.0).Success?
    ensures TrySetMaximumError(Settings(1.0, 5.0), 0.5).Failure?
    ensures Replay(Default, [5.0, 0.5]) == Settings(1.0, 5.0)
  {
    assert [5.0, 0.5][1..] == [0.5];
  }

  /** The setter as intended: the argument is checked, and stored only when in range. */
  function TrySetMaximumErrorChecked(s: Settings, e: real): (r: Result<Settings, ExceptionObject>)
    ensures r.Failure? <==> !InRange(e)
    ensures r.Success? ==> r.value == Settings(s.variance, e)
  {
    if e >= 1.0 || e <= 0.0 then Failure(ExceptionObject)
    else Success(s.(maximumError := e))
  }

  /** The state after a sequence of checked calls whose exceptions the caller catches. */
  function ReplayChecked(s: Settings, calls: seq<real>): (t: Settings)
    ensures t.variance == s.variance
    decreases |calls|
  {
    if |calls| == 0 then s
    else
      var next := match TrySetMaximumErrorChecked(s, calls[0]) case Success(u) => u case Failure(_) => s;
      ReplayChecked(next, calls[1..])
  }

  /**
   * With the check on the argument the stored value stays in range, and
   * equals the last in-range argument, or the starting value if there was none.
   */
  lemma {:induction false} ReplayCheckedKeepsRange(s: Settings, calls: seq<real>)
    requires InRange(s.maximumError)
    ensures InRange(ReplayChecked(s, calls).maximumError)
    ensures ReplayChecked(s, calls).maximumError == s.maximumError
         || exists i :: 0 <= i < |calls| && InRange(calls[i]) && ReplayChecked(s, calls).maximumError == calls[i]
    decreases |calls|
  {
    if |calls| > 0 {
      var next := match TrySetMaximumErrorChecked(s, calls[0]) case Success(u) => u case Failure(_) => s;
      ReplayCheckedKeepsRange(next, calls[1..]);
      var t := ReplayChecked(s, calls);
      assert t == ReplayChecked(next, calls[1..]);
      if t.maximumError != next.maximumError {
        var i :| 0 <= i < |calls[1..]| && InRange(calls[1..][i]) && t.maximumError == calls[1..][i];
        assert calls[i + 1] == calls[1..][i];
      } else if t.maximumError != s.maximumError {
        assert next.maximumError == calls[0];
      }
    }
  }

  /** The operator's parameter fields, updated in place. */
  class GaussianOperator {
    var variance: real
    var maximumError: real

    /** Both parameters as a value. */
    function State(): (s: Settings)
      reads this
      ensures s.variance == variance && s.maximumError == maximumError
    {
      Settings(variance, maximumError)
    }

    /** A new operator has variance 1 and maximum error 0.01. */
    constructor ()
      ensures State() == Default
    {
      variance := 1.0;
      maximumError := 0.01;
    }

    /** The copy constructor copies both parameters. */
    constructor Copy(other: GaussianOperator)
      ensures State() == other.State()
    {
      variance := other.variance;
      maximumError := other.maximumError;
    }

    /** Assignment copies both parameters and returns the assigned operator. */
    method Assign(other: GaussianOperator) returns (self: GaussianOperator)
      modifies this
      ensures self == this
      ensures State() == old(other.State())
    {
      variance := other.variance;
      maximumError := other.maximumError;
      self := this;
    }

    /** The variance last stored. */
    function GetVariance(): (v: real)
      reads this
      ensures v == State().variance
    {
      variance
    }

    /** The maximum error last stored. */
    function GetMaximumError(): (e: real)
      reads this
      ensures e == State().maximumError
    {
      maximumError
    }

    /** The variance is stored unchecked; the maximum error is kept. */
    method SetVariance(v: real)
      modifies this
      ensures GetVariance() == v
      ensures GetMaximumError() == old(GetMaximumError())
    {
      variance := v;
    }

    /**
     * Throws, changing nothing, exactly when the stored maximum error is out
     * of range; otherwise stores the argument.
     */
    method SetMaximumError(e: real) returns (outcome: Outcome<ExceptionObject>)
      modifies this
      ensures outcome.Fail? <==> !InRange(old(maximumError))
      ensures outcome.Fail? ==> outcome.error == ExceptionObject
      ensures State() == AfterSetMaximumError(old(State()), e)
    {
      if maximumError >= 1.0 || maximumError <= 0.0 {
        return Fail(ExceptionObject);
      }
      maximumError := e;
      outcome := Pass;
    }
  }
}
