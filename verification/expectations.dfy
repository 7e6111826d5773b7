/** One expected call: which mock, which method, one matcher per argument,
    and the value the call returns when the expectation is met. The
    zero-, one- and two-argument variants of the source are one datatype
    here, with the matchers in argument order. */
module Expectations {
  import opened Outcomes
  import opened Matchers

  datatype Expectation<R> = Expectation(mockId: nat, methodName: string, matchers: seq<Matcher>, result: R)

  /** The verdict of applying matchers to arguments, with how many matchers
      were applied. */
  datatype ArgsReport = ArgsReport(verdict: Result<()>, consulted: nat)

  /** Applies `ms[i]` to `args[i]` from left to right and stops at the first
      mismatch, whose message becomes the verdict. */
  function MatchArgs(ms: seq<Matcher>, args: seq<U32>): (r: ArgsReport)
    requires |ms| == |args|
    ensures r.consulted <= |ms|
    ensures r.verdict.Ok? <==>
      r.consulted == |ms| && forall i :: 0 <= i < |ms| ==> Holds(ms[i], args[i])
    ensures r.verdict.Err? ==>
      && 0 < r.consulted
      && (forall i :: 0 <= i < r.consulted - 1 ==> Holds(ms[i], args[i]))
      && !Holds(ms[r.consulted - 1], args[r.consulted - 1])
      && r.verdict == Eval(ms[r.consulted - 1], args[r.consulted - 1]).verdict
  {
    if |ms| == 0 then ArgsReport(Ok(()), 0)
    else
      EvalAgreesWithHolds(ms[0], args[0]);
      var head := Eval(ms[0], args[0]).verdict;
      if head.Err? then ArgsReport(head, 1)
      else
        var rest := MatchArgs(ms[1..], args[1..]);
        assert forall i :: 1 <= i < |ms| ==> ms[1..][i - 1] == ms[i] && args[1..][i - 1] == args[i];
        ArgsReport(rest.verdict, rest.consulted + 1)
  }

  /** Whether `i` is the position of the first argument its matcher rejects. */
  ghost predicate FirstMismatch(ms: seq<Matcher>, args: seq<U32>, i: int)
    requires |ms| == |args|
  {
    && 0 <= i < |ms|
    && (forall j :: 0 <= j < i ==> Holds(ms[j], args[j]))
    && !Holds(ms[i], args[i])
  }

  /** Checks a call's arguments against the expectation: the stored result
      when every matcher accepts its argument, otherwise the message of the
      first matcher that rejects. */
  function Check<R>(e: Expectation<R>, args: seq<U32>): (r: Result<R>)
    requires |args| == |e.matchers|
    ensures r.Ok? <==> forall i :: 0 <= i < |args| ==> Holds(e.matchers[i], args[i])
    ensures r.Ok? ==> r.value == e.result
    ensures r.Err? ==> exists i ::
      FirstMismatch(e.matchers, args, i) && Eval(e.matchers[i], args[i]).verdict == Err(r.message)
  {
    var report := MatchArgs(e.matchers, args);
    if report.verdict.Ok? then Ok(e.result)
    else
      assert FirstMismatch(e.matchers, args, report.consulted - 1);
      Err(report.verdict.message)
  }

  /** An expectation without arguments returns its result unconditionally. */
  lemma NoArgumentsAlwaysReturn<R>(e: Expectation<R>)
    requires |e.matchers| == 0
    ensures Check(e, []) == Ok(e.result)
  {
  }

  /** Matchers after the first rejecting one are never applied: changing
      them, or the arguments they would see, changes nothing. */
  lemma {:induction false} LaterMatchersIgnored(ms: seq<Matcher>, args: seq<U32>, ms': seq<Matcher>, args': seq<U32>, k: nat)
    requires |ms| == |args| && |ms'| == |args'|
    requires k < |ms| && k < |ms'|
    requires ms[..k + 1] == ms'[..k + 1] && args[..k + 1] == args'[..k + 1]
    requires !Holds(ms[k], args[k])
    ensures MatchArgs(ms, args) == MatchArgs(ms', args')
    decreases k
  {
    assert ms[0] == ms'[0] && args[0] == args'[0] by {
      assert ms[0] == ms[..k + 1][0] && ms'[0] == ms'[..k + 1][0];
      assert args[0] == args[..k + 1][0] && args'[0] == args'[..k + 1][0];
    }
    EvalAgreesWithHolds(ms[0], args[0]);
    if k > 0 && Holds(ms[0], args[0]) {
      assert ms[1..][..k] == ms[..k + 1][1..] == ms'[..k + 1][1..] == ms'[1..][..k];
      assert args[1..][..k] == args[..k + 1][1..] == args'[..k + 1][1..] == args'[1..][..k];
      LaterMatchersIgnored(ms[1..], args[1..], ms'[1..], args'[1..], k - 1);
    }
  }
}
