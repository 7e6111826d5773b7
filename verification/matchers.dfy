/** The argument-matcher algebra: a matcher is a predicate over one call
    argument which, on mismatch, explains what did not match. */
module Matchers {
  import opened Outcomes
  import opened Text

  /** The argument type of the matcher algebra: Rust's `u32`. */
  type U32 = x: nat | x < 0x1_0000_0000

  /** The address of a node inside a matcher tree: the child indices taken
      from the root (`0` for the operand of `not` and the left operand of
      `and`/`or`, `1` for the right operand). */
  type Path = seq<nat>

  datatype Matcher =
    | Value(expected: U32)            // a bare value used as a matcher: equality
    | Any                             // `ANY`
    | Eq(v: U32)
    | Ne(v: U32)
    | Lt(v: U32)
    | Le(v: U32)
    | Gt(v: U32)
    | Ge(v: U32)
    | Not(inner: Matcher)
    | And(left: Matcher, right: Matcher)
    | Or(left: Matcher, right: Matcher)

  /** What `describe` renders. A bare value renders as the value itself and
      `ANY` as `_`; `ge(v)` renders as `lt(v)`, which is the text the `not`
      mismatch message is pinned to. */
  function Describe(m: Matcher): (r: string)
    ensures |r| >= 1
    ensures r == "_" <==> m.Any?
    ensures m.Value? || !('0' <= r[0] <= '9')
    ensures IsDigits(r) <==> m.Value?
    ensures m.Value? ==> Read(r) == m.expected
  {
    match m
    case Value(v) => ReadShow(v); Show(v)
    case Any => assert "_"[0] == '_'; "_"
    case Eq(v) => "eq(" + Show(v) + ")"
    case Ne(v) => "ne(" + Show(v) + ")"
    case Lt(v) => "lt(" + Show(v) + ")"
    case Le(v) => "le(" + Show(v) + ")"
    case Gt(v) => "gt(" + Show(v) + ")"
    case Ge(v) => "lt(" + Show(v) + ")"
    case Not(inner) => "not(" + Describe(inner) + ")"
    case And(l, r) => "and(" + Describe(l) + ", " + Describe(r) + ")"
    case Or(l, r) => "or(" + Describe(l) + ", " + Describe(r) + ")"
  }

  /** Reference semantics: whether the argument satisfies the matcher, with
      no messages and no evaluation order. */
  predicate Holds(m: Matcher, arg: U32)
  {
    match m
    case Value(v) => arg == v
    case Any => true
    case Eq(v) => arg == v
    case Ne(v) => arg != v
    case Lt(v) => arg < v
    case Le(v) => arg <= v
    case Gt(v) => arg > v
    case Ge(v) => arg >= v
    case Not(inner) => !Holds(inner, arg)
    case And(l, r) => Holds(l, arg) && Holds(r, arg)
    case Or(l, r) => Holds(l, arg) || Holds(r, arg)
  }

  /** The outcome of one `matches` call on a matcher tree, together with the
      nodes whose `matches` ran, in the order they ran. */
  datatype Evaluation = Evaluation(verdict: Result<()>, visited: seq<Path>)

  /** The paths `ps` re-rooted under child `i`. */
  function Under(i: nat, ps: seq<Path>): (r: seq<Path>)
    ensures |r| == |ps|
    ensures forall k :: 0 <= k < |ps| ==> r[k] == [i] + ps[k]
  {
    seq(|ps|, k requires 0 <= k < |ps| => [i] + ps[k])
  }

  /** A comparison matcher: no operands, its verdict is the comparison. */
  function Compare(ok: bool, arg: U32, phrase: string, v: U32): Evaluation
  {
    Evaluation(if ok then Ok(()) else Err(Show(arg) + phrase + Show(v)), [[]])
  }

  /** `matches` on a matcher tree. `and` stops at a failing left operand and
      `or` at a succeeding one: the right operand is then never evaluated. */
  function Eval(m: Matcher, arg: U32): (e: Evaluation)
    ensures |e.visited| >= 1 && e.visited[0] == []
    ensures m.Any? ==> e.verdict.Ok?
    ensures e.verdict.Err? ==> Show(arg) <= e.verdict.message
  {
    match m
    case Value(v) => Compare(arg == v, arg, " is not equal to ", v)
    case Any => Evaluation(Ok(()), [[]])
    case Eq(v) => Compare(arg == v, arg, " is not equal to ", v)
    case Ne(v) => Compare(arg != v, arg, " is equal to ", v)
    case Lt(v) => Compare(arg < v, arg, " is not less than ", v)
    case Le(v) => Compare(arg <= v, arg, " is not less than or equal to ", v)
    case Gt(v) => Compare(arg > v, arg, " is not greater than ", v)
    case Ge(v) => Compare(arg >= v, arg, " is not greater than or equal to ", v)
    case Not(inner) =>
      var ei := Eval(inner, arg);
      var verdict := if ei.verdict.Ok?
        then Err(Show(arg) + " matches (but shouldn't): " + Describe(inner))
        else Ok(());
      Evaluation(verdict, [[]] + Under(0, ei.visited))
    case And(l, r) =>
      var el := Eval(l, arg);
      if el.verdict.Err? then
        Evaluation(el.verdict, [[]] + Under(0, el.visited))
      else
        var er := Eval(r, arg);
        Evaluation(er.verdict, [[]] + Under(0, el.visited) + Under(1, er.visited))
    case Or(l, r) =>
      var el := Eval(l, arg);
      if el.verdict.Ok? then
        Evaluation(Ok(()), [[]] + Under(0, el.visited))
      else
        var er := Eval(r, arg);
        Evaluation(er.verdict, [[]] + Under(0, el.visited) + Under(1, er.visited))
  }

  /** The evaluation succeeds exactly when the reference semantics holds. */
  lemma {:induction false} EvalAgreesWithHolds(m: Matcher, arg: U32)
    ensures Eval(m, arg).verdict.Ok? <==> Holds(m, arg)
  {
    match m
    case Not(inner) => EvalAgreesWithHolds(inner, arg);
    case And(l, r) => EvalAgreesWithHolds(l, arg); EvalAgreesWithHolds(r, arg);
    case Or(l, r) => EvalAgreesWithHolds(l, arg); EvalAgreesWithHolds(r, arg);
    case _ =>
  }

  /** The mismatch texts of the comparison matchers and of the bare value. */
  lemma ComparisonVerdicts(v: U32, arg: U32)
    ensures Eval(Value(v), arg).verdict ==
      if arg == v then Ok(()) else Err(Show(arg) + " is not equal to " + Show(v))
    ensures Eval(Eq(v), arg).verdict ==
      if arg == v then Ok(()) else Err(Show(arg) + " is not equal to " + Show(v))
    ensures Eval(Ne(v), arg).verdict ==
      if arg != v then Ok(()) else Err(Show(arg) + " is equal to " + Show(v))
    ensures Eval(Lt(v), arg).verdict ==
      if arg < v then Ok(()) else Err(Show(arg) + " is not less than " + Show(v))
    ensures Eval(Le(v), arg).verdict ==
      if arg <= v then Ok(()) else Err(Show(arg) + " is not less than or equal to " + Show(v))
    ensures Eval(Gt(v), arg).verdict ==
      if arg > v then Ok(()) else Err(Show(arg) + " is not greater than " + Show(v))
    ensures Eval(Ge(v), arg).verdict ==
      if arg >= v then Ok(()) else Err(Show(arg) + " is not greater than or equal to " + Show(v))
  {
    assert Eval(Value(v), arg) == Compare(arg == v, arg, " is not equal to ", v);
    assert Eval(Eq(v), arg) == Compare(arg == v, arg, " is not equal to ", v);
    assert Eval(Ne(v), arg) == Compare(arg != v, arg, " is equal to ", v);
    assert Eval(Lt(v), arg) == Compare(arg < v, arg, " is not less than ", v);
    assert Eval(Le(v), arg) == Compare(arg <= v, arg, " is not less than or equal to ", v);
    assert Eval(Gt(v), arg) == Compare(arg > v, arg, " is not greater than ", v);
    assert Eval(Ge(v), arg) == Compare(arg >= v, arg, " is not greater than or equal to ", v);
  }

  /** `ANY` accepts every argument and describes itself as `_`; a bare value
      describes itself as its own rendering. */
  lemma AnyAndValue(v: U32, arg: U32)
    ensures Eval(Any, arg).verdict == Ok(())
    ensures Describe(Any) == "_"
    ensures Describe(Value(v)) == Show(v)
  {
  }

  /** `ge(v)` describes itself as `lt(v)` does, although the two accept
      different arguments: a description alone cannot tell them apart. */
  lemma GeDescribedAsLt(v: U32)
    ensures Describe(Ge(v)) == Describe(Lt(v))
    ensures Holds(Ge(v), v) && !Holds(Lt(v), v)
  {
  }

  /** `not(m)` succeeds exactly when `m` does not hold, and otherwise names
      the argument and the description of `m`. */
  lemma NotVerdict(m: Matcher, arg: U32)
    ensures Eval(Not(m), arg).verdict ==
      if Holds(m, arg) then Err(Show(arg) + " matches (but shouldn't): " + Describe(m))
      else Ok(())
  {
    EvalAgreesWithHolds(m, arg);
  }

  /** `and(l, r)` reports `l`'s mismatch when `l` fails and `r`'s verdict
      otherwise; when `l` fails, nothing under `r` is evaluated. */
  lemma AndVerdict(l: Matcher, r: Matcher, arg: U32)
    ensures Eval(And(l, r), arg).verdict ==
      if Holds(l, arg) then Eval(r, arg).verdict else Eval(l, arg).verdict
    ensures !Holds(l, arg) ==>
      forall p :: p in Eval(And(l, r), arg).visited ==> p == [] || p[0] == 0
  {
    EvalAgreesWithHolds(l, arg);
  }

  /** `or(l, r)` succeeds without evaluating anything under `r` when `l`
      holds, and otherwise reports `r`'s verdict. */
  lemma OrVerdict(l: Matcher, r: Matcher, arg: U32)
    ensures Eval(Or(l, r), arg).verdict ==
      if Holds(l, arg) then Ok(()) else Eval(r, arg).verdict
    ensures Holds(l, arg) ==>
      forall p :: p in Eval(Or(l, r), arg).visited ==> p == [] || p[0] == 0
  {
    EvalAgreesWithHolds(l, arg);
  }

  /** Reference for short-circuit evaluation: the node at `p` must be
      evaluated iff every `and` on the way to it whose right operand is taken
      has a holding left operand, and every such `or` a failing one. */
  ghost predicate Demanded(m: Matcher, arg: U32, p: Path)
    decreases m
  {
    if p == [] then true
    else match m
      case Not(inner) => p[0] == 0 && Demanded(inner, arg, p[1..])
      case And(l, r) =>
        || (p[0] == 0 && Demanded(l, arg, p[1..]))
        || (p[0] == 1 && Holds(l, arg) && Demanded(r, arg, p[1..]))
      case Or(l, r) =>
        || (p[0] == 0 && Demanded(l, arg, p[1..]))
        || (p[0] == 1 && !Holds(l, arg) && Demanded(r, arg, p[1..]))
      case _ => false
  }

  lemma InUnder(i: nat, ps: seq<Path>, p: Path)
    ensures p in Under(i, ps) <==> |p| > 0 && p[0] == i && p[1..] in ps
  {
    var u := Under(i, ps);
    if p in u {
      var k :| 0 <= k < |u| && u[k] == p;
      assert p[1..] == ps[k];
    }
    if |p| > 0 && p[0] == i && p[1..] in ps {
      var k :| 0 <= k < |ps| && ps[k] == p[1..];
      assert u[k] == [i] + p[1..] == p;
    }
  }

  /** Short-circuit evaluation, exactly: a node is evaluated iff it is demanded. */
  lemma {:induction false} VisitedIffDemanded(m: Matcher, arg: U32, p: Path)
    ensures p in Eval(m, arg).visited <==> Demanded(m, arg, p)
    decreases m
  {
    if p != [] {
      match m
      case Not(inner) =>
        InUnder(0, Eval(inner, arg).visited, p);
        VisitedIffDemanded(inner, arg, p[1..]);
      case And(l, r) =>
        EvalAgreesWithHolds(l, arg);
        InUnder(0, Eval(l, arg).visited, p);
        InUnder(1, Eval(r, arg).visited, p);
        VisitedIffDemanded(l, arg, p[1..]);
        VisitedIffDemanded(r, arg, p[1..]);
      case Or(l, r) =>
        EvalAgreesWithHolds(l, arg);
        InUnder(0, Eval(l, arg).visited, p);
        InUnder(1, Eval(r, arg).visited, p);
        VisitedIffDemanded(l, arg, p[1..]);
        VisitedIffDemanded(r, arg, p[1..]);
      case _ =>
    }
  }
}
