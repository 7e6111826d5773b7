/** The matcher test suite's assertions, one lemma per test, restated over
    the model. */
module MatcherTests {
  import opened Outcomes
  import opened Matchers
  import opened Text

  /** `eq(2)` accepts 2. */
  lemma EqMatcherMatch()
    ensures Eval(Eq(2), 2).verdict == Ok(())
  {
    assert Eval(Eq(2), 2) == Compare(true, 2, " is not equal to ", 2);
  }

  /** `eq(2)` rejects 3 with the test's exact message. */
  lemma EqMatcherMismatch()
    ensures Eval(Eq(2), 3).verdict == Err("3 is not equal to 2")
  {
    assert Eval(Eq(2), 3) == Compare(false, 3, " is not equal to ", 2);
    EqMismatchText(Show(3), Show(2));
  }

  /** `ne(2)` accepts 3. */
  lemma NeMatcherMatch()
    ensures Eval(Ne(2), 3).verdict == Ok(())
  {
    assert Eval(Ne(2), 3) == Compare(true, 3, " is equal to ", 2);
  }

  /** `ne(2)` rejects 2 with the test's exact message. */
  lemma NeMatcherMismatch()
    ensures Eval(Ne(2), 2).verdict == Err("2 is equal to 2")
  {
    assert Eval(Ne(2), 2) == Compare(false, 2, " is equal to ", 2);
    NeMismatchText(Show(2), Show(2));
  }

  /** `lt(2)` accepts 1. */
  lemma LtMatcherMatch()
    ensures Eval(Lt(2), 1).verdict == Ok(())
  {
    assert Eval(Lt(2), 1) == Compare(true, 1, " is not less than ", 2);
  }

  /** `lt(2)` rejects 2 with the test's exact message. */
  lemma LtMatcherMismatch()
    ensures Eval(Lt(2), 2).verdict == Err("2 is not less than 2")
  {
    assert Eval(Lt(2), 2) == Compare(false, 2, " is not less than ", 2);
    LtMismatchText(Show(2), Show(2));
  }

  /** `le(2)` accepts 1 and 2. */
  lemma LeMatcherMatch()
    ensures Eval(Le(2), 1).verdict == Ok(())
    ensures Eval(Le(2), 2).verdict == Ok(())
  {
    assert Eval(Le(2), 1) == Compare(true, 1, " is not less than or equal to ", 2);
    assert Eval(Le(2), 2) == Compare(true, 2, " is not less than or equal to ", 2);
  }

  /** `le(2)` rejects 3 with the test's exact message. */
  lemma LeMatcherMismatch()
    ensures Eval(Le(2), 3).verdict == Err("3 is not less than or equal to 2")
  {
    assert Eval(Le(2), 3) == Compare(false, 3, " is not less than or equal to ", 2);
    LeMismatchText(Show(3), Show(2));
  }

  /** `gt(2)` accepts 3. */
  lemma GtMatcherMatch()
    ensures Eval(Gt(2), 3).verdict == Ok(())
  {
    assert Eval(Gt(2), 3) == Compare(true, 3, " is not greater than ", 2);
  }

  /** `gt(2)` rejects 2 with the test's exact message. */
  lemma GtMatcherMismatch()
    ensures Eval(Gt(2), 2).verdict == Err("2 is not greater than 2")
  {
    assert Eval(Gt(2), 2) == Compare(false, 2, " is not greater than ", 2);
    GtMismatchText(Show(2), Show(2));
  }

  /** `ge(2)` accepts 2 and 3. */
  lemma GeMatcherMatch()
    ensures Eval(Ge(2), 2).verdict == Ok(())
    ensures Eval(Ge(2), 3).verdict == Ok(())
  {
    assert Eval(Ge(2), 2) == Compare(true, 2, " is not greater than or equal to ", 2);
    assert Eval(Ge(2), 3) == Compare(true, 3, " is not greater than or equal to ", 2);
  }

  /** `ge(2)` rejects 1 with the test's exact message. */
  lemma GeMatcherMismatch()
    ensures Eval(Ge(2), 1).verdict == Err("1 is not greater than or equal to 2")
  {
    assert Eval(Ge(2), 1) == Compare(false, 1, " is not greater than or equal to ", 2);
    GeMismatchText(Show(1), Show(2));
  }

  /** `not(ge(2))` accepts 1. */
  lemma NotMatcherMatch()
    ensures Eval(Not(Ge(2)), 1).verdict == Ok(())
  {
    assert Eval(Ge(2), 1) == Compare(false, 1, " is not greater than or equal to ", 2);
  }

  /** `not(ge(2))` rejects 2; the description of `ge(2)` in the message reads
      `lt(2)`, as the test expects. */
  lemma NotMatcherMismatch()
    ensures Eval(Not(Ge(2)), 2).verdict == Err("2 matches (but shouldn't): lt(2)")
  {
    assert Eval(Ge(2), 2) == Compare(true, 2, " is not greater than or equal to ", 2);
    assert Describe(Ge(2)) == "lt(" + Show(2) + ")";
    NotMismatchText(Show(2), Show(2));
  }

  /** `and(gt(2), lt(5))` accepts 3. */
  lemma AndMatcherMatch()
    ensures Eval(And(Gt(2), Lt(5)), 3).verdict == Ok(())
  {
    assert Eval(Gt(2), 3) == Compare(true, 3, " is not greater than ", 2);
    assert Eval(Lt(5), 3) == Compare(true, 3, " is not less than ", 5);
  }

  /** `and(gt(2), m)` rejects 1 with `gt(2)`'s message whatever `m` is (the test
      uses a matcher that aborts when evaluated): only the root and the left
      operand are evaluated. */
  lemma AndMatcherShortCircuit(unreachable: Matcher)
    ensures Eval(And(Gt(2), unreachable), 1) == Evaluation(Err("1 is not greater than 2"), [[], [0]])
  {
    assert Eval(Gt(2), 1) == Compare(false, 1, " is not greater than ", 2);
    assert Under(0, [[]])[0] == [0];
    AndShortCircuitText(Show(1), Show(2));
  }

  /** `and(gt(2), lt(5))` rejects 6 with `lt(5)`'s message. */
  lemma AndMatcherMismatch()
    ensures Eval(And(Gt(2), Lt(5)), 6).verdict == Err("6 is not less than 5")
  {
    assert Eval(Gt(2), 6) == Compare(true, 6, " is not greater than ", 2);
    assert Eval(Lt(5), 6) == Compare(false, 6, " is not less than ", 5);
    AndMismatchText(Show(6), Show(5));
  }

  /** `or(lt(2), gt(5))` accepts 1. */
  lemma OrMatcherMatch()
    ensures Eval(Or(Lt(2), Gt(5)), 1).verdict == Ok(())
  {
    assert Eval(Lt(2), 1) == Compare(true, 1, " is not less than ", 2);
  }

  /** `or(lt(2), m)` accepts 1 whatever `m` is: only the root and the left
      operand are evaluated. */
  lemma OrMatcherShortCircuit(unreachable: Matcher)
    ensures Eval(Or(Lt(2), unreachable), 1) == Evaluation(Ok(()), [[], [0]])
  {
    assert Eval(Lt(2), 1) == Compare(true, 1, " is not less than ", 2);
    assert Under(0, [[]])[0] == [0];
  }

  /** `or(lt(2), gt(5))` rejects 4 with `gt(5)`'s message. */
  lemma OrMatcherMismatch()
    ensures Eval(Or(Lt(2), Gt(5)), 4).verdict == Err("4 is not greater than 5")
  {
    assert Eval(Lt(2), 4) == Compare(false, 4, " is not less than ", 2);
    assert Eval(Gt(5), 4) == Compare(false, 4, " is not greater than ", 5);
    OrMismatchText(Show(4), Show(5));
  }

  // The messages above with their single-digit values spelled out. Each
  // takes the renderings as parameters, so that the literal comparison is
  // proved apart from the evaluation facts and stays cheap.

  lemma EqMismatchText(arg: string, bound: string)
    requires arg == "3" && bound == "2"
    ensures arg + " is not equal to " + bound == "3 is not equal to 2"
  {
  }

  lemma NeMismatchText(arg: string, bound: string)
    requires arg == "2" && bound == "2"
    ensures arg + " is equal to " + bound == "2 is equal to 2"
  {
  }

  lemma LtMismatchText(arg: string, bound: string)
    requires arg == "2" && bound == "2"
    ensures arg + " is not less than " + bound == "2 is not less than 2"
  {
  }

  lemma LeMismatchText(arg: string, bound: string)
    requires arg == "3" && bound == "2"
    ensures arg + " is not less than or equal to " + bound == "3 is not less than or equal to 2"
  {
  }

  lemma GtMismatchText(arg: string, bound: string)
    requires arg == "2" && bound == "2"
    ensures arg + " is not greater than " + bound == "2 is not greater than 2"
  {
  }

  lemma GeMismatchText(arg: string, bound: string)
    requires arg == "1" && bound == "2"
    ensures arg + " is not greater than or equal to " + bound == "1 is not greater than or equal to 2"
  {
  }

  lemma NotMismatchText(arg: string, bound: string)
    requires arg == "2" && bound == "2"
    ensures arg + " matches (but shouldn't): " + ("lt(" + bound + ")") == "2 matches (but shouldn't): lt(2)"
  {
  }

  lemma AndShortCircuitText(arg: string, bound: string)
    requires arg == "1" && bound == "2"
    ensures arg + " is not greater than " + bound == "1 is not greater than 2"
  {
  }

  lemma AndMismatchText(arg: string, bound: string)
    requires arg == "6" && bound == "5"
    ensures arg + " is not less than " + bound == "6 is not less than 5"
  {
  }

  lemma OrMismatchText(arg: string, bound: string)
    requires arg == "4" && bound == "5"
    ensures arg + " is not greater than " + bound == "4 is not greater than 5"
  {
  }
}
