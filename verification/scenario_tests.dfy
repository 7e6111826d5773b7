/** Whole scenarios from the test suites, run through the engine model. */
module ScenarioTests {
  import opened Outcomes
  import opened Matchers
  import opened Expectations
  import opened Scenarios
  import MatcherTests

  /** One mock, with `num(le(2))` expected twice; `num(1)` then `num(2)` both
      succeed and nothing is left for the teardown. */
  lemma LeMatcherScenario()
    ensures
      var a := CreateMock(NewScenario<()>());
      var e := Expectation(a.id, "num", [Le(2)], ());
      var s := Expect(Expect(a.scenario, e), e);
      var calls := [Invocation(a.id, "num", [1]), Invocation(a.id, "num", [2])];
      CanDrive(s, calls) && Drive(s, calls) == Run(Scenario(1, []), [(), ()], None)
  {
    var a := CreateMock(NewScenario<()>());
    var e := Expectation(a.id, "num", [Le(2)], ());
    var s := Expect(Expect(a.scenario, e), e);
    assert s.events == [e, e];
    var calls := [Invocation(a.id, "num", [1]), Invocation(a.id, "num", [2])];
    MatcherTests.LeMatcherMatch();
    EvalAgreesWithHolds(Le(2), 1);
    EvalAgreesWithHolds(Le(2), 2);
    assert Accepts(e, calls[0]) && Accepts(e, calls[1]);
    DriveSucceedsIffInQueueOrder(s, calls);
  }

  /** A rejected argument fails the call with the matcher's message, and the
      expectation is consumed all the same. */
  lemma EqMatcherMismatchScenario()
    ensures
      var a := CreateMock(NewScenario<()>());
      var s := Expect(a.scenario, Expectation(a.id, "num", [Eq(2)], ()));
      Call(s, Invocation(a.id, "num", [3])) ==
        Dispatch(Scenario(1, []), Err("3 is not equal to 2"))
  {
    MatcherTests.EqMatcherMismatch();
  }

  /** A call on a second mock of the same interface never meets the first
      mock's expectation. */
  lemma OtherMockScenario()
    ensures
      var mocks := CreateMocks(NewScenario<()>(), 2);
      var s := Expect(mocks.scenario, Expectation(mocks.ids[0], "num", [Any], ()));
      Call(s, Invocation(mocks.ids[1], "num", [2])).outcome ==
        Err("Unexpected call of `num`, `num` call is expected")
  {
    var mocks := CreateMocks(NewScenario<()>(), 2);
    MockIdsDistinct(NewScenario<()>(), 2);
    var s := Expect(mocks.scenario, Expectation(mocks.ids[0], "num", [Any], ()));
    var c := Invocation(mocks.ids[1], "num", [2]);
    assert !Addresses(s.events[0], c);
    assert Call(s, c).outcome == Err(UnexpectedCall("num", "num"));
    UnexpectedCallText("num", "num");
  }

  lemma UnexpectedCallText(called: string, expected: string)
    requires called == "num" && expected == "num"
    ensures UnexpectedCall(called, expected) == "Unexpected call of `num`, `num` call is expected"
  {
  }

  /** An expectation never called is reported by name at teardown. */
  lemma NotPerformedScenario()
    ensures
      var a := CreateMock(NewScenario<()>());
      var s := Expect(a.scenario, Expectation(a.id, "num", [Any], ()));
      Teardown(s) == Err("Expected calls are not performed:\n`num`\n")
  {
  }
}
