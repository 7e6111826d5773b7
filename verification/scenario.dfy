/** The scenario: the mock-id counter and the FIFO queue of pending
    expectations, with the operations a test and the generated mocks use on
    it: allocating mock ids, registering expectations, dispatching a call,
    and the verification run when the scenario is dropped. */
module Scenarios {
  import opened Outcomes
  import opened Matchers
  import opened Expectations

  datatype Scenario<R> = Scenario(nextMockId: nat, events: seq<Expectation<R>>)

  /** A fresh scenario: no expectations, and the first mock gets id 0. */
  function NewScenario<R>(): (s: Scenario<R>)
    ensures s.nextMockId == 0
    ensures s.events == []
  {
    Scenario(0, [])
  }

  // ---------------------------------------------------------------------
  // Mock ids

  /** A mock id handed out, and the scenario after handing it out. */
  datatype Allocation<R> = Allocation(id: nat, scenario: Scenario<R>)

  /** `create_mock`: hands out the current counter and increments it. */
  function CreateMock<R>(s: Scenario<R>): (a: Allocation<R>)
    ensures a.id == s.nextMockId
    ensures a.scenario.nextMockId == s.nextMockId + 1
    ensures a.scenario.events == s.events
  {
    Allocation(s.nextMockId, s.(nextMockId := s.nextMockId + 1))
  }

  /** The ids handed out by several mock creations in a row. */
  datatype Allocations<R> = Allocations(ids: seq<nat>, scenario: Scenario<R>)

  /** `n` successive `create_mock` calls. */
  function CreateMocks<R>(s: Scenario<R>, n: nat): Allocations<R>
    decreases n
  {
    if n == 0 then Allocations([], s)
    else
      var a := CreateMock(s);
      var rest := CreateMocks(a.scenario, n - 1);
      Allocations([a.id] + rest.ids, rest.scenario)
  }

  /** Successive mock creations hand out consecutive ids starting from the
      counter, and touch nothing but the counter. */
  lemma {:induction false} MockIdsConsecutive<R>(s: Scenario<R>, n: nat)
    ensures |CreateMocks(s, n).ids| == n
    ensures forall i :: 0 <= i < n ==> CreateMocks(s, n).ids[i] == s.nextMockId + i
    ensures CreateMocks(s, n).scenario == s.(nextMockId := s.nextMockId + n)
    decreases n
  {
    if n > 0 {
      var a := CreateMock(s);
      MockIdsConsecutive(a.scenario, n - 1);
    }
  }

  /** Mocks created from one scenario never share an id, and a fresh
      scenario numbers them 0, 1, 2, ... */
  lemma MockIdsDistinct<R>(s: Scenario<R>, n: nat)
    ensures forall i, j :: 0 <= i < j < |CreateMocks(s, n).ids| ==>
      CreateMocks(s, n).ids[i] != CreateMocks(s, n).ids[j]
    ensures s == NewScenario() ==> CreateMocks(s, n).ids == seq(n, i => i)
  {
    MockIdsConsecutive(s, n);
  }

  // ---------------------------------------------------------------------
  // Registration

  /** `expect`: appends one expectation at the back of the queue. */
  function Expect<R>(s: Scenario<R>, e: Expectation<R>): (t: Scenario<R>)
    ensures |t.events| == |s.events| + 1
    ensures t.events[..|s.events|] == s.events
    ensures t.events[|s.events|] == e
    ensures t.nextMockId == s.nextMockId
  {
    s.(events := s.events + [e])
  }

  // ---------------------------------------------------------------------
  // Dispatch

  /** A call as the generated mock forwards it. */
  datatype Invocation = Invocation(mockId: nat, methodName: string, args: seq<U32>)

  /** The scenario after a call, and what the call returned or the message
      it failed with. */
  datatype Dispatch<R> = Dispatch(scenario: Scenario<R>, outcome: Result<R>)

  /** Whether the expectation is for the mock and method being called. */
  predicate Addresses<R>(e: Expectation<R>, c: Invocation)
  {
    e.mockId == c.mockId && e.methodName == c.methodName
  }

  /** The mock passes arguments of the statically right types: a call of the
      expectation's own mock and method carries one argument per matcher. */
  predicate WellTyped<R>(e: Expectation<R>, c: Invocation)
  {
    Addresses(e, c) ==> |c.args| == |e.matchers|
  }

  /** Whether the call meets the expectation: same mock, same method, and
      every argument accepted by its matcher. */
  ghost predicate Accepts<R>(e: Expectation<R>, c: Invocation)
  {
    && Addresses(e, c)
    && |c.args| == |e.matchers|
    && forall i :: 0 <= i < |c.args| ==> Holds(e.matchers[i], c.args[i])
  }

  function UnexpectedCall(called: string, expected: string): string
  {
    "Unexpected call of `" + called + "`, `" + expected + "` call is expected"
  }

  /** `call`: removes the head of the queue first, then compares it with the
      call. Nothing behind the head is looked at, and the head is consumed
      whether or not the call then fails. */
  function Call<R>(s: Scenario<R>, c: Invocation): (d: Dispatch<R>)
    requires |s.events| > 0
    requires WellTyped(s.events[0], c)
    ensures d.scenario == s.(events := s.events[1..])
    ensures d.outcome.Ok? <==> Accepts(s.events[0], c)
    ensures d.outcome.Ok? ==> d.outcome.value == s.events[0].result
    ensures !Addresses(s.events[0], c) ==>
      d.outcome == Err(UnexpectedCall(c.methodName, s.events[0].methodName))
    ensures Addresses(s.events[0], c) && d.outcome.Err? ==> exists i ::
      && FirstMismatch(s.events[0].matchers, c.args, i)
      && Eval(s.events[0].matchers[i], c.args[i]).verdict == Err(d.outcome.message)
  {
    var head := s.events[0];
    var rest := s.(events := s.events[1..]);
    if !Addresses(head, c) then
      Dispatch(rest, Err(UnexpectedCall(c.methodName, head.methodName)))
    else
      Dispatch(rest, Check(head, c.args))
  }

  /** What a call returns depends on the head of the queue alone. */
  lemma OutcomeDependsOnHeadOnly<R>(s1: Scenario<R>, s2: Scenario<R>, c: Invocation)
    requires |s1.events| > 0 && |s2.events| > 0
    requires s1.events[0] == s2.events[0]
    requires WellTyped(s1.events[0], c)
    ensures Call(s1, c).outcome == Call(s2, c).outcome
  {
  }

  /** Registering at the back does not disturb dispatch at the front: calling
      then registering is the same as registering then calling. */
  lemma ExpectCommutesWithCall<R>(s: Scenario<R>, e: Expectation<R>, c: Invocation)
    requires |s.events| > 0
    requires WellTyped(s.events[0], c)
    ensures Expect(s, e).events[0] == s.events[0]
    ensures Call(Expect(s, e), c) == Dispatch(Expect(Call(s, c).scenario, e), Call(s, c).outcome)
  {
    assert (s.events + [e])[1..] == s.events[1..] + [e];
  }

  /** The outcome of a sequence of calls: the scenario afterwards, the values
      returned, and the message of the call that failed, if one did. */
  datatype Run<R> = Run(scenario: Scenario<R>, returned: seq<R>, failure: Option<string>)

  /** Each call in the sequence meets the queue entry it will be dispatched
      against with arguments of the right types. */
  predicate CanDrive<R>(s: Scenario<R>, calls: seq<Invocation>)
  {
    && |calls| <= |s.events|
    && forall i :: 0 <= i < |calls| ==> WellTyped(s.events[i], calls[i])
  }

  /** Calls performed one after another; a failing call panics, which ends
      the test, so nothing after it runs. */
  function Drive<R>(s: Scenario<R>, calls: seq<Invocation>): Run<R>
    requires CanDrive(s, calls)
    decreases |calls|
  {
    if |calls| == 0 then Run(s, [], None)
    else
      var d := Call(s, calls[0]);
      if d.outcome.Err? then Run(d.scenario, [], Some(d.outcome.message))
      else
        assert forall i :: 0 <= i < |calls| - 1 ==>
          d.scenario.events[i] == s.events[i + 1] && calls[1..][i] == calls[i + 1];
        var rest := Drive(d.scenario, calls[1..]);
        Run(rest.scenario, [d.outcome.value] + rest.returned, rest.failure)
  }

  lemma DriveStep<R>(s: Scenario<R>, calls: seq<Invocation>)
    requires CanDrive(s, calls) && |calls| > 0
    ensures CanDrive(Call(s, calls[0]).scenario, calls[1..])
  {
    var d := Call(s, calls[0]);
    assert forall i :: 0 <= i < |calls| - 1 ==>
      d.scenario.events[i] == s.events[i + 1] && calls[1..][i] == calls[i + 1];
  }

  /** After a call that meets the head entry, the remaining calls meet the
      remaining entries exactly when all the calls met the original entries,
      and consuming the rest consumes the original prefix. */
  lemma AcceptedAfterAccepted<R>(s: Scenario<R>, calls: seq<Invocation>)
    requires CanDrive(s, calls) && |calls| > 0
    requires Call(s, calls[0]).outcome.Ok?
    ensures var rest := Call(s, calls[0]).scenario.events;
      && ((forall i :: 0 <= i < |calls| ==> Accepts(s.events[i], calls[i])) <==>
          forall i :: 0 <= i < |calls| - 1 ==> Accepts(rest[i], calls[1..][i]))
      && rest[|calls| - 1..] == s.events[|calls|..]
  {
    var rest := Call(s, calls[0]).scenario.events;
    assert forall i :: 0 <= i < |calls| - 1 ==>
      rest[i] == s.events[i + 1] && calls[1..][i] == calls[i + 1];
  }

  /** Strict FIFO dispatch: a sequence of calls all succeed iff the i-th call
      meets the i-th queued expectation; they then return the stored results
      in queue order and consume exactly that prefix of the queue. */
  lemma {:induction false} DriveSucceedsIffInQueueOrder<R>(s: Scenario<R>, calls: seq<Invocation>)
    requires CanDrive(s, calls)
    ensures Drive(s, calls).failure.None? <==>
      forall i :: 0 <= i < |calls| ==> Accepts(s.events[i], calls[i])
    ensures Drive(s, calls).failure.None? ==>
      && Drive(s, calls).returned == seq(|calls|, i requires 0 <= i < |calls| => s.events[i].result)
      && Drive(s, calls).scenario == s.(events := s.events[|calls|..])
    decreases |calls|
  {
    if |calls| > 0 {
      var d := Call(s, calls[0]);
      if d.outcome.Ok? {
        DriveStep(s, calls);
        DriveSucceedsIffInQueueOrder(d.scenario, calls[1..]);
        AcceptedAfterAccepted(s, calls);
      }
    }
  }

  /** Call `k` is the first call of a failing run: every call before it meets
      its queue entry, call `k` does not, the run returned `k` values and
      consumed `k + 1` entries, and its message is the one call `k` reports. */
  ghost predicate RejectedAt<R>(s: Scenario<R>, calls: seq<Invocation>, k: nat)
    requires CanDrive(s, calls)
  {
    && k < |calls|
    && (forall j :: 0 <= j < k ==> Accepts(s.events[j], calls[j]))
    && !Accepts(s.events[k], calls[k])
    && Drive(s, calls).failure.Some?
    && |Drive(s, calls).returned| == k
    && Drive(s, calls).scenario == s.(events := s.events[k + 1..])
    && Call(s.(events := s.events[k..]), calls[k]).outcome == Err(Drive(s, calls).failure.value)
  }

  /** A call that meets the head entry shifts the first rejected call by one. */
  lemma RejectedAfterAccepted<R>(s: Scenario<R>, calls: seq<Invocation>, k: nat)
    requires CanDrive(s, calls) && |calls| > 0
    requires Call(s, calls[0]).outcome.Ok?
    requires CanDrive(Call(s, calls[0]).scenario, calls[1..])
    requires RejectedAt(Call(s, calls[0]).scenario, calls[1..], k)
    ensures RejectedAt(s, calls, k + 1)
  {
    var d := Call(s, calls[0]);
    var rest := Drive(d.scenario, calls[1..]);
    assert Drive(s, calls) == Run(rest.scenario, [d.outcome.value] + rest.returned, rest.failure);
    assert d.scenario.events[k..] == s.events[k + 1..];
    assert d.scenario.events[k + 1..] == s.events[k + 2..];
    assert forall j :: 0 <= j < k ==> d.scenario.events[j] == s.events[j + 1] && calls[1..][j] == calls[j + 1];
    assert calls[1..][k] == calls[k + 1];
  }

  /** A failing run stops at the first call that does not meet its queue
      entry; that call still consumed its entry, and the run's message is the
      one that call reports. */
  lemma {:induction false} DriveStopsAtFirstRejected<R>(s: Scenario<R>, calls: seq<Invocation>)
    requires CanDrive(s, calls)
    ensures Drive(s, calls).failure.Some? <==> exists k :: RejectedAt(s, calls, k)
    decreases |calls|
  {
    if |calls| > 0 {
      var d := Call(s, calls[0]);
      if d.outcome.Err? {
        assert s.(events := s.events[0..]) == s;
        assert RejectedAt(s, calls, 0);
      } else {
        DriveStep(s, calls);
        DriveStopsAtFirstRejected(d.scenario, calls[1..]);
        if Drive(d.scenario, calls[1..]).failure.Some? {
          var k :| RejectedAt(d.scenario, calls[1..], k);
          RejectedAfterAccepted(s, calls, k);
        }
      }
    }
  }

  // ---------------------------------------------------------------------
  // Verification on drop

  const NotPerformedHeader: string := "Expected calls are not performed:\n"

  /** One line per method name, each backtick-quoted, in order. */
  function Listing(names: seq<string>): string
  {
    if |names| == 0 then "" else "`" + names[0] + "`\n" + Listing(names[1..])
  }

  function MethodNames<R>(events: seq<Expectation<R>>): (names: seq<string>)
    ensures |names| == |events|
    ensures forall i :: 0 <= i < |events| ==> names[i] == events[i].methodName
  {
    seq(|events|, i requires 0 <= i < |events| => events[i].methodName)
  }

  /** Dropping the scenario: passes when no expectation is pending, and
      otherwise fails listing every pending method name in queue order. */
  function Teardown<R>(s: Scenario<R>): (r: Result<()>)
    ensures r.Ok? <==> s.events == []
    ensures r.Err? ==> r.message == NotPerformedHeader + Listing(MethodNames(s.events))
  {
    if s.events == [] then Ok(())
    else Err(NotPerformedHeader + Listing(MethodNames(s.events)))
  }

  /** The index of the first backtick at or after `from`, or `|s|`. */
  function NextTick(s: string, from: nat): (i: nat)
    requires from <= |s|
    ensures from <= i <= |s|
    ensures i < |s| ==> s[i] == '`'
    ensures forall j :: from <= j < i ==> s[j] != '`'
    decreases |s| - from
  {
    if from == |s| || s[from] == '`' then from else NextTick(s, from + 1)
  }

  /** Reads a listing back into the names it lists. */
  function ParseListing(s: string): Option<seq<string>>
    decreases |s|
  {
    if |s| == 0 then Some([])
    else if s[0] != '`' then None
    else
      var close := NextTick(s, 1);
      if close + 1 < |s| && s[close + 1] == '\n' then
        match ParseListing(s[close + 2..])
        case None => None
        case Some(rest) => Some([s[1..close]] + rest)
      else None
  }

  /** Reads a teardown failure back into the method names it lists. */
  function ReadNotPerformed(message: string): Option<seq<string>>
  {
    if |NotPerformedHeader| <= |message| && message[..|NotPerformedHeader|] == NotPerformedHeader
    then ParseListing(message[|NotPerformedHeader|..])
    else None
  }

  /** Whether no name contains a backtick; method names are identifiers. */
  predicate TickFree(names: seq<string>)
  {
    forall k :: 0 <= k < |names| ==> '`' !in names[k]
  }

  /** The listing loses nothing: every name, in order, can be read back. */
  lemma {:induction false} ListingRoundTrip(names: seq<string>)
    requires TickFree(names)
    ensures ParseListing(Listing(names)) == Some(names)
    decreases |names|
  {
    if |names| > 0 {
      var n := names[0];
      var tail := Listing(names[1..]);
      var s := Listing(names);
      assert s == "`" + n + "`\n" + tail;
      assert s[1 + |n|] == '`' && s[2 + |n|] == '\n';
      assert forall j :: 1 <= j < 1 + |n| ==> s[j] == n[j - 1];
      var close := NextTick(s, 1);
      assert close == 1 + |n|;
      assert s[1..close] == n;
      assert s[close + 2..] == tail;
      assert TickFree(names[1..]) by {
        assert forall k :: 0 <= k < |names| - 1 ==> names[1..][k] == names[k + 1];
      }
      ListingRoundTrip(names[1..]);
      assert [n] + names[1..] == names;
    }
  }

  /** The teardown failure names exactly the pending methods, in queue order. */
  lemma TeardownNamesPending<R>(s: Scenario<R>)
    requires s.events != []
    requires TickFree(MethodNames(s.events))
    ensures ReadNotPerformed(Teardown(s).message) == Some(MethodNames(s.events))
  {
    var listing := Listing(MethodNames(s.events));
    var m := NotPerformedHeader + listing;
    assert m[..|NotPerformedHeader|] == NotPerformedHeader;
    assert m[|NotPerformedHeader|..] == listing;
    ListingRoundTrip(MethodNames(s.events));
  }

  lemma {:induction false} ListingAppend(names: seq<string>, name: string)
    ensures Listing(names + [name]) == Listing(names) + "`" + name + "`\n"
    decreases |names|
  {
    if |names| > 0 {
      assert (names + [name])[1..] == names[1..] + [name];
      ListingAppend(names[1..], name);
    } else {
      assert names + [name] == [name];
    }
  }

  /** Each registration adds one line at the end of the teardown failure. */
  lemma ExpectAddsTeardownLine<R>(s: Scenario<R>, e: Expectation<R>)
    ensures Teardown(Expect(s, e)).message ==
      NotPerformedHeader + Listing(MethodNames(s.events)) + "`" + e.methodName + "`\n"
  {
    assert MethodNames(s.events + [e]) == MethodNames(s.events) + [e.methodName];
    ListingAppend(MethodNames(s.events), e.methodName);
  }

  /** Calling every queued expectation in order, each with accepted
      arguments, leaves nothing for the teardown to report. */
  lemma CompleteRunPassesTeardown<R>(s: Scenario<R>, calls: seq<Invocation>)
    requires CanDrive(s, calls)
    requires |calls| == |s.events|
    requires forall i :: 0 <= i < |calls| ==> Accepts(s.events[i], calls[i])
    ensures Drive(s, calls).failure.None?
    ensures Teardown(Drive(s, calls).scenario) == Ok(())
  {
    DriveSucceedsIffInQueueOrder(s, calls);
  }
}
