# mockers: expectation queue and argument matchers, in Dafny

This project models the core of `mockers`, a mock-object library for Rust
tests. A test creates a `Scenario` and asks it for mock objects. Each mock
gets a numeric id from the scenario's counter. The test registers expected
calls (`expect`), each naming a mock, a method, one argument matcher per
parameter and the value to return. When the code under test calls a mock
method, the generated mock forwards the call to the scenario's `call`. That
removes the head of the expectation queue and compares it with the call:
first the mock id and method name, then each argument against its matcher,
left to right. Dropping the scenario fails if expectations remain, and the
failure lists their method names.

The second part is the argument-matcher algebra: the bare-value equality
matcher, `ANY`, and `eq`, `ne`, `lt`, `le`, `gt`, `ge`, `not`, `and`, `or`
over `u32` arguments. Each has its exact mismatch text. `and` and `or`
short-circuit. Matcher evaluation also returns the list of sub-matchers it
actually ran (`Evaluation.visited`), so short-circuiting is a proved
property, not a comment.

Everything is pure. A panic becomes `Err(message)` of `Outcomes.Result`. The
scenario is one value holding the id counter and the expectation queue.

Where the repository's documents and its code disagree, the model follows
`src/lib.rs`:

- `call` looks only at the head of the queue, never past it.
- An unexpected call reads ``Unexpected call of `<method>`, `<expected method>` call is expected``.
- The teardown failure starts with `Expected calls are not performed:`.

The description of `ge(v)` is `lt(v)`. That looks like a copy slip in the
matcher implementation. The `not` mismatch test pins this text, so the
model keeps it.

Files:

- `outcomes.dfy`: `Option` and `Result`.
- `text.dfy`: decimal rendering of numbers, which is what `{:?}` gives for `u32`.
- `matchers.dfy`: the matcher datatype, `Describe`, the evaluation `Eval`, the reference semantics `Holds`, and the short-circuit reference `Demanded`.
- `matcher_tests.dfy`: the matcher test suite, one lemma per test.
- `expectations.dfy`: an expectation and its argument check.
- `scenario.dfy`: mock ids, `expect`, `call`, teardown, and runs of several calls.
- `scenario_tests.dfy`: whole scenarios run through the engine.

## Model

| member | source | states |
|---|---|---|
| Text.Show | src/lib.rs:162 | The `{:?}` rendering of an unsigned value is a canonical decimal numeral: at least one digit, only digits, no leading zero, and a single digit exactly for values below 10. |
| Text.ShowRead | src/lib.rs:162 | Every canonical decimal numeral is the rendering of the value it denotes, so the rendering is the one and only canonical spelling of each value. |
| Text.ReadShow | src/lib.rs:162 | The decimal rendering of a value in a mismatch message loses nothing: the value reads back from it. |
| Matchers.Eval | src/lib.rs:158-180 | `matches` on a matcher tree runs the root first. `ANY` always accepts. Every mismatch message begins with the rendering of the argument. |
| Matchers.Describe | src/lib.rs:166-182 | `describe` is never empty. It is `_` exactly for `ANY`. Only a bare value's description starts with a digit. It is a plain numeral exactly for a bare value, and that numeral reads back to the value. |
| Matchers.GeDescribedAsLt | tests/matchers.rs:144-151 | `ge(v)` describes itself exactly as `lt(v)` does, although `ge(v)` accepts `v` and `lt(v)` rejects it. |
| Matchers.EvalAgreesWithHolds | tests/matchers.rs:24-219 | A matcher's `matches` returns `Ok` exactly when the argument satisfies the matcher's predicate. `not` negates it, `and` is conjunction, `or` is disjunction. |
| Matchers.ComparisonVerdicts | tests/matchers.rs:24-133 | `eq`/bare value, `ne`, `lt`, `le`, `gt` and `ge` accept iff `==`, `!=`, `<`, `<=`, `>`, `>=` holds. Otherwise the error is `<arg>` followed by `is not equal to`, `is equal to`, `is not less than`, `is not less than or equal to`, `is not greater than` or `is not greater than or equal to`, then `<v>`. |
| Matchers.AnyAndValue | src/lib.rs:157-185 | `ANY` accepts every argument and describes itself as `_`. A bare value describes itself as its own rendering. |
| Matchers.NotVerdict | tests/matchers.rs:136-151 | `not(m)` accepts iff `m` does not hold. Otherwise the error is `<arg> matches (but shouldn't): <description of m>`. |
| Matchers.AndVerdict | tests/matchers.rs:169-193 | `and(l, r)` reports `l`'s error when `l` fails, without evaluating anything under `r`. Otherwise it reports `r`'s verdict. |
| Matchers.OrVerdict | tests/matchers.rs:196-219 | `or(l, r)` succeeds without evaluating anything under `r` when `l` holds. Otherwise it reports `r`'s verdict, so `r`'s error when both fail. |
| Matchers.VisitedIffDemanded | tests/matchers.rs:154-210 | A sub-matcher is evaluated iff short-circuit evaluation demands it. Every `and` on its path that takes the right operand has a holding left operand. Every such `or` has a failing one. |
| MatcherTests.EqMatcherMatch | tests/matchers.rs:24-30 | `eq(2)` accepts 2. |
| MatcherTests.EqMatcherMismatch | tests/matchers.rs:32-39 | `eq(2)` rejects 3 with `3 is not equal to 2`. |
| MatcherTests.NeMatcherMatch | tests/matchers.rs:42-48 | `ne(2)` accepts 3. |
| MatcherTests.NeMatcherMismatch | tests/matchers.rs:50-57 | `ne(2)` rejects 2 with `2 is equal to 2`. |
| MatcherTests.LtMatcherMatch | tests/matchers.rs:60-66 | `lt(2)` accepts 1. |
| MatcherTests.LtMatcherMismatch | tests/matchers.rs:68-75 | `lt(2)` rejects 2 with `2 is not less than 2`. |
| MatcherTests.LeMatcherMatch | tests/matchers.rs:78-86 | `le(2)` accepts 1 and 2. |
| MatcherTests.LeMatcherMismatch | tests/matchers.rs:88-95 | `le(2)` rejects 3 with `3 is not less than or equal to 2`. |
| MatcherTests.GtMatcherMatch | tests/matchers.rs:98-104 | `gt(2)` accepts 3. |
| MatcherTests.GtMatcherMismatch | tests/matchers.rs:106-113 | `gt(2)` rejects 2 with `2 is not greater than 2`. |
| MatcherTests.GeMatcherMatch | tests/matchers.rs:116-124 | `ge(2)` accepts 2 and 3. |
| MatcherTests.GeMatcherMismatch | tests/matchers.rs:126-133 | `ge(2)` rejects 1 with `1 is not greater than or equal to 2`. |
| MatcherTests.NotMatcherMatch | tests/matchers.rs:136-142 | `not(ge(2))` accepts 1. |
| MatcherTests.NotMatcherMismatch | tests/matchers.rs:144-151 | `not(ge(2))` rejects 2 with `2 matches (but shouldn't): lt(2)`. |
| MatcherTests.AndMatcherMatch | tests/matchers.rs:169-175 | `and(gt(2), lt(5))` accepts 3. |
| MatcherTests.AndMatcherShortCircuit | tests/matchers.rs:154-184 | For every right operand, `and(gt(2), _)` on 1 evaluates only the root and `gt(2)`. It fails with `1 is not greater than 2`. |
| MatcherTests.AndMatcherMismatch | tests/matchers.rs:186-193 | `and(gt(2), lt(5))` rejects 6 with `6 is not less than 5`. |
| MatcherTests.OrMatcherMatch | tests/matchers.rs:196-202 | `or(lt(2), gt(5))` accepts 1. |
| MatcherTests.OrMatcherShortCircuit | tests/matchers.rs:204-210 | For every right operand, `or(lt(2), _)` on 1 evaluates only the root and `lt(2)`, and succeeds. |
| MatcherTests.OrMatcherMismatch | tests/matchers.rs:212-219 | `or(lt(2), gt(5))` rejects 4 with `4 is not greater than 5`. |
| Expectations.MatchArgs | src/lib.rs:124-129 | Matchers run left to right. The verdict is `Ok` iff every argument is accepted. Otherwise it is the error of the first rejecting matcher, every matcher before it accepted, and none after it ran. |
| Expectations.Check | src/lib.rs:75-79 | The check returns the stored result iff every matcher accepts its argument. Otherwise it fails with the message of the first matcher that rejects. |
| Expectations.NoArgumentsAlwaysReturn | src/lib.rs:33-35 | An expectation without arguments returns its stored result unconditionally. |
| Expectations.LaterMatchersIgnored | src/lib.rs:126-127 | Once a matcher rejects, the matchers and arguments after it do not affect the outcome. |
| Scenarios.NewScenario | src/lib.rs:201-208 | A new scenario has an empty queue and counter 0. |
| Scenarios.CreateMock | src/lib.rs:210-218 | Creating a mock hands out the current counter value and advances the counter by one. The queue is untouched. |
| Scenarios.MockIdsConsecutive | src/lib.rs:210-218 | Successive mock creations hand out consecutive ids starting at the counter, and change nothing but the counter. |
| Scenarios.MockIdsDistinct | src/lib.rs:214-218 | Mocks of one scenario never share an id. A fresh scenario numbers them 0, 1, 2, and so on. |
| Scenarios.Expect | src/lib.rs:220-222 | `expect` appends exactly one entry at the back of the queue. Earlier entries and their order are unchanged. |
| Scenarios.ExpectCommutesWithCall | src/lib.rs:220-246 | On a non-empty queue, registering then calling equals calling then registering. An entry appended at the back never affects dispatch at the front. |
| Scenarios.Call | src/lib.rs:238-246 | A call removes exactly the head, even when it then fails, and keeps the rest in order. It succeeds iff the head names the same mock and method and every argument is accepted, and then returns the head's result. A different mock or method fails with ``Unexpected call of `<method>`, `<head method>` call is expected``. An argument mismatch fails with the first rejecting matcher's message. |
| Scenarios.OutcomeDependsOnHeadOnly | src/lib.rs:240-245 | A call's outcome depends only on the head of the queue, never on later entries. |
| Scenarios.DriveSucceedsIffInQueueOrder | src/lib.rs:238-246 | A sequence of calls all succeed iff the i-th call meets the i-th queued expectation. They then return the stored results in queue order and consume exactly that prefix. |
| Scenarios.DriveStopsAtFirstRejected | src/lib.rs:239-245 | A sequence of calls fails iff some call is the first one that does not meet its queue entry. Every call before it met its entry, and one value was returned per such call. The failing call has still consumed its entry, and its message is that call's own error. |
| Scenarios.Teardown | src/lib.rs:225-235 | Teardown passes iff the queue is empty. Otherwise it fails with `Expected calls are not performed:\n` followed by `` `<method>`\n `` for each pending entry, in queue order. |
| Scenarios.ListingRoundTrip | src/lib.rs:229-232 | Method names are never lost from the backtick-quoted, line-per-entry listing: every name reads back, in order. |
| Scenarios.TeardownNamesPending | src/lib.rs:225-235 | The names read back from a teardown failure are exactly the pending methods, in queue order. |
| Scenarios.ExpectAddsTeardownLine | src/lib.rs:220-232 | Each registration adds exactly one line, naming its method, at the end of the teardown failure. |
| Scenarios.CompleteRunPassesTeardown | src/lib.rs:225-246 | Calling every queued expectation in order, each with accepted arguments, succeeds and leaves teardown passing. |
| ScenarioTests.LeMatcherScenario | tests/matchers.rs:78-86 | With `num(le(2))` expected twice, `num(1)` then `num(2)` return in turn and empty the queue. |
| ScenarioTests.EqMatcherMismatchScenario | tests/matchers.rs:32-39 | With `num(eq(2))` expected, `num(3)` fails with `3 is not equal to 2` and still consumes the expectation. |
| ScenarioTests.OtherMockScenario | src/lib.rs:241-244 | A call on a second mock never meets an expectation registered for the first mock, even with the same method name. |
| ScenarioTests.NotPerformedScenario | src/lib.rs:225-235 | An expectation that is never called makes teardown fail with ``Expected calls are not performed:\n`num`\n``. |

## Left out

- Raw-pointer type erasure (`*const u8` arguments, `transmute`, `Box::into_raw`) is left out. Arguments are typed values and results have a type parameter. The trust that the generated mock passes arguments of the right types becomes the `WellTyped` precondition of `Call`.
- Matchers and expectations take `u32` arguments only, the type the matcher tests use. In the source, equality is generic over any `Eq + Debug` type, and `ANY` over any type at all.
- Arity is not limited. The source's zero-, one- and two-argument expectations are one datatype with a sequence of matchers.
- The builder steps `CallMatch0/1/2::new` and `and_return` are plain constructors. The model builds an `Expectation` directly.
- `Rc<RefCell<…>>` sharing and the `Mock` trait constructor are ownership plumbing. The scenario is one value: counter and queue.
- `Scenarios.Call` requires a non-empty queue. `Vec::remove(0)` on an empty queue panics with a standard-library index message, which the model does not reproduce.
- Panics are `Err(message)`. The `Debug` wrapping that `unwrap` adds around a matcher's message is not modelled.
- A failed call in Rust unwinds and drops the scenario. That drop panics again if expectations remain, and `src/lib.rs` does not check for an unwinding thread. The model keeps the two failures separate: `Drive` stops at the first failure, and `Teardown` is a separate function.
- The mock-id counter is a `usize` in the source. The model uses an unbounded `nat`, so overflow is not modelled.
- Matcher descriptions: the source fixes only `_` for `ANY`, the value itself for a bare value, and `lt(v)` for `ge(v)`. The `name(args)` texts of the other matchers are this model's choice.
- The test-only `UnreachableMatcher` is not a constructor. The short-circuit lemmas quantify over every right operand and show that it is never evaluated.
- The `mock!` and `#[derive(Mock)]` code generation is left out: it is compile-time code generation.
- The richer engine asserted only by `mockers/tests/lib.rs` is left out. That covers `times`, `never`, `and_return_clone`, `and_call`, `and_panic`, `and_return_default`, sequences, checkpoints, named mocks, unordered matching and the `Some expectations are not satisfied` message. Its implementation is not part of this model, and it contradicts the head-only dispatch and the teardown text of `src/lib.rs`.
- Releasing arguments on panic, and skipping verification while already panicking, are about resource lifetimes and unwinding, which the model does not have.
