/**
 * The completion handler of the Swift driver (Sources/demo/demo.swift,
 * the `handler` work item): it drains the ring, counts every completion,
 * adds the Int a tagged completion points at to the running sum, switches
 * from the write phase to the read phase after 3 * FILE_COUNT completions
 * and finishes after 4 * FILE_COUNT more.
 *
 * `Step` and `Run` are the specification; the class `Dispatcher` is the
 * handler's state, updated in place by `OnCompletion` and `Drain`.
 */
module DemoDispatch {
  import opened Ops
  import opened DemoLayout

  const Int64Min: int := -0x8000_0000_0000_0000
  const Int64Modulus: int := 0x1_0000_0000_0000_0000

  predicate IsInt64(x: int)
  {
    Int64Min <= x < Int64Min + Int64Modulus
  }

  /** Two's-complement 64-bit addition, as `Atomic<Int>.wrappingAdd`. */
  function WrappingAdd(a: int, b: int): (r: int)
    ensures IsInt64(r)
    ensures (r - (a + b)) % Int64Modulus == 0
    ensures IsInt64(a + b) ==> r == a + b
  {
    (a + b - Int64Min) % Int64Modulus + Int64Min
  }

  /**
   * One completion drained from the ring. `payload` stands for the Int
   * stored at the address `userData` carries; it is only read when
   * `userData > 0`.
   */
  datatype Completion = Completion(result: int, userData: nat, payload: int)

  /** What the handler does after one completion, besides updating its counters. */
  datatype Action =
    | None
    | SubmitReadPhase(chains: seq<seq<Op>>)
    | Finish(exitCode: int)

  /** completedOperationCount, doneWriting and the atomic sum. */
  datatype Tally = Tally(count: nat, doneWriting: bool, sum: int)

  datatype Outcome = Outcome(next: Tally, action: Action)

  datatype Trace = Trace(last: Tally, actions: seq<Action>)

  const Initial: Tally := Tally(0, false, 0)

  /**
   * The handler's effect on one completion. The write phase, once left, is
   * never re-entered; the read phase is submitted only on leaving the write
   * phase, and the handler finishes only in the read phase.
   */
  function Step(n: nat, verificationSum: int, t: Tally, c: Completion): (o: Outcome)
    ensures t.doneWriting ==> o.next.doneWriting
    ensures o.action.SubmitReadPhase? ==> !t.doneWriting && o.next.doneWriting && o.next.count == 0
    ensures o.action.Finish? ==> o.next.doneWriting && (o.action.exitCode == 0 <==> o.next.sum == verificationSum)
  {
    var count := t.count + 1;
    var sum := if c.userData > 0 then WrappingAdd(t.sum, c.payload) else t.sum;
    var transition := !t.doneWriting && count == n * 3;
    var doneWriting := t.doneWriting || transition;
    var count' := if transition then 0 else count;
    var next := Tally(count', doneWriting, sum);
    if doneWriting && count' == n * 4 then
      Outcome(next, Finish(if sum == verificationSum then 0 else 1))
    else if transition then
      Outcome(next, SubmitReadPhase(ReadPhase(n)))
    else
      Outcome(next, None)
  }

  /**
   * The handler over a sequence of completions: one action per completion
   * handled, and it stops at the first Finish (`_exit`).
   */
  function Run(n: nat, verificationSum: int, t: Tally, cs: seq<Completion>): (tr: Trace)
    ensures |tr.actions| <= |cs|
    ensures |tr.actions| < |cs| ==> |tr.actions| >= 1 && tr.actions[|tr.actions| - 1].Finish?
    decreases |cs|
  {
    if cs == [] then Trace(t, [])
    else
      var o := Step(n, verificationSum, t, cs[0]);
      if o.action.Finish? then Trace(o.next, [o.action])
      else
        var rest := Run(n, verificationSum, o.next, cs[1..]);
        Trace(rest.last, [o.action] + rest.actions)
  }

  /** Only the last action of a run can be Finish: the handler exits there. */
  lemma {:induction false} RunStopsAtFinish(n: nat, vs: int, t: Tally, cs: seq<Completion>)
    ensures forall k | 0 <= k < |Run(n, vs, t, cs).actions| - 1 :: !Run(n, vs, t, cs).actions[k].Finish?
    decreases |cs|
  {
    if cs != [] {
      var o := Step(n, vs, t, cs[0]);
      if !o.action.Finish? {
        RunStopsAtFinish(n, vs, o.next, cs[1..]);
      }
    }
  }

  /** Unfolds Run once at position i of `cs`. */
  lemma RunAt(n: nat, vs: int, t: Tally, cs: seq<Completion>, i: nat)
    requires i < |cs|
    ensures var o := Step(n, vs, t, cs[i]);
      Run(n, vs, t, cs[i..]) ==
        if o.action.Finish? then Trace(o.next, [o.action])
        else Trace(Run(n, vs, o.next, cs[i + 1..]).last, [o.action] + Run(n, vs, o.next, cs[i + 1..]).actions)
  {
    assert cs[i..][0] == cs[i] && cs[i..][1..] == cs[i + 1..];
  }

  /**
   * Handling completion i extends a run that has produced `acts` so far:
   * the step's action is appended, and the run ends there if it finishes.
   */
  lemma RunExtend(n: nat, vs: int, t0: Tally, cs: seq<Completion>, i: nat,
                  acts: seq<Action>, before: Tally, after: Tally, act: Action)
    requires i < |cs|
    requires Run(n, vs, t0, cs) ==
      Trace(Run(n, vs, before, cs[i..]).last, acts + Run(n, vs, before, cs[i..]).actions)
    requires Outcome(after, act) == Step(n, vs, before, cs[i])
    ensures act.Finish? ==> Run(n, vs, t0, cs) == Trace(after, acts + [act])
    ensures !act.Finish? ==> (Run(n, vs, t0, cs) ==
      Trace(Run(n, vs, after, cs[i + 1..]).last, (acts + [act]) + Run(n, vs, after, cs[i + 1..]).actions))
  {
    RunAt(n, vs, before, cs, i);
    var rest := Run(n, vs, after, cs[i + 1..]);
    assert (acts + [act]) + rest.actions == acts + ([act] + rest.actions);
  }

  /** The counters between two completions: each phase has not yet reached its threshold. */
  predicate Inv(n: nat, t: Tally)
  {
    n >= 1 && IsInt64(t.sum) &&
    (if t.doneWriting then t.count < n * 4 else t.count < n * 3)
  }

  /** How many completions of the whole 7N-completion protocol have been seen. */
  function Progress(n: nat, t: Tally): nat
  {
    if t.doneWriting then n * 3 + t.count else t.count
  }

  /** The 64-bit sum of the payloads of the tagged completions, added to `sum` in order. */
  function PayloadSum(sum: int, cs: seq<Completion>): int
    decreases |cs|
  {
    if cs == [] then sum
    else PayloadSum(if cs[0].userData > 0 then WrappingAdd(sum, cs[0].payload) else sum, cs[1..])
  }

  /**
   * Every completion raises the count by exactly one whatever its result;
   * the only exception is the transition, which resets it to zero.
   */
  lemma StepCounts(n: nat, vs: int, t: Tally, c: Completion)
    ensures var o := Step(n, vs, t, c);
      o.next.count == t.count + 1 ||
      (o.next.count == 0 && !t.doneWriting && o.next.doneWriting && t.count + 1 == n * 3)
  {
  }

  /** A completion's result never changes what the handler does: a failure is only logged. */
  lemma StepIgnoresResult(n: nat, vs: int, t: Tally, c: Completion, result: int)
    ensures Step(n, vs, t, c) == Step(n, vs, t, c.(result := result))
  {
  }

  /** The sum changes only for tagged completions, by a wrapping add of the payload. */
  lemma StepSum(n: nat, vs: int, t: Tally, c: Completion)
    requires IsInt64(t.sum)
    ensures var o := Step(n, vs, t, c);
      IsInt64(o.next.sum) &&
      (c.userData == 0 ==> o.next.sum == t.sum) &&
      (c.userData > 0 ==> (o.next.sum - (t.sum + c.payload)) % Int64Modulus == 0) &&
      (c.userData > 0 && IsInt64(t.sum + c.payload) ==> o.next.sum == t.sum + c.payload)
  {
  }

  /**
   * The write-to-read transition fires exactly when the write phase has not
   * ended and this is its 3N-th completion; it sets doneWriting, resets the
   * count and submits the N read chains, and doneWriting is never cleared.
   * For N >= 1 it never coincides with Finish.
   */
  lemma StepTransition(n: nat, vs: int, t: Tally, c: Completion)
    requires n >= 1
    ensures var o := Step(n, vs, t, c);
      (o.action.SubmitReadPhase? <==> !t.doneWriting && t.count + 1 == n * 3) &&
      (o.action.SubmitReadPhase? ==>
        o.next.doneWriting && o.next.count == 0 && o.action.chains == ReadPhase(n)) &&
      (t.doneWriting ==> o.next.doneWriting) &&
      (!t.doneWriting && t.count + 1 != n * 3 ==> !o.next.doneWriting)
  {
  }

  /**
   * Finish happens exactly when doneWriting holds and this is the 4N-th
   * completion of the read phase, and exits with 0 iff the sum equals the
   * expected sum.
   */
  lemma StepFinish(n: nat, vs: int, t: Tally, c: Completion)
    requires n >= 1
    ensures var o := Step(n, vs, t, c);
      (o.action.Finish? <==> t.doneWriting && t.count + 1 == n * 4) &&
      (o.action.Finish? ==> o.next.doneWriting && o.next.count == n * 4) &&
      (o.action.Finish? ==> (o.action.exitCode == 0 <==> o.next.sum == vs)) &&
      (o.action.Finish? ==> (o.action.exitCode == 1 <==> o.next.sum != vs))
  {
  }

  /**
   * Between completions the counters stay below their thresholds, and every
   * completion that does not finish advances the protocol by exactly one.
   */
  lemma StepPreservesInv(n: nat, vs: int, t: Tally, c: Completion)
    requires Inv(n, t)
    ensures var o := Step(n, vs, t, c);
      (o.action.Finish? <==> Progress(n, t) + 1 == n * 7) &&
      (o.action.SubmitReadPhase? <==> Progress(n, t) + 1 == n * 3) &&
      (!o.action.Finish? ==> Inv(n, o.next) && Progress(n, o.next) == Progress(n, t) + 1)
  {
    StepSum(n, vs, t, c);
    StepTransition(n, vs, t, c);
    StepFinish(n, vs, t, c);
  }

  /**
   * Accounting over a run: the k-th completion handled from `t` triggers the
   * read phase exactly when it is the 3N-th of the protocol and finishes
   * exactly when it is the 7N-th; the run handles every completion until then.
   */
  lemma {:induction false} RunAccounting(n: nat, vs: int, t: Tally, cs: seq<Completion>)
    requires Inv(n, t)
    ensures var r := Run(n, vs, t, cs);
      |r.actions| == if |cs| < n * 7 - Progress(n, t) then |cs| else n * 7 - Progress(n, t)
    ensures var r := Run(n, vs, t, cs);
      forall k | 0 <= k < |r.actions| ::
        (r.actions[k].SubmitReadPhase? <==> Progress(n, t) + k + 1 == n * 3) &&
        (r.actions[k].Finish? <==> Progress(n, t) + k + 1 == n * 7) &&
        (r.actions[k].SubmitReadPhase? ==> r.actions[k].chains == ReadPhase(n))
    ensures var r := Run(n, vs, t, cs);
      |r.actions| < n * 7 - Progress(n, t) ==>
        Inv(n, r.last) && Progress(n, r.last) == Progress(n, t) + |r.actions|
    ensures var r := Run(n, vs, t, cs);
      |r.actions| == n * 7 - Progress(n, t) ==>
        r.actions[|r.actions| - 1] == Finish(if r.last.sum == vs then 0 else 1)
    decreases |cs|
  {
    if cs != [] {
      var o := Step(n, vs, t, cs[0]);
      StepPreservesInv(n, vs, t, cs[0]);
      StepTransition(n, vs, t, cs[0]);
      StepFinish(n, vs, t, cs[0]);
      if !o.action.Finish? {
        RunAccounting(n, vs, o.next, cs[1..]);
        var rest := Run(n, vs, o.next, cs[1..]);
        var r := Run(n, vs, t, cs);
        assert r.actions == [o.action] + rest.actions;
        forall k | 1 <= k < |r.actions|
          ensures r.actions[k] == rest.actions[k - 1]
        {
        }
      }
    }
  }

  /** The sum a run ends with is the wrapping sum of the payloads of the tagged completions it handled. */
  lemma {:induction false} RunSum(n: nat, vs: int, t: Tally, cs: seq<Completion>)
    ensures var r := Run(n, vs, t, cs);
      |r.actions| <= |cs| && r.last.sum == PayloadSum(t.sum, cs[..|r.actions|])
    decreases |cs|
  {
    if cs != [] {
      var o := Step(n, vs, t, cs[0]);
      if o.action.Finish? {
        assert cs[..1][1..] == [];
      } else {
        RunSum(n, vs, o.next, cs[1..]);
        var r := Run(n, vs, t, cs);
        assert cs[..|r.actions|][1..] == cs[1..][..|r.actions| - 1];
      }
    }
  }

  /**
   * The whole protocol from a fresh handler: of the first 7N completions the
   * 3N-th submits the read chains, the 7N-th finishes, every other one does
   * nothing else, and the exit code is 0 iff the payloads of the tagged
   * completions add up (mod 2^64) to N(N - 1).
   */
  lemma FullRun(n: nat, cs: seq<Completion>)
    requires n >= 1 && |cs| >= n * 7
    ensures var r := Run(n, n * (n - 1), Initial, cs);
      |r.actions| == n * 7 &&
      r.actions[n * 3 - 1] == SubmitReadPhase(ReadPhase(n)) &&
      r.actions[n * 7 - 1] == Finish(if PayloadSum(0, cs[..n * 7]) == n * (n - 1) then 0 else 1) &&
      (forall k | 0 <= k < n * 7 && k != n * 3 - 1 && k != n * 7 - 1 :: r.actions[k] == None)
  {
    RunAccounting(n, n * (n - 1), Initial, cs);
    RunSum(n, n * (n - 1), Initial, cs);
  }

  /**
   * The handler's mutable state. `n` is FILE_COUNT and `verificationSum` the
   * checksum computed by the seeding loop.
   */
  class Dispatcher {
    const n: nat
    const verificationSum: int
    var count: nat
    var doneWriting: bool
    var sum: int

    ghost function State(): Tally
      reads this
    {
      Tally(count, doneWriting, sum)
    }

    ghost predicate Valid()
      reads this
    {
      Inv(n, State())
    }

    constructor (n: nat, verificationSum: int)
      requires n >= 1
      ensures Valid() && State() == Initial
      ensures this.n == n && this.verificationSum == verificationSum
    {
      this.n := n;
      this.verificationSum := verificationSum;
      count := 0;
      doneWriting := false;
      sum := 0;
    }

    /** The body of the drain loop for one completion. */
    method OnCompletion(c: Completion) returns (act: Action)
      requires Valid()
      modifies this
      ensures Outcome(State(), act) == Step(n, verificationSum, old(State()), c)
      ensures act.Finish? || Valid()
    {
      ghost var before := State();
      count := count + 1;
      // A negative result is only logged.
      if c.userData > 0 {
        sum := WrappingAdd(sum, c.payload);
      }
      act := None;
      if !doneWriting && count == n * 3 {
        doneWriting := true;
        count := 0;
        var chains := PrepareReadPhase(n);
        act := SubmitReadPhase(chains);
      }
      if doneWriting && count == n * 4 {
        act := Finish(if sum == verificationSum then 0 else 1);
      }
      StepPreservesInv(n, verificationSum, before, c);
    }

    /**
     * One run of the handler: drain every completion that is ready, stopping
     * at Finish, where the process exits.
     */
    method Drain(ready: seq<Completion>) returns (acts: seq<Action>)
      requires Valid()
      modifies this
      ensures Trace(State(), acts) == Run(n, verificationSum, old(State()), ready)
      ensures (acts == [] || !acts[|acts| - 1].Finish?) ==> Valid()
    {
      acts := [];
      var i := 0;
      while i < |ready|
        invariant 0 <= i <= |ready|
        invariant Valid()
        invariant acts == [] || !acts[|acts| - 1].Finish?
        invariant Run(n, verificationSum, old(State()), ready) ==
          Trace(Run(n, verificationSum, State(), ready[i..]).last,
                acts + Run(n, verificationSum, State(), ready[i..]).actions)
      {
        ghost var before := State();
        var act := OnCompletion(ready[i]);
        RunExtend(n, verificationSum, old(State()), ready, i, acts, before, State(), act);
        acts := acts + [act];
        i := i + 1;
        if act.Finish? {
          return;
        }
      }
      assert ready[i..] == [];
    }
  }
}
