/** How `run_one` chooses what to do, the timeout it hands to `poll`, and what its stale clock costs. */
module PollWait {
  import opened PollLoop

  /** One return of `poll`: a failure that is retried or not, or a report together with the clock
      read after it and the result of the system call a ready operation would make. */
  datatype Round = Failed(retry: bool) | Polled(report: seq<Ready>, sys: Sys, clock: int)

  datatype Choice =
    | Nothing                          // no work is left: `run_one` returns 0
    | Broken                           // `poll` failed for good: `run_one` returns 0
    | TimerAtOnce | TaskAtOnce
    | Readiness(round: nat)            // the report of this round is dispatched
    | TimerAfter(round: nat)           // the front timer is due after this round
    | Blocked                          // still waiting when the rounds end

  predicate IsHit(l: Loop, r: Round) {
    r.Polled? && LastHit(l.poll, r.report, |l.poll|) >= 0
  }

  /** A completed wait that found nothing ready. */
  predicate IsIdle(l: Loop, r: Round) {
    r.Polled? && !IsHit(l, r)
  }

  /** The wait loop, from round `k` on: the first round that ends it decides. */
  function Wait(l: Loop, rounds: seq<Round>, k: nat): (c: Choice)
    requires k <= |rounds|
    ensures c.Readiness? ==> k <= c.round < |rounds| && IsHit(l, rounds[c.round])
    ensures c.TimerAfter? ==>
              k <= c.round < |rounds| && rounds[c.round].Polled? && Due(l, rounds[c.round].clock)
    ensures !c.Nothing? && !c.TimerAtOnce? && !c.TaskAtOnce?
    decreases |rounds| - k
  {
    if k == |rounds| then Blocked else
    match rounds[k]
    case Failed(retry) => if retry then Wait(l, rounds, k + 1) else Broken
    case Polled(report, sys, clock) =>
      if IsHit(l, rounds[k]) then Readiness(k)
      else if Due(l, clock) then TimerAfter(k)
      else Wait(l, rounds, k + 1)
  }

  /** A due timer first, then a task, then the descriptors. */
  function Choose(l: Loop, now: int, rounds: seq<Round>): Choice {
    if Due(l, now) then TimerAtOnce
    else if l.tasks != [] then TaskAtOnce
    else if l.poll == [] && l.timeouts == [] then Nothing
    else Wait(l, rounds, 0)
  }

  /** `run_one` returns 0 without a failure exactly when the loop has no work at all. */
  lemma {:induction false} NothingMeansEmpty(l: Loop, now: int, rounds: seq<Round>)
    requires Inv(l) && !l.terminated
    ensures Choose(l, now, rounds).Nothing? <==> l.tasks == [] && l.timeouts == [] && l.outstanding == []
  {
  }

  // ---- the timeout ----

  const INT_RANGE := 0x1_0000_0000

  /** Conversion to a 32-bit `int`. */
  function ToInt(n: int): int {
    (n + INT_RANGE / 2) % INT_RANGE - INT_RANGE / 2
  }

  /** Whole milliseconds in a duration counted in clock ticks, truncated toward zero. */
  function Milliseconds(ticks: int, perMs: nat): int
    requires perMs > 0
  {
    if ticks >= 0 then ticks / perMs else -(-ticks / perMs)
  }

  /** What is handed to `poll`; `now` is the clock reading from the start of `run_one`. */
  function Timeout(l: Loop, now: int, perMs: nat): int
    requires perMs > 0
  {
    var next := if l.timeouts == [] then now else l.timeouts[0].deadline;
    if now == next then -1 else ToInt(Milliseconds(next - now, perMs))
  }

  lemma {:induction false} ToIntOf(n: nat)
    ensures ToInt(n) == if n % INT_RANGE < INT_RANGE / 2 then n % INT_RANGE else n % INT_RANGE - INT_RANGE
  {
    var q, m := n / INT_RANGE, n % INT_RANGE;
    assert n == q * INT_RANGE + m;
    if m < INT_RANGE / 2 {
      assert n + INT_RANGE / 2 == q * INT_RANGE + (m + INT_RANGE / 2);
    } else {
      assert n + INT_RANGE / 2 == (q + 1) * INT_RANGE + (m - INT_RANGE / 2);
    }
  }

  /** On every pass of the wait loop, although `now` is never read again: the wait is unbounded when
      no timer is pending; while one is, it is bounded exactly if the milliseconds left, reduced to
      32 bits, stay below 2^31. */
  lemma {:induction false} WhenWaitsAreBounded(l: Loop, now: int, perMs: nat)
    requires perMs > 0 && !Due(l, now)
    ensures l.timeouts == [] ==> Timeout(l, now, perMs) == -1
    ensures l.timeouts != [] ==>
              var ms := (l.timeouts[0].deadline - now) / perMs;
              && (Timeout(l, now, perMs) < 0 <==> ms % INT_RANGE >= INT_RANGE / 2)
              && (Timeout(l, now, perMs) == -1 <==> ms % INT_RANGE == INT_RANGE - 1)
              && (ms < INT_RANGE / 2 ==> Timeout(l, now, perMs) == ms)
  {
    if l.timeouts != [] {
      var left := l.timeouts[0].deadline - now;
      assert left > 0 && left / perMs >= 0;
      ToIntOf(left / perMs);
    }
  }

  /** In a run: one operation that resumes 2^32 - 1 milliseconds from now is started on an empty loop.
      The timeout is -1, so the wait is unbounded. */
  lemma {:induction false} FarTimerWaitsForever()
    ensures var h := [Begin(0, ResumeAt(4294967295), InProgress, 0)];
            && Legal(EMPTY, h)
            && var l := Exec(EMPTY, h);
               l.timeouts == [Timer(0, 4294967295)] && !Due(l, 0) && Timeout(l, 0, 1) == -1
  {
    var a := Begin(0, ResumeAt(4294967295), InProgress, 0);
    ExecStep(EMPTY, [], a);
    assert [] + [a] == [a];
    ToIntOf(4294967295);
  }

  // ---- the cost of the stale clock ----

  function Idles(l: Loop, rounds: seq<Round>, k: nat): nat
    requires k <= |rounds|
  {
    if k == 0 then 0 else Idles(l, rounds, k - 1) + if IsIdle(l, rounds[k - 1]) then 1 else 0
  }

  /** Every idle `poll` from round `k` on lasts at least `span` ticks, seen from clock reading `from`. */
  ghost predicate IdlesAtLeast(l: Loop, rounds: seq<Round>, k: nat, from: int, span: nat)
    requires k <= |rounds|
    decreases |rounds| - k
  {
    k == |rounds| ||
    if IsIdle(l, rounds[k])
    then rounds[k].clock >= from + span && IdlesAtLeast(l, rounds, k + 1, rounds[k].clock, span)
    else IdlesAtLeast(l, rounds, k + 1, from, span)
  }

  lemma {:induction false} TwoSpansReach(left: nat, perMs: nat)
    requires perMs > 0 && left / perMs >= 1
    ensures 2 * (left / perMs * perMs) >= left
  {
    assert left == left / perMs * perMs + left % perMs;
    assert left / perMs * perMs >= perMs;
  }

  lemma {:induction false} IdlesUntilDue(l: Loop, rounds: seq<Round>, k: nat, from: int, now: int, span: nat)
    requires k <= |rounds| && l.timeouts != [] && IdlesAtLeast(l, rounds, k, from, span)
    requires Idles(l, rounds, k) <= 1 && from >= now + Idles(l, rounds, k) * span
    requires now + 2 * span >= l.timeouts[0].deadline
    ensures var c := Wait(l, rounds, k);
            && (c.Blocked? ==> Idles(l, rounds, |rounds|) <= 1)
            && (c.TimerAfter? ==> Idles(l, rounds, c.round + 1) <= 2)
    decreases |rounds| - k
  {
    if k < |rounds| && !IsHit(l, rounds[k]) && (rounds[k].Failed? ==> rounds[k].retry) {
      if IsIdle(l, rounds[k]) {
        if !Due(l, rounds[k].clock) {
          IdlesUntilDue(l, rounds, k + 1, rounds[k].clock, now, span);
        }
      } else {
        IdlesUntilDue(l, rounds, k + 1, from, now, span);
      }
    }
  }

  /** At most two completed idle waits separate the call of `run_one` from the front timer, however
      many interrupted ones lie between. */
  predicate TwoWaitsSuffice(l: Loop, rounds: seq<Round>) {
    var c := Wait(l, rounds, 0);
    && (c.Blocked? ==> Idles(l, rounds, |rounds|) <= 1)
    && (c.TimerAfter? ==> Idles(l, rounds, c.round + 1) <= 2)
  }

  /** They do, whenever every idle wait lasts at least `span` ticks. */
  ghost predicate TwoWaitsAlwaysSuffice(l: Loop, now: int, span: nat) {
    forall rounds :: IdlesAtLeast(l, rounds, 0, now, span) ==> TwoWaitsSuffice(l, rounds)
  }

  lemma {:induction false} NothingReady(poll: seq<PollFd>, n: nat)
    requires n <= |poll|
    ensures LastHit(poll, [], n) == -1
  {
  }

  /** Two idle waits of exactly `span` ticks. */
  lemma {:induction false} TwoIdleRounds(l: Loop, now: int, span: nat)
    requires l.timeouts != [] && now + 2 * span < l.timeouts[0].deadline
    ensures var rounds := [Polled([], Returned(0), now + span), Polled([], Returned(0), now + 2 * span)];
            IdlesAtLeast(l, rounds, 0, now, span) && !TwoWaitsSuffice(l, rounds)
  {
    var rounds := [Polled([], Returned(0), now + span), Polled([], Returned(0), now + 2 * span)];
    NothingReady(l.poll, |l.poll|);
    assert IsIdle(l, rounds[0]) && IsIdle(l, rounds[1]);
    assert IdlesAtLeast(l, rounds, 2, rounds[1].clock, span);
    assert IdlesAtLeast(l, rounds, 1, rounds[0].clock, span);
    assert Wait(l, rounds, 2) == Blocked;
    assert Wait(l, rounds, 1) == Blocked;
    assert Idles(l, rounds, 1) == 1;
  }

  /** Two waits suffice exactly if twice the wait reaches the deadline. */
  lemma {:induction false} TwoSpansDecide(l: Loop, now: int, span: nat)
    requires l.timeouts != []
    ensures TwoWaitsAlwaysSuffice(l, now, span) <==> now + 2 * span >= l.timeouts[0].deadline
  {
    if now + 2 * span >= l.timeouts[0].deadline {
      forall rounds | IdlesAtLeast(l, rounds, 0, now, span) ensures TwoWaitsSuffice(l, rounds) {
        IdlesUntilDue(l, rounds, 0, now, now, span);
      }
    } else {
      TwoIdleRounds(l, now, span);
    }
  }

  lemma {:induction false} LessTimes(a: nat, b: nat, k: nat)
    requires a < b && k > 0
    ensures a * k < b * k
  {
  }

  /** Fewer than half the milliseconds left do not reach far enough. */
  lemma {:induction false} TooShort(left: nat, perMs: nat, timeout: nat)
    requires perMs > 0 && 2 * timeout < left / perMs
    ensures 2 * (timeout * perMs) < left
  {
    var ms := left / perMs;
    LessTimes(2 * timeout, ms, perMs);
    assert 2 * (timeout * perMs) == 2 * timeout * perMs;
    assert left == ms * perMs + left % perMs;
  }

  /** The ticks `poll` waits for if nothing happens. */
  function Span(l: Loop, now: int, perMs: nat): nat
    requires perMs > 0 && Timeout(l, now, perMs) >= 0
  {
    Timeout(l, now, perMs) * perMs
  }

  /** The price of the stale clock and of the 32-bit timeout: when the wait is bounded, two completed
      idle waits suffice if and only if at least one whole millisecond and fewer than 2^31 are left at
      the entry of `run_one`. */
  lemma {:induction false} TwoIdleWaitsExactly(l: Loop, now: int, perMs: nat)
    requires perMs > 0 && l.timeouts != [] && !Due(l, now) && Timeout(l, now, perMs) >= 0
    ensures TwoWaitsAlwaysSuffice(l, now, Span(l, now, perMs)) <==>
            1 <= (l.timeouts[0].deadline - now) / perMs < INT_RANGE / 2
  {
    var left := l.timeouts[0].deadline - now;
    var ms := left / perMs;
    WhenWaitsAreBounded(l, now, perMs);
    TwoSpansDecide(l, now, Span(l, now, perMs));
    ToIntOf(ms);
    if 1 <= ms < INT_RANGE / 2 {
      TwoSpansReach(left, perMs);
    } else if ms >= INT_RANGE / 2 {
      TooShort(left, perMs, Timeout(l, now, perMs));
    }
  }

  /** So, in that range, at most two completed idle waits pass before the front timer fires. */
  lemma {:induction false} AtMostTwoIdleWaits(l: Loop, now: int, perMs: nat, rounds: seq<Round>)
    requires perMs > 0 && l.timeouts != [] && !Due(l, now)
    requires 1 <= (l.timeouts[0].deadline - now) / perMs < INT_RANGE / 2
    requires IdlesAtLeast(l, rounds, 0, now, Timeout(l, now, perMs) * perMs)
    ensures var c := Wait(l, rounds, 0);
            && (c.Blocked? ==> Idles(l, rounds, |rounds|) <= 1)
            && (c.TimerAfter? ==> Idles(l, rounds, c.round + 1) <= 2)
  {
    WhenWaitsAreBounded(l, now, perMs);
    TwoIdleWaitsExactly(l, now, perMs);
    assert TwoWaitsSuffice(l, rounds);
  }

  /** Far beyond 2^31 milliseconds the timeout can be as short as one: 2^32 + 1 milliseconds. */
  lemma {:induction false} FarTimerWakesEarly()
    ensures var h := [Begin(0, ResumeAt(4294967297), InProgress, 0)];
            && Legal(EMPTY, h)
            && var l := Exec(EMPTY, h);
               Timeout(l, 0, 1) == 1 && !TwoWaitsAlwaysSuffice(l, 0, 1)
  {
    var a := Begin(0, ResumeAt(4294967297), InProgress, 0);
    ExecStep(EMPTY, [], a);
    assert [] + [a] == [a];
    ToIntOf(4294967297);
    TwoSpansDecide(Exec(EMPTY, [a]), 0, 1);
  }

  function Spins(n: nat, now: int): seq<Round> {
    if n == 0 then [] else Spins(n - 1, now) + [Polled([], Returned(0), now)]
  }

  lemma {:induction false} SpinsAre(n: nat, now: int)
    ensures |Spins(n, now)| == n
    ensures forall i :: 0 <= i < n ==> Spins(n, now)[i] == Polled([], Returned(0), now)
  {
    if n > 0 {
      SpinsAre(n - 1, now);
    }
  }

  lemma {:induction false} SpinsAreIdle(l: Loop, now: int, rounds: seq<Round>, k: nat)
    requires l.timeouts != [] && !Due(l, now) && k <= |rounds|
    requires forall i :: 0 <= i < |rounds| ==> rounds[i] == Polled([], Returned(0), now)
    ensures Wait(l, rounds, k) == Blocked && IdlesAtLeast(l, rounds, k, now, 0)
    decreases |rounds| - k
  {
    if k < |rounds| {
      NothingReady(l.poll, |l.poll|);
      SpinsAreIdle(l, now, rounds, k + 1);
    }
  }

  lemma {:induction false} SpinsCount(l: Loop, now: int, rounds: seq<Round>, k: nat)
    requires k <= |rounds|
    requires forall i :: 0 <= i < |rounds| ==> rounds[i] == Polled([], Returned(0), now)
    ensures Idles(l, rounds, k) == k
  {
    if k > 0 {
      NothingReady(l.poll, |l.poll|);
      SpinsCount(l, now, rounds, k - 1);
    }
  }

  /** The condition is needed: with less than a millisecond left the timeout is 0, and any number of
      idle waits can go by before the front timer is due. */
  lemma {:induction false} LessThanAMillisecondSpins(l: Loop, now: int, perMs: nat, n: nat)
    requires perMs > 0 && l.timeouts != [] && !Due(l, now)
    requires (l.timeouts[0].deadline - now) / perMs == 0
    ensures Timeout(l, now, perMs) == 0
    ensures exists rounds ::
              && IdlesAtLeast(l, rounds, 0, now, Timeout(l, now, perMs) * perMs)
              && Wait(l, rounds, 0) == Blocked && Idles(l, rounds, |rounds|) == n
  {
    WhenWaitsAreBounded(l, now, perMs);
    var rounds := Spins(n, now);
    SpinsAre(n, now);
    SpinsAreIdle(l, now, rounds, 0);
    SpinsCount(l, now, rounds, n);
  }
}
