/** `io_context::async_run`: `repeat_effect_until` as the driver of a context. */
module AsyncRun {
  import H = Handshake
  import R = RepeatEffect
  import opened PollLoop
  import opened PollContext
  import opened IoContext

  /** What lies between the start of a body and its end: the hop to the scheduler, which is not the
      context's own. Others may call into the context meanwhile; then the scheduler admits the body
      or ends it; an admitted body calls `run_one`. */
  datatype Hop = Hop(others: seq<Call>, admitted: H.Outcome, turn: Turn)

  /** The driven context, and the signals `repeat_effect_until` has sent. */
  datatype Async = Async(progress: Progress, signals: seq<H.Signal>)

  /** An admitted body: a call of `run_one`, and then the predicate. */
  ghost function BodyTaken(p: Progress, turn: Turn): Async {
    var q := TurnTaken(p, turn);
    Async(q, if q.end.Finished? || q.end.PollFailed? then [H.Value] else [])
  }

  /** One body, from its start to its end. */
  ghost function HopTaken(a: Async, hop: Hop): Async {
    var p := Performed(a.progress, hop.others);
    if !p.end.Running? then a.(progress := p)
    else if !hop.admitted.Completed? then Async(p, [H.SignalOf(hop.admitted)])
    else BodyTaken(p, hop.turn)
  }

  ghost function HopsTaken(a: Async, hops: seq<Hop>): Async
    decreases |hops|
  {
    if hops == [] || a.signals != [] || !a.progress.end.Running? then a
    else HopsTaken(HopTaken(a, hops[0]), hops[1..])
  }

  // ---- the driver ----

  /** The upstream `just()` completes at once, and the predicate starts the first body. */
  lemma {:induction false} StartsBody(w: R.World)
    requires R.Takes(R.INIT, [R.Start] + R.EventsOf([R.Turn(1 == 0, R.Later)]), w)
    ensures w == R.World(R.Body, true, 1, [false], [])
  {
    var first := R.Ends(H.Completed, false);
    assert R.EventsOf([R.Turn(false, R.Later)]) == [first];
    assert ([R.Start] + [first])[1..] == [first];
    R.TakesOne(R.Step(R.INIT, R.Start), first, w);
  }

  /** The end of a body that runs after its start has returned. */
  method EndBody(state: R.State, o: H.Outcome, turns: seq<R.Turn>)
    requires state.phase.Body? && state.signals == []
    requires o.Completed? ==> |turns| == 1 && turns[0].body.Later?
    modifies state
    ensures state.phase.Body? <==> state.signals == []
    ensures state.signals == if !o.Completed? then [H.SignalOf(o)]
                             else if turns[0].verdict then [H.Value] else []
  {
    ghost var w := state.Model();
    state.ChildEnds(o, turns);
    R.TakesOne(w, R.Ends(o, o.Completed? && turns[0].verdict), state.Model());
  }

  /** The body of `async_run`. What it leaves in `last_count` decides whether the predicate lets another
      one start. */
  method TakeBody(ctx: Context, perMs: nat, state: R.State, turn: Turn, count: nat, ghost p: Progress)
    returns (lastCount: nat, end: End, ghost q: Progress)
    requires Traced(ctx, p) && p.end.Running? && perMs > 0
    requires state.phase.Body? && state.signals == []
    modifies ctx, ctx.sockets, state
    ensures Traced(ctx, q) && q.end == end && Async(q, state.signals) == BodyTaken(p, turn)
    ensures state.phase.Body? <==> state.signals == []
    ensures p.trace <= q.trace && q.count - p.count == Dispatches(q.trace) - Dispatches(p.trace)
    ensures end.Finished? ==> ctx.tasks == [] && ctx.timeouts == [] && ctx.outstanding == []
  {
    lastCount, end, q := TakeTurn(ctx, perMs, turn, p);
    if end.Waiting? || end.Aborted? {
      // `run_one` has not returned
      lastCount := count;
    } else {
      EndBody(state, H.Completed, [R.Turn(lastCount == 0, R.Later)]);
    }
  }

  /** The hop to the scheduler, and if it is admitted the body. */
  method TakeHop(ctx: Context, perMs: nat, state: R.State, hop: Hop, count: nat, ghost p: Progress)
    returns (lastCount: nat, end: End, ghost q: Progress)
    requires Traced(ctx, p) && p.end.Running? && perMs > 0
    requires state.phase.Body? && state.signals == []
    modifies ctx, ctx.sockets, state
    ensures Traced(ctx, q) && q.end == end
    ensures Async(q, state.signals) == HopTaken(Async(p, []), hop)
    ensures state.phase.Body? <==> state.signals == []
    ensures p.trace <= q.trace && q.count - p.count == Dispatches(q.trace) - Dispatches(p.trace)
    ensures end.Finished? ==> ctx.tasks == [] && ctx.timeouts == [] && ctx.outstanding == []
  {
    lastCount := count;
    q := Handle(ctx, hop.others, p);
    if ctx.terminated {
      end := Aborted;
    } else if hop.admitted.Completed? {
      lastCount, end, q := TakeBody(ctx, perMs, state, hop.turn, count, q);
    } else {
      end := Running;
      EndBody(state, hop.admitted, []);
    }
  }

  /** `async_run` on a context with any history `before`. The predicate tests `lastCount`, which is 1
      at first and is set by each body. The same is promised of the context as of `run`. */
  method AsyncRun(ctx: Context, perMs: nat, hops: seq<Hop>, ghost before: seq<Action>)
    returns (signals: seq<H.Signal>, ghost p: Progress)
    requires ctx.Valid() && !ctx.terminated && perMs > 0
    requires Legal(EMPTY, before) && Exec(EMPTY, before) == ctx.Model()
    modifies ctx, ctx.sockets
    ensures Async(p, signals) == HopsTaken(Async(Progress(old(ctx.Snapshot()), before, 0, Running), []), hops)
    ensures Traced(ctx, p) && before <= p.trace
    ensures p.count == Dispatches(p.trace) - Dispatches(before)
    ensures p.end.Finished? ==> ctx.tasks == [] && ctx.timeouts == [] && ctx.outstanding == []
    ensures p.end.Finished? ==> (AllDone(ctx.Model(), p.trace) <==> ctx.lost == {})
    ensures p.end.Finished? ==> (AllDone(ctx.Model(), p.trace) <==> NeverStale(p.trace))
    ensures p.end.Finished? && Benign(p.trace) ==> AllDone(ctx.Model(), p.trace)
  {
    p := Progress(ctx.Snapshot(), before, 0, Running);
    ghost var a := Async(p, []);
    var end, lastCount := Running, 1;
    var state := new R.State();
    state.StartUpstream(R.Inline(H.Completed), [R.Turn(lastCount == 0, R.Later)]);
    StartsBody(state.Model());
    var k := 0;
    assert hops[0..] == hops;
    while k < |hops| && state.phase.Body? && end.Running?
      invariant k <= |hops| && fresh(state) && Traced(ctx, p) && p.end == end
      invariant HopsTaken(Async(p, state.signals), hops[k..]) == HopsTaken(a, hops)
      invariant state.phase.Body? <==> state.signals == []
      invariant before <= p.trace && p.count == Dispatches(p.trace) - Dispatches(before)
      invariant end.Finished? ==> ctx.tasks == [] && ctx.timeouts == [] && ctx.outstanding == []
    {
      ghost var rest := hops[k..];
      assert rest[0] == hops[k] && rest[1..] == hops[k + 1..];
      lastCount, end, p := TakeHop(ctx, perMs, state, hops[k], lastCount, p);
      k := k + 1;
    }
    signals := state.signals;
    if end.Finished? {
      FinishedMeansDone(p.trace);
    }
  }

  // ---- async_run and run ----

  function OthersOf(hops: seq<Hop>): seq<Call> {
    if hops == [] then [] else hops[0].others
  }

  /** The environment `run` would need: what others do during a hop is done by the handler before it;
      a hop that is not admitted is the last. */
  function Merged(hops: seq<Hop>): seq<Turn> {
    if hops == [] || !hops[0].admitted.Completed? then []
    else
      var t := hops[0].turn;
      [t.(handler := t.handler + OthersOf(hops[1..]))] + Merged(hops[1..])
  }

  /** The first refusal of the scheduler, if there is one. */
  function Refusals(hops: seq<Hop>): seq<H.Outcome> {
    if hops == [] then []
    else if !hops[0].admitted.Completed? then [hops[0].admitted]
    else Refusals(hops[1..])
  }

  lemma {:induction false} LongerHandler(p: Progress, turn: Turn, more: seq<Call>)
    ensures TurnTaken(p, turn.(handler := turn.handler + more)) == Performed(TurnTaken(p, turn), more)
  {
    PerformedTwice(Called(p, turn), turn.handler, more, turn.handler + more);
  }

  lemma {:induction false} EndedIsFinal(p: Progress, calls: seq<Call>, turns: seq<Turn>)
    requires !p.end.Running?
    ensures Performed(p, calls) == p && Ran(p, turns) == p
  {
  }

  lemma {:induction false} RanOne(p: Progress, turn: Turn, turns: seq<Turn>)
    requires p.end.Running?
    ensures Ran(p, [turn] + turns) == Ran(TurnTaken(p, turn), turns)
  {
    assert ([turn] + turns)[1..] == turns;
  }

  /** `async_run` drives a context as `run` does: with the work others do between its hops done by
      the handlers instead, `run` makes the same dispatches and calls, counts the same and leaves the
      context in the same state. And `async_run` completes with a value exactly if `run` returns; it
      ends otherwise exactly if the scheduler refuses a body and `run` would go on. */
  lemma {:induction false} AsyncRunIsRun(p: Progress, hops: seq<Hop>)
    requires p.end.Running?
    ensures var a, q := HopsTaken(Async(p, []), hops), Ran(Performed(p, OthersOf(hops)), Merged(hops));
            && a.progress == q
            && a.signals == (if q.end.Finished? || q.end.PollFailed? then [H.Value]
                             else if q.end.Running? && Refusals(hops) != [] then [H.SignalOf(Refusals(hops)[0])]
                             else [])
    decreases |hops|
  {
    if hops != [] {
      var hop, rest := hops[0], hops[1..];
      var q := Performed(p, hop.others);
      PerformedEnds(p, hop.others);
      if q.end.Running? && hop.admitted.Completed? {
        var t := hop.turn;
        var t', r := t.(handler := t.handler + OthersOf(rest)), TurnTaken(q, t);
        RanOne(q, t', Merged(rest));
        LongerHandler(q, t, OthersOf(rest));
        if r.end.Running? {
          AsyncRunIsRun(r, rest);
        } else {
          EndedIsFinal(r, OthersOf(rest), Merged(rest));
        }
      }
    }
  }

  lemma {:induction false} PerformedEnds(p: Progress, calls: seq<Call>)
    ensures var q := Performed(p, calls); q.end == p.end || q.end.Aborted?
    decreases |calls|
  {
    if calls != [] && p.end.Running? {
      PerformedEnds(Take(p, ActionOf(calls[0], p.machine.table.free)), calls[1..]);
    }
  }

  // ---- when nobody else touches the context ----

  /** Every body is admitted, and nothing happens during the hops. */
  function Quiet(turns: seq<Turn>): seq<Hop> {
    if turns == [] then [] else [Hop([], H.Completed, turns[0])] + Quiet(turns[1..])
  }

  lemma {:induction false} QuietMerges(turns: seq<Turn>)
    ensures Merged(Quiet(turns)) == turns && OthersOf(Quiet(turns)) == [] && Refusals(Quiet(turns)) == []
  {
    if turns != [] {
      var t := turns[0];
      QuietMerges(turns[1..]);
      assert Quiet(turns)[1..] == Quiet(turns[1..]);
      assert t.handler + [] == t.handler;
      assert t.(handler := t.handler) == t;
    }
  }

  /** Then `async_run` is `run`, with the same environment: the same trace, count and context, and it
      has completed exactly if `run` has returned. */
  lemma {:induction false} QuietAsyncRunIsRun(p: Progress, turns: seq<Turn>)
    requires p.end.Running?
    ensures var a, q := HopsTaken(Async(p, []), Quiet(turns)), Ran(p, turns);
            a.progress == q && a.signals == if q.end.Finished? || q.end.PollFailed? then [H.Value] else []
  {
    QuietMerges(turns);
    AsyncRunIsRun(p, Quiet(turns));
  }
}
