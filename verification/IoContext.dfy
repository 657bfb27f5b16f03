/** `io_context::run`: the driver of the poll loop, with handlers that call back into it. */
module IoContext {
  import opened PollLoop
  import opened PollWait
  import opened PollContext
  import H = Handshake
  import PollLaws

  /** A call a handler makes. */
  datatype Call =
    | MakeSocket(fd: int)
    | ReleaseSocket(id: nat)
    | Start(op: nat, request: Request, stopped: bool, inline: ConnectNow, now: int)
    | Stop(op: nat)
    | Spawn(task: nat)

  /** The environment of one `run_one`: the clock at entry, the returns of `poll`, and the calls the
      handler of the delivered signal makes. */
  datatype Turn = Turn(now: int, rounds: seq<Round>, handler: seq<Call>)

  datatype End =
    | Running     // more turns can follow
    | Waiting     // inside `poll`, when the returns given for it end
    | Finished    // no work is left
    | PollFailed
    | Aborted     // `std::terminate`

  function ActionOf(c: Call, free: nat): Action {
    match c
    case MakeSocket(fd) => OpenSocket(free, fd)
    case ReleaseSocket(id) => Release(id)
    case Start(op, r, stopped, inline, now) => if stopped then BeginStopped(op, r) else Begin(op, r, inline, now)
    case Stop(op) => RequestStop(op)
    case Spawn(task) => Schedule(task)
  }

  /** Which calls can be made. */
  lemma {:induction false} CallIsPossible(l: Loop, c: Call, free: nat)
    requires !l.terminated
    ensures Enabled(l, ActionOf(c, free)) <==>
            match c
            case MakeSocket(_) => free !in l.sockets
            case ReleaseSocket(id) =>
              id in l.sockets && forall o :: o in l.outstanding && o in l.ops && !l.ops[o].request.ResumeAt? ==>
                l.ops[o].request.socket != id
            case Start(op, r, _, _, _) => op !in l.ops && (r.ResumeAt? || r.socket in l.sockets)
            case Stop(op) => op in l.ops
            case Spawn(task) => task !in l.tasks
  {
  }

  /** What each call does to the loop. */
  lemma {:induction false} CallMeans(l: Loop, c: Call, free: nat)
    requires Inv(l) && Enabled(l, ActionOf(c, free))
    ensures var l' := Step(l, ActionOf(c, free));
            match c
            case MakeSocket(fd) => l' == l.(sockets := l.sockets[free := fd])
            case ReleaseSocket(id) => l' == l.(sockets := l.sockets - {id})
            case Spawn(task) => l' == l.(tasks := [task] + l.tasks)
            case Stop(op) =>
              && (l'.terminated <==> op in l.lost)
              && (op !in l.lost ==> op in l'.ops && !Holds(l', op) && (!Holds(l, op) ==> l' == l))
              && (Holds(l, op) ==> op in l'.ops && l'.ops[op].counter.signals == [H.Stopped])
            case Start(op, r, stopped, inline, now) =>
              && (l'.terminated <==> stopped)
              && op in l'.ops && l'.ops[op].request == r
              && l'.ops[op].counter.signals ==
                 (if stopped then []
                  else if r.ResumeAt? && r.deadline <= now then [H.Value]
                  else if r.Connect? && inline.Connected? then [H.Value]
                  else if r.Connect? && inline.Refused? then [H.Error(inline.errno)]
                  else [])
  {
    match c
    case Stop(op) =>
      TerminatesExactly(l, RequestStop(op));
      assert OpOk(l, op);
      if op !in l.lost {
        PollLaws.StopSends(l, op);
      }
    case Start(op, r, stopped, inline, now) =>
      if !stopped {
        PollLaws.BeginSends(l, op, r, inline, now);
      }
    case _ =>
  }

  // ---- what a driver makes of its environment ----

  /** The context, everything that was done to it, and what `run` has counted. */
  datatype Progress = Progress(machine: Machine, trace: seq<Action>, count: nat, end: End)

  /** One action; an action that is not possible is not made. */
  ghost function Take(p: Progress, a: Action): Progress {
    if Inv(p.machine.loop) && Enabled(p.machine.loop, a) then
      var m := Act(p.machine, a);
      p.(machine := m, trace := p.trace + [a], end := if m.loop.terminated then Aborted else p.end)
    else p
  }

  /** Calls, in order, until one of them terminates the program. */
  ghost function Performed(p: Progress, calls: seq<Call>): Progress
    decreases |calls|
  {
    if calls == [] || !p.end.Running? then p
    else Performed(Take(p, ActionOf(calls[0], p.machine.table.free)), calls[1..])
  }

  /** One call of `run_one`, up to the handler. */
  ghost function Called(p: Progress, turn: Turn): Progress {
    var choice := Choose(p.machine.loop, turn.now, turn.rounds);
    match choice
    case Nothing => p.(end := Finished)
    case Broken => p.(end := PollFailed)
    case Blocked => p.(end := Waiting)
    case _ => Take(p, Chosen(choice, turn.now, turn.rounds, p.machine.table.free)).(count := p.count + 1)
  }

  /** One round of the loop in `run`. */
  ghost function TurnTaken(p: Progress, turn: Turn): Progress {
    Performed(Called(p, turn), turn.handler)
  }

  /** The whole of `run`. */
  ghost function Ran(p: Progress, turns: seq<Turn>): Progress
    decreases |turns|
  {
    if turns == [] || !p.end.Running? then p else Ran(TurnTaken(p, turns[0]), turns[1..])
  }

  lemma {:induction false} PerformedTwice(p: Progress, a: seq<Call>, b: seq<Call>, both: seq<Call>)
    requires both == a + b
    ensures Performed(p, both) == Performed(Performed(p, a), b)
    decreases |a|
  {
    if a == [] {
      assert both == b;
    } else if p.end.Running? {
      assert both[0] == a[0] && both[1..] == a[1..] + b;
      PerformedTwice(Take(p, ActionOf(a[0], p.machine.table.free)), a[1..], b, both[1..]);
    }
  }

  // ---- the driver ----

  /** `trace` is a run from the empty loop to where the context is, and `end` says if it aborted. */
  ghost predicate Traced(ctx: Context, p: Progress)
    reads ctx, ctx.sockets
  {
    && ctx.Valid() && p.machine == ctx.Snapshot()
    && Legal(EMPTY, p.trace) && Exec(EMPTY, p.trace) == ctx.Model()
    && (p.end.Aborted? <==> ctx.terminated)
  }

  lemma {:induction false} DispatchesStep(h: seq<Action>, a: Action)
    ensures Dispatches(h + [a]) == Dispatches(h) + if IsDispatch(a) then 1 else 0
  {
    assert (h + [a])[..|h + [a]| - 1] == h;
  }

  lemma {:induction false} DispatchNeverTerminates(l: Loop, a: Action)
    requires Inv(l) && Enabled(l, a) && IsDispatch(a)
    ensures !Step(l, a).terminated
  {
    TerminatesExactly(l, a);
  }

  /** An action that was taken extends the trace. */
  lemma {:induction false} TakeExtends(p: Progress, a: Action)
    requires Legal(EMPTY, p.trace) && Exec(EMPTY, p.trace) == p.machine.loop && Enabled(p.machine.loop, a)
    ensures var q := Take(p, a);
            && q.trace == p.trace + [a] && q.machine == Act(p.machine, a) && q.count == p.count
            && Legal(EMPTY, q.trace) && Exec(EMPTY, q.trace) == q.machine.loop
            && q.end == (if q.machine.loop.terminated then Aborted else p.end)
            && Dispatches(q.trace) == Dispatches(p.trace) + if IsDispatch(a) then 1 else 0
  {
    ExecStep(EMPTY, p.trace, a);
    DispatchesStep(p.trace, a);
  }

  /** One call into the loop. Calls its contract excludes are not made. */
  method Perform(ctx: Context, c: Call) returns (ghost a: Action)
    requires ctx.Valid() && !ctx.terminated
    modifies ctx, ctx.sockets
    ensures ctx.Valid() && !IsDispatch(a) && a == ActionOf(c, old(ctx.sockets.free))
    ensures ctx.Snapshot() == if Enabled(old(ctx.Model()), a) then Act(old(ctx.Snapshot()), a)
                              else old(ctx.Snapshot())
  {
    var action := ActionOf(c, ctx.sockets.free);
    a := action;
    if !Enabled(ctx.Model(), action) {
      return;
    }
    StepKeepsInv(ctx.Model(), action);
    match action {
      case OpenSocket(_, fd) =>
        MakeSocketIn(ctx, fd);
      case Release(id) =>
        ctx.sockets.EraseRecord(id);
      case Begin(op, r, inline, now) =>
        ctx.BeginOperation(op, r, inline, now);
      case BeginStopped(op, r) =>
        ctx.BeginOnStoppedToken(op, r);
      case RequestStop(op) =>
        ctx.StopOperation(op);
      case Schedule(task) =>
        ctx.ScheduleTask(task);
    }
  }

  /** `make_socket` */
  method MakeSocketIn(ctx: Context, fd: int)
    requires ctx.Valid() && !ctx.terminated && Enabled(ctx.Model(), OpenSocket(ctx.sockets.free, fd))
    modifies ctx.sockets
    ensures ctx.Valid() && ctx.Snapshot() == Act(old(ctx.Snapshot()), OpenSocket(old(ctx.sockets.free), fd))
  {
    StepKeepsInv(ctx.Model(), OpenSocket(ctx.sockets.free, fd));
    ctx.sockets.UsableNow();
    var _ := ctx.sockets.InsertRecord(fd);
  }

  /** The calls a handler makes, in order, until one of them terminates the program. */
  method Handle(ctx: Context, calls: seq<Call>, ghost p: Progress) returns (ghost q: Progress)
    requires Traced(ctx, p) && (p.end.Running? || p.end.Aborted?)
    modifies ctx, ctx.sockets
    ensures Traced(ctx, q) && q == Performed(p, calls) && (q.end.Running? || q.end.Aborted?)
    ensures p.trace <= q.trace && Dispatches(q.trace) == Dispatches(p.trace) && q.count == p.count
  {
    q := p;
    var k := 0;
    assert calls[0..] == calls;
    while k < |calls| && !ctx.terminated
      invariant k <= |calls| && Traced(ctx, q) && (q.end.Running? || q.end.Aborted?)
      invariant Performed(q, calls[k..]) == Performed(p, calls)
      invariant p.trace <= q.trace && Dispatches(q.trace) == Dispatches(p.trace) && q.count == p.count
    {
      ghost var rest := calls[k..];
      assert rest[0] == calls[k] && rest[1..] == calls[k + 1..];
      ghost var a := Perform(ctx, calls[k]);
      if Enabled(q.machine.loop, a) {
        TakeExtends(q, a);
      }
      q := Take(q, a);
      k := k + 1;
    }
  }

  /** `run_one`, up to the handler. */
  method CallOnce(ctx: Context, perMs: nat, turn: Turn, ghost p: Progress)
    returns (c: nat, end: End, ghost q: Progress)
    requires Traced(ctx, p) && p.end.Running? && perMs > 0
    modifies ctx, ctx.sockets
    ensures Traced(ctx, q) && q == Called(p, turn) && q.end == end && !end.Aborted?
    ensures q.count == p.count + c && c == (if end.Running? then 1 else 0)
    ensures p.trace <= q.trace && Dispatches(q.trace) == Dispatches(p.trace) + c
    ensures end.Finished? ==> ctx.tasks == [] && ctx.timeouts == [] && ctx.outstanding == []
  {
    var choice: Choice;
    ghost var done: Action;
    var waits: seq<int>;
    c, choice, done, waits := ctx.RunOne(turn.now, perMs, turn.rounds);
    if c == 0 {
      end := if choice.Nothing? then Finished else if choice.Broken? then PollFailed else Waiting;
      q := p.(end := end);
      NothingMeansEmpty(ctx.Model(), turn.now, turn.rounds);
    } else {
      end := Running;
      TakeExtends(p, done);
      DispatchNeverTerminates(p.machine.loop, done);
      q := Take(p, done).(count := p.count + 1);
    }
  }

  /** One round of the loop in `run`: a call of `run_one`, with the handler it ends in. */
  method TakeTurn(ctx: Context, perMs: nat, turn: Turn, ghost p: Progress)
    returns (c: nat, end: End, ghost q: Progress)
    requires Traced(ctx, p) && p.end.Running? && perMs > 0
    modifies ctx, ctx.sockets
    ensures Traced(ctx, q) && q == TurnTaken(p, turn) && q.end == end
    ensures q.count == p.count + c && c == (if end.Running? || end.Aborted? then 1 else 0)
    ensures p.trace <= q.trace && Dispatches(q.trace) == Dispatches(p.trace) + c
    ensures end.Finished? ==> ctx.tasks == [] && ctx.timeouts == [] && ctx.outstanding == []
  {
    c, end, q := CallOnce(ctx, perMs, turn, p);
    if c > 0 {
      q := Handle(ctx, turn.handler, q);
      end := if ctx.terminated then Aborted else Running;
    }
  }

  /** What an end without work says about everything that was ever started. */
  lemma {:induction false} FinishedMeansDone(h: seq<Action>)
    requires Legal(EMPTY, h) && !Exec(EMPTY, h).terminated
    requires var l := Exec(EMPTY, h); l.outstanding == [] && l.timeouts == [] && l.tasks == []
    ensures AllDone(Exec(EMPTY, h), h) <==> Exec(EMPTY, h).lost == {}
    ensures AllDone(Exec(EMPTY, h), h) <==> NeverStale(h)
    ensures Benign(h) ==> AllDone(Exec(EMPTY, h), h)
  {
    EmptyMeansDoneExactly(h);
    if Benign(h) {
      EmptyMeansDone(h);
    }
  }

  /** `run`, on a context with any history `before`. It returns the number of dispatches it makes.
      When it ends because no work is left, the loop is empty; and everything ever started, before `run`
      and during it, was delivered to exactly once, and every task ever scheduled was completed, if and
      only if nothing was lost: that is, if nothing was reported ready too early. */
  method Run(ctx: Context, perMs: nat, turns: seq<Turn>, ghost before: seq<Action>)
    returns (count: nat, end: End, ghost trace: seq<Action>)
    requires ctx.Valid() && !ctx.terminated && perMs > 0
    requires Legal(EMPTY, before) && Exec(EMPTY, before) == ctx.Model()
    modifies ctx, ctx.sockets
    ensures ctx.Valid() && before <= trace
    ensures Legal(EMPTY, trace) && ctx.Model() == Exec(EMPTY, trace)
    ensures count == Dispatches(trace) - Dispatches(before)
    ensures end.Aborted? <==> ctx.terminated
    ensures end.Finished? ==> ctx.tasks == [] && ctx.timeouts == [] && ctx.outstanding == []
    ensures end.Finished? ==> (AllDone(ctx.Model(), trace) <==> ctx.lost == {})
    ensures end.Finished? ==> (AllDone(ctx.Model(), trace) <==> NeverStale(trace))
    ensures end.Finished? && Benign(trace) ==> AllDone(ctx.Model(), trace)
    ensures Progress(ctx.Snapshot(), trace, count, end) ==
            Ran(Progress(old(ctx.Snapshot()), before, 0, Running), turns)
  {
    ghost var p := Progress(ctx.Snapshot(), before, 0, Running);
    ghost var start := p;
    count, end := 0, Running;
    var k := 0;
    assert turns[0..] == turns;
    while k < |turns| && end.Running?
      invariant k <= |turns| && Traced(ctx, p) && p.end == end
      invariant Ran(p, turns[k..]) == Ran(start, turns)
      invariant before <= p.trace && p.count == count == Dispatches(p.trace) - Dispatches(before)
      invariant end.Finished? ==> ctx.tasks == [] && ctx.timeouts == [] && ctx.outstanding == []
    {
      ghost var rest := turns[k..];
      assert rest[0] == turns[k] && rest[1..] == turns[k + 1..];
      var c: nat;
      c, end, p := TakeTurn(ctx, perMs, turns[k], p);
      count := count + c;
      k := k + 1;
    }
    trace := p.trace;
    if end.Finished? {
      FinishedMeansDone(trace);
    }
  }
}
