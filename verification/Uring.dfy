/** `uring_context`: the two counters beside an io_uring, and the operations behind its entries. */
module Uring {
  import H = Handshake

  const QUEUE_DEPTH: nat := 128

  // errno values the completions are compared with
  const ENOENT := 2
  const ETIME := 62
  const ECANCELED := 125

  /** A submission queue entry: an operation, or the request to cancel it. */
  datatype Entry = Run(op: nat) | Cancel(op: nat)

  /** The handshake of an operation, and whether it is a timer. */
  datatype Op = Op(timer: bool, state: H.World)

  datatype World = World(
    queue: seq<Entry>,      // filled in, not submitted
    flying: set<Entry>,     // submitted, completion not seen
    submitting: nat,
    outstanding: nat,
    tasks: seq<nat>,
    ops: map<nat, Op>)

  const EMPTY := World([], {}, 0, 0, [], map[])

  /** The `work` functions: what a completion with result `res` says about an operation. */
  function OutcomeOf(timer: bool, res: int): H.Outcome {
    if res == -ECANCELED then H.Cancelled
    else if timer then (if res == -ETIME then H.Completed else H.Failed(-res))
    else if res < 0 then H.Failed(-res) else H.Completed
  }

  datatype Action =
    | Submit(count: nat)                          // the kernel takes that many entries
    | Begin(op: nat, timer: bool, stopped: bool)  // `start`, on a token that may be stopped already
    | Stop(op: nat)
    | Reap(entry: Entry, res: int)                // a completion
    | Schedule(task: nat)
    | RunTask

  predicate Held(w: World, e: Entry) {
    e in w.queue || e in w.flying
  }

  predicate Enabled(w: World, a: Action) {
    match a
    case Submit(n) => 1 <= n <= |w.queue|
    case Begin(op, _, _) => op !in w.ops && |w.queue| < QUEUE_DEPTH
    case Stop(op) =>
      op in w.ops && !w.ops[op].state.stopRequested &&
      (w.ops[op].state.counter.armed ==> |w.queue| < QUEUE_DEPTH)
    case Reap(e, _) => e in w.flying && e.op in w.ops
    case Schedule(task) => true
    case RunTask => w.tasks != []
  }

  function SetOf(s: seq<Entry>): set<Entry> {
    set e | e in s
  }

  /** `get_sqe` once there is room. */
  function Queue(w: World, e: Entry): World {
    w.(queue := w.queue + [e], submitting := w.submitting + 1, outstanding := w.outstanding + 1)
  }

  function Advance(o: Op, e: H.Event): Op {
    o.(state := H.Step(H.Unordered, o.state, e))
  }

  function Step(w: World, a: Action): World
    requires Enabled(w, a)
  {
    match a
    case Submit(n) =>
      w.(queue := w.queue[n..], flying := w.flying + SetOf(w.queue[..n]),
         submitting := if n <= w.submitting then w.submitting - n else 0)
    case Begin(op, timer, stopped) =>
      var born := Op(timer, H.INIT);
      var ready := if stopped then Advance(born, H.StopRequested) else born;
      Queue(w.(ops := w.ops[op := Advance(ready, H.Start(H.Accepted))]),
            if stopped then Cancel(op) else Run(op))
    case Stop(op) =>
      var after := Advance(w.ops[op], H.StopRequested);
      var w' := w.(ops := w.ops[op := after]);
      if after.state.callbackHeld && !w.ops[op].state.callbackHeld then Queue(w', Cancel(op)) else w'
    case Reap(e, res) =>
      var o := w.ops[e.op];
      var event := if e.Run? then H.OpArrives(OutcomeOf(o.timer, res)) else H.CallbackArrives;
      w.(flying := w.flying - {e}, outstanding := if w.outstanding > 0 then w.outstanding - 1 else 0,
         ops := w.ops[e.op := Advance(o, event)])
    case Schedule(task) => w.(tasks := [task] + w.tasks)
    case RunTask => w.(tasks := w.tasks[1..])
  }

  // ---- the invariant ----

  ghost predicate Distinct(s: seq<Entry>) {
    forall i, j :: 0 <= i < j < |s| ==> s[i] != s[j]
  }

  /** The counters count the entries: one those not submitted, the other all not completed. */
  ghost predicate RingOk(w: World) {
    && w.submitting == |w.queue| <= QUEUE_DEPTH
    && w.outstanding == |w.queue| + |w.flying|
    && Distinct(w.queue)
    && (forall e :: e in w.queue ==> e !in w.flying)
    && (forall e :: Held(w, e) ==> e.op in w.ops)
  }

  /** The ring holds an operation's entries exactly as its handshake expects. */
  predicate OpOk(w: World, op: nat)
    requires op in w.ops
  {
    var s := w.ops[op].state;
    && H.Inv(H.Unordered, s) && s.started && !s.returning
    && (s.opHeld <==> Held(w, Run(op)))
    && (s.callbackHeld <==> Held(w, Cancel(op)))
  }

  ghost predicate Inv(w: World) {
    RingOk(w) && forall op :: op in w.ops ==> OpOk(w, op)
  }

  lemma {:induction false} SetOfSize(s: seq<Entry>)
    requires Distinct(s)
    ensures |SetOf(s)| == |s|
  {
    if s != [] {
      var pre := s[..|s| - 1];
      SetOfSize(pre);
      assert SetOf(s) == SetOf(pre) + {s[|s| - 1]} by {
        assert s == pre + [s[|s| - 1]];
      }
      assert s[|s| - 1] !in pre;
    }
  }

  lemma {:induction false} SubmitMoves(w: World, n: nat)
    requires Enabled(w, Submit(n))
    ensures forall e :: Held(Step(w, Submit(n)), e) <==> Held(w, e)
  {
    assert w.queue == w.queue[..n] + w.queue[n..];
  }

  lemma {:induction false} SplitDistinct(s: seq<Entry>, n: nat)
    requires Distinct(s) && n <= |s|
    ensures Distinct(s[..n]) && Distinct(s[n..])
    ensures forall e :: e in s[n..] ==> e !in s[..n]
  {
    forall e | e in s[n..] ensures e !in s[..n] {
      var j :| 0 <= j < |s| - n && s[n..][j] == e;
      assert s[n + j] == e;
    }
  }

  lemma {:induction false} SubmitKeepsInv(w: World, n: nat)
    requires Inv(w) && Enabled(w, Submit(n))
    ensures Inv(Step(w, Submit(n)))
  {
    var w' := Step(w, Submit(n));
    SubmitMoves(w, n);
    SplitDistinct(w.queue, n);
    SetOfSize(w.queue[..n]);
    assert forall e :: e in w.queue[..n] ==> e in w.queue;
    assert w.flying * SetOf(w.queue[..n]) == {};
    forall op | op in w'.ops ensures OpOk(w', op) {
      assert OpOk(w, op);
    }
  }

  /** Queueing an entry for an operation whose handshake just came to expect it. */
  lemma {:induction false} QueueKeepsInv(w: World, op: nat, o: Op, e: Entry)
    requires Inv(w) && |w.queue| < QUEUE_DEPTH && e.op == op && !Held(w, e)
    requires H.Inv(H.Unordered, o.state) && o.state.started && !o.state.returning
    requires o.state.opHeld <==> e.Run? || Held(w, Run(op))
    requires o.state.callbackHeld <==> e.Cancel? || Held(w, Cancel(op))
    ensures Inv(Queue(w.(ops := w.ops[op := o]), e))
  {
    var w' := Queue(w.(ops := w.ops[op := o]), e);
    assert forall x :: x in w'.queue <==> x in w.queue || x == e;
    forall k | k in w'.ops ensures OpOk(w', k) {
      assert k != op ==> OpOk(w, k);
    }
  }

  lemma {:induction false} BeginKeepsInv(w: World, op: nat, timer: bool, stopped: bool)
    requires Inv(w) && Enabled(w, Begin(op, timer, stopped))
    ensures Inv(Step(w, Begin(op, timer, stopped)))
  {
    var born := Op(timer, H.INIT);
    var ready := if stopped then Advance(born, H.StopRequested) else born;
    QueueKeepsInv(w, op, Advance(ready, H.Start(H.Accepted)), if stopped then Cancel(op) else Run(op));
  }

  lemma {:induction false} StopKeepsInv(w: World, op: nat)
    requires Inv(w) && Enabled(w, Stop(op))
    ensures Inv(Step(w, Stop(op)))
  {
    var s, after := w.ops[op].state, Advance(w.ops[op], H.StopRequested);
    assert OpOk(w, op);
    H.StepKeepsInv(H.Unordered, s, H.StopRequested);
    if after.state.callbackHeld && !s.callbackHeld {
      QueueKeepsInv(w, op, after, Cancel(op));
    } else {
      var w' := Step(w, Stop(op));
      forall k | k in w'.ops ensures OpOk(w', k) {
        assert OpOk(w, k);
      }
    }
  }

  lemma {:induction false} ReapKeepsInv(w: World, e: Entry, res: int)
    requires Inv(w) && Enabled(w, Reap(e, res))
    ensures Inv(Step(w, Reap(e, res))) && !Held(Step(w, Reap(e, res)), e)
  {
    var w', o := Step(w, Reap(e, res)), w.ops[e.op];
    assert OpOk(w, e.op);
    var event := if e.Run? then H.OpArrives(OutcomeOf(o.timer, res)) else H.CallbackArrives;
    H.StepKeepsInv(H.Unordered, o.state, event);
    forall k | k in w'.ops ensures OpOk(w', k) {
      assert OpOk(w, k);
    }
  }

  lemma {:induction false} StepKeepsInv(w: World, a: Action)
    requires Inv(w) && Enabled(w, a)
    ensures Inv(Step(w, a))
  {
    match a
    case Submit(n) => SubmitKeepsInv(w, n);
    case Begin(op, timer, stopped) => BeginKeepsInv(w, op, timer, stopped);
    case Stop(op) => StopKeepsInv(w, op);
    case Reap(e, res) => ReapKeepsInv(w, e, res);
    case _ =>
      forall k | k in w.ops ensures OpOk(Step(w, a), k) {
        assert OpOk(w, k);
      }
  }

  // ---- runs ----

  ghost predicate Legal(h: seq<Action>)
    decreases |h|, 0
  {
    h == [] || (Legal(h[..|h| - 1]) && Enabled(Exec(h[..|h| - 1]), h[|h| - 1]))
  }

  ghost function Exec(h: seq<Action>): World
    requires Legal(h)
    decreases |h|, 1
  {
    if h == [] then EMPTY else Step(Exec(h[..|h| - 1]), h[|h| - 1])
  }

  lemma {:induction false} ExecKeepsInv(h: seq<Action>)
    requires Legal(h)
    ensures Inv(Exec(h))
  {
    if h != [] {
      ExecKeepsInv(h[..|h| - 1]);
      StepKeepsInv(Exec(h[..|h| - 1]), h[|h| - 1]);
    }
  }

  lemma {:induction false} ExecStep(h: seq<Action>, w: World, a: Action, w': World)
    requires Legal(h) && Exec(h) == w && Enabled(w, a) && Step(w, a) == w'
    ensures Legal(h + [a]) && Exec(h + [a]) == w'
  {
    var h' := h + [a];
    assert h'[..|h'| - 1] == h && h'[|h'| - 1] == a;
    assert Legal(h');
  }

  // ---- what a completion means ----

  /** A completion of an operation whose callback owes no report sends what its result says: cancelled,
      failed with the negated result, or completed, which for a timer is an expiry. */
  lemma {:induction false} CompletionSends(w: World, op: nat, res: int)
    requires Inv(w) && Enabled(w, Reap(Run(op), res))
    ensures var w' := Step(w, Reap(Run(op), res));
            && op in w'.ops
            && w'.ops[op].state.counter.signals ==
               (if Held(w, Cancel(op)) then []
                else if res == -125 then [H.Stopped]
                else if w.ops[op].timer then (if res == -62 then [H.Value] else [H.Error(-res)])
                else if res >= 0 then [H.Value] else [H.Error(-res)])
  {
    assert OpOk(w, op);
  }

  /** A completion of a cancel request sends stopped if the operation owes no report, whatever its result. */
  lemma {:induction false} CancellationSends(w: World, op: nat, res: int)
    requires Inv(w) && Enabled(w, Reap(Cancel(op), res))
    ensures var w' := Step(w, Reap(Cancel(op), res));
            && op in w'.ops
            && w'.ops[op].state.counter.signals == if Held(w, Run(op)) then [] else [H.Stopped]
  {
    assert OpOk(w, op);
  }

  // ---- the tasks ----

  /** The tasks that were scheduled, and those that ran. */
  function Scheduled(h: seq<Action>): multiset<nat> {
    if h == [] then multiset{} else
    Scheduled(h[..|h| - 1]) + Adds(h[|h| - 1])
  }

  ghost function TasksRun(h: seq<Action>): multiset<nat>
    requires Legal(h)
  {
    if h == [] then multiset{} else
    TasksRun(h[..|h| - 1]) + Takes(Exec(h[..|h| - 1]), h[|h| - 1])
  }

  /** What an action adds to the tasks scheduled, and to those that ran. */
  function Adds(a: Action): multiset<nat> {
    if a.Schedule? then multiset{a.task} else multiset{}
  }

  function Takes(w: World, a: Action): multiset<nat>
    requires Enabled(w, a)
  {
    if a.RunTask? then multiset{w.tasks[0]} else multiset{}
  }

  lemma {:induction false} StepTasks(w: World, a: Action)
    requires Enabled(w, a)
    ensures multiset(Step(w, a).tasks) + Takes(w, a) == multiset(w.tasks) + Adds(a)
  {
    if a.RunTask? {
      assert w.tasks == [w.tasks[0]] + w.tasks[1..];
    }
  }

  lemma {:induction false} Balance(all: multiset<nat>, ran: multiset<nat>, left: multiset<nat>,
                more: multiset<nat>, done: multiset<nat>, left': multiset<nat>)
    requires all == ran + left && left' + done == left + more
    ensures all + more == (ran + done) + left'
  {
    assert all + more == ran + (left + more);
    assert ran + (left' + done) == (ran + done) + left';
  }

  /** In every run the tasks scheduled are those that ran and those still queued. */
  lemma {:induction false} TasksAreConserved(h: seq<Action>)
    requires Legal(h)
    ensures Scheduled(h) == TasksRun(h) + multiset(Exec(h).tasks)
  {
    if h != [] {
      var pre, a := h[..|h| - 1], h[|h| - 1];
      var w := Exec(pre);
      TasksAreConserved(pre);
      StepTasks(w, a);
      Balance(Scheduled(pre), TasksRun(pre), multiset(w.tasks), Adds(a), Takes(w, a), multiset(Step(w, a).tasks));
    }
  }

  /** The task scheduled last runs first, and leaves the others as they were. */
  lemma {:induction false} LastTaskFirst(w: World, task: nat)
    ensures var w' := Step(w, Schedule(task));
            Enabled(w', RunTask) && w'.tasks[0] == task && Step(w', RunTask) == w
  {
    assert ([task] + w.tasks)[1..] == w.tasks;
  }

  // ---- two runs ----

  /** The world with one operation, whose handshake is `s`. */
  function Single(queue: seq<Entry>, flying: set<Entry>, s: H.World): World {
    World(queue, flying, |queue|, |queue| + |flying|, [], map[0 := Op(false, s)])
  }

  /** The handshake of an operation that was accepted, and maybe stopped. */
  function Pending(n: int, stopped: bool, op: bool, callback: bool, signals: seq<H.Signal>): H.World {
    H.World(H.Counter(n, !stopped, signals), true, stopped, op, callback, false, false)
  }

  /** An operation is started, submitted, and stopped while it is in flight. */
  const STOPPED_IN_FLIGHT := [Begin(0, false, false), Submit(1), Stop(0), Submit(1)]

  lemma {:induction false} SubmitOne(e: Entry, flying: set<Entry>, s: H.World)
    requires e !in flying
    ensures var w := Single([e], flying, s);
            Enabled(w, Submit(1)) && Step(w, Submit(1)) == Single([], flying + {e}, s)
  {
    assert [e][..1] == [e] && SetOf([e]) == {e} && [e][1..] == [];
    assert |flying + {e}| == |flying| + 1;
  }

  lemma {:induction false} StopInFlight()
    ensures Legal(STOPPED_IN_FLIGHT)
    ensures Exec(STOPPED_IN_FLIGHT) == Single([], {Run(0), Cancel(0)}, Pending(2, true, true, true, []))
  {
    var b, s, t := Begin(0, false, false), Submit(1), Stop(0);
    var one, two := Pending(1, false, true, false, []), Pending(2, true, true, true, []);
    assert Step(EMPTY, b) == Single([Run(0)], {}, one);
    ExecStep([], EMPTY, b, Single([Run(0)], {}, one));
    SubmitOne(Run(0), {}, one);
    assert {} + {Run(0)} == {Run(0)};
    assert [] + [b] == [b];
    ExecStep([b], Single([Run(0)], {}, one), s, Single([], {Run(0)}, one));
    assert Step(Single([], {Run(0)}, one), t) == Single([Cancel(0)], {Run(0)}, two);
    assert [b] + [s] == [b, s];
    ExecStep([b, s], Single([], {Run(0)}, one), t, Single([Cancel(0)], {Run(0)}, two));
    SubmitOne(Cancel(0), {Run(0)}, two);
    assert {Run(0)} + {Cancel(0)} == {Run(0), Cancel(0)};
    assert [b, s] + [t] == [b, s, t];
    ExecStep([b, s, t], Single([Cancel(0)], {Run(0)}, two), s, Single([], {Run(0), Cancel(0)}, two));
    assert [b, s, t] + [s] == STOPPED_IN_FLIGHT;
  }

  lemma {:induction false} TwoMore(h: seq<Action>, w: World, a: Action, w': World, b: Action, w'': World)
    requires Legal(h) && Exec(h) == w
    requires Enabled(w, a) && Step(w, a) == w' && Enabled(w', b) && Step(w', b) == w''
    ensures Legal(h + [a] + [b]) && Exec(h + [a] + [b]) == w''
  {
    ExecStep(h, w, a, w');
    ExecStep(h + [a], w', b, w'');
  }

  lemma {:induction false} ReapCancel(more: set<Entry>, n: int, op: bool, res: int)
    requires Cancel(0) !in more
    ensures var w := Single([], more + {Cancel(0)}, Pending(n, true, op, true, []));
            var s := Pending(if n == 1 then 0 else n - 1, true, op, false, if n == 1 then [H.Stopped] else []);
            Enabled(w, Reap(Cancel(0), res)) && Step(w, Reap(Cancel(0), res)) == Single([], more, s)
  {
    var w := Single([], more + {Cancel(0)}, Pending(n, true, op, true, []));
    var s := Pending(if n == 1 then 0 else n - 1, true, op, false, if n == 1 then [H.Stopped] else []);
    var w' := Step(w, Reap(Cancel(0), res));
    assert w'.ops[0].state == s;
    assert w'.flying == more && w'.outstanding == |more| && w'.ops == map[0 := Op(false, s)];
  }

  lemma {:induction false} ReapRun(more: set<Entry>, n: int, callback: bool, res: int)
    requires Run(0) !in more
    ensures var w := Single([], more + {Run(0)}, Pending(n, true, true, callback, []));
            var said := [H.SignalOf(OutcomeOf(false, res))];
            var s := Pending(if n == 1 then 0 else n - 1, true, false, callback, if n == 1 then said else []);
            Enabled(w, Reap(Run(0), res)) && Step(w, Reap(Run(0), res)) == Single([], more, s)
  {
    var w := Single([], more + {Run(0)}, Pending(n, true, true, callback, []));
    var said := [H.SignalOf(OutcomeOf(false, res))];
    var s := Pending(if n == 1 then 0 else n - 1, true, false, callback, if n == 1 then said else []);
    var w' := Step(w, Reap(Run(0), res));
    assert w'.ops[0].state == s;
    assert w'.flying == more && w'.outstanding == |more| && w'.ops == map[0 := Op(false, s)];
  }

  /** Both entries are in flight. */
  lemma {:induction false} BothInFlight()
    ensures Legal(STOPPED_IN_FLIGHT)
    ensures Exec(STOPPED_IN_FLIGHT) == Single([], {Cancel(0)} + {Run(0)}, Pending(2, true, true, true, []))
    ensures Exec(STOPPED_IN_FLIGHT) == Single([], {Run(0)} + {Cancel(0)}, Pending(2, true, true, true, []))
  {
    StopInFlight();
    assert {Run(0)} + {Cancel(0)} == {Cancel(0)} + {Run(0)} == {Run(0), Cancel(0)};
  }

  /** If the cancel request reports first, the operation decides. */
  lemma {:induction false} OperationReportsLast(res: int)
    ensures var h := STOPPED_IN_FLIGHT + [Reap(Cancel(0), 0)] + [Reap(Run(0), res)];
            Legal(h) && Exec(h) == Single([], {}, Pending(0, true, false, false,
              [if res >= 0 then H.Value else if res == -125 then H.Stopped else H.Error(-res)]))
  {
    BothInFlight();
    assert {} + {Run(0)} == {Run(0)};
    ReapCancel({Run(0)}, 2, true, 0);
    ReapRun({}, 1, false, res);
    TwoMore(STOPPED_IN_FLIGHT, Single([], {Run(0)} + {Cancel(0)}, Pending(2, true, true, true, [])),
            Reap(Cancel(0), 0), Single([], {Run(0)}, Pending(1, true, true, false, [])),
            Reap(Run(0), res), Single([], {}, Pending(0, true, false, false, [H.SignalOf(OutcomeOf(false, res))])));
  }

  /** If the operation reports first, it is stopped, whatever it had to say. */
  lemma {:induction false} CallbackReportsLast(res: int)
    ensures var h := STOPPED_IN_FLIGHT + [Reap(Run(0), res)] + [Reap(Cancel(0), -ENOENT)];
            Legal(h) && Exec(h) == Single([], {}, Pending(0, true, false, false, [H.Stopped]))
  {
    BothInFlight();
    assert {} + {Cancel(0)} == {Cancel(0)};
    ReapRun({Cancel(0)}, 2, true, res);
    ReapCancel({}, 1, false, -ENOENT);
    TwoMore(STOPPED_IN_FLIGHT, Single([], {Cancel(0)} + {Run(0)}, Pending(2, true, true, true, [])),
            Reap(Run(0), res), Single([], {Cancel(0)}, Pending(1, true, false, true, [])),
            Reap(Cancel(0), -ENOENT), Single([], {}, Pending(0, true, false, false, [H.Stopped])));
  }

  // ---- all runs ----

  /** In every run: the ring's counters count its entries; an operation has been sent nothing while
      the ring holds an entry of it, and exactly one signal once it holds none. */
  lemma {:induction false} RingDeliversOnce(h: seq<Action>)
    requires Legal(h)
    ensures var w := Exec(h);
            && w.submitting == |w.queue| <= 128
            && w.outstanding == |w.queue| + |w.flying|
            && forall op :: op in w.ops ==>
                 |w.ops[op].state.counter.signals| == if Held(w, Run(op)) || Held(w, Cancel(op)) then 0 else 1
  {
    ExecKeepsInv(h);
    var w := Exec(h);
    forall op | op in w.ops
      ensures |w.ops[op].state.counter.signals| == if Held(w, Run(op)) || Held(w, Cancel(op)) then 0 else 1
    {
      assert OpOk(w, op);
    }
  }

  /** The assertions on the counters cannot fail, whatever is done next. */
  lemma {:induction false} AssertionsHold(h: seq<Action>)
    requires Legal(h)
    ensures forall n :: Enabled(Exec(h), Submit(n)) ==> Exec(h).submitting >= n
    ensures forall e, res :: Enabled(Exec(h), Reap(e, res)) ==> Exec(h).outstanding > 0
  {
    ExecKeepsInv(h);
    var w := Exec(h);
    forall e, res | Enabled(w, Reap(e, res)) ensures w.outstanding > 0 {
      assert w.flying == (w.flying - {e}) + {e};
    }
  }

  /** What an action means to the operation `op` alone. */
  function EventsFor(w: World, a: Action, op: nat): seq<H.Event> {
    match a
    case Begin(o, _, stopped) =>
      if o != op then [] else if stopped then [H.StopRequested, H.Start(H.Accepted)] else [H.Start(H.Accepted)]
    case Stop(o) => if o == op then [H.StopRequested] else []
    case Reap(e, res) =>
      if e.op != op || op !in w.ops then []
      else if e.Run? then [H.OpArrives(OutcomeOf(w.ops[op].timer, res))] else [H.CallbackArrives]
    case _ => []
  }

  /** `h` as the operation `op` sees it. */
  ghost function Seen(h: seq<Action>, op: nat): seq<H.Event>
    requires Legal(h)
  {
    if h == [] then [] else
    Seen(h[..|h| - 1], op) + EventsFor(Exec(h[..|h| - 1]), h[|h| - 1], op)
  }

  function StateOf(w: World, op: nat): H.World {
    if op in w.ops then w.ops[op].state else H.INIT
  }

  lemma {:induction false} BeginSeen(w: World, a: Action, op: nat)
    requires Inv(w) && Enabled(w, a) && a.Begin?
    ensures H.Takes(H.Unordered, StateOf(w, op), EventsFor(w, a, op), StateOf(Step(w, a), op))
  {
    if a.op == op && a.stopped {
      var es := EventsFor(w, a, op);
      assert es[1..] == [H.Start(H.Accepted)];
    }
  }

  lemma {:induction false} StepSeen(w: World, a: Action, op: nat)
    requires Inv(w) && Enabled(w, a)
    ensures H.Takes(H.Unordered, StateOf(w, op), EventsFor(w, a, op), StateOf(Step(w, a), op))
  {
    if a.Begin? {
      BeginSeen(w, a, op);
    } else if op in w.ops {
      assert OpOk(w, op);
    }
  }

  lemma {:induction false} RingRunsHandshakes(h: seq<Action>, op: nat)
    requires Legal(h)
    ensures H.Legal(H.Unordered, Seen(h, op)) && H.Run(H.Unordered, Seen(h, op)) == StateOf(Exec(h), op)
  {
    if h != [] {
      var pre, a := h[..|h| - 1], h[|h| - 1];
      RingRunsHandshakes(pre, op);
      ExecKeepsInv(pre);
      StepSeen(Exec(pre), a, op);
      H.RunsOn(H.Unordered, Seen(pre, op), EventsFor(Exec(pre), a, op), StateOf(Exec(h), op), Seen(h, op));
    }
  }

  /** Every run of the ring is, for each operation, a run of the handshake with reports in any order;
      so the operation is sent what its last reporting party said. */
  lemma {:induction false} RingIsHandshake(h: seq<Action>, op: nat)
    requires Legal(h)
    ensures H.Legal(H.Unordered, Seen(h, op))
    ensures op in Exec(h).ops ==> H.Run(H.Unordered, Seen(h, op)) == Exec(h).ops[op].state
    ensures op in Exec(h).ops && !Held(Exec(h), Run(op)) && !Held(Exec(h), Cancel(op)) ==>
              Exec(h).ops[op].state.counter.signals == [H.Verdict(H.Unordered, Seen(h, op))]
  {
    RingRunsHandshakes(h, op);
    ExecKeepsInv(h);
    if op in Exec(h).ops {
      assert OpOk(Exec(h), op);
      H.LastReportIsDelivered(H.Unordered, Seen(h, op));
    }
  }

  /** When no entry is outstanding every operation ever started has been sent exactly one signal. */
  lemma {:induction false} NothingOutstandingMeansDone(h: seq<Action>)
    requires Legal(h)
    ensures Exec(h).outstanding == 0 ==>
              forall op :: op in Exec(h).ops ==> |Exec(h).ops[op].state.counter.signals| == 1
  {
    RingDeliversOnce(h);
  }

  /** `done` leads from `w` to `w'`. */
  ghost predicate Leads(w: World, done: seq<Action>, w': World)
    decreases |done|
  {
    if done == [] then w == w'
    else Enabled(w, done[0]) && Leads(Step(w, done[0]), done[1..], w')
  }

  lemma {:induction false} LeadsOn(w: World, done: seq<Action>, w': World, a: Action)
    requires Leads(w, done, w') && Enabled(w', a)
    ensures Leads(w, done + [a], Step(w', a))
    decreases |done|
  {
    if done == [] {
      assert ([] + [a])[1..] == [];
    } else {
      assert (done + [a])[0] == done[0] && (done + [a])[1..] == done[1..] + [a];
      LeadsOn(Step(w, done[0]), done[1..], w', a);
    }
  }

  /** A stop request leads to a cancel entry exactly while the operation is in flight. */
  lemma {:induction false} StopQueues(o: Op)
    requires H.Inv(H.Unordered, o.state) && o.state.started && !o.state.returning && !o.state.stopRequested
    ensures var after := Advance(o, H.StopRequested).state;
            && after.stopRequested
            && (after.callbackHeld <==> o.state.counter.armed && o.state.opHeld)
  {
  }

  // ---- the object ----

  /** What the kernel answers to a submission: a failure, or how many entries it takes; it takes at
      least one. */
  datatype Reply = Refused | Took(count: nat)

  /** What becomes of a wait: a completion, a failure, or nothing in the time observed. */
  datatype Arrival = Completion(entry: Entry, res: int) | Broke | Never

  class Context {
    var queue: seq<Entry>
    var flying: set<Entry>
    var submitting: nat
    var outstanding: nat
    var tasks: seq<nat>
    var ops: map<nat, Op>

    ghost function Model(): World
      reads this
    {
      World(queue, flying, submitting, outstanding, tasks, ops)
    }

    ghost predicate Valid()
      reads this
    {
      Inv(Model())
    }

    constructor ()
      ensures Valid() && Model() == EMPTY
    {
      queue, flying, submitting, outstanding, tasks, ops := [], {}, 0, 0, [], map[];
    }

    /** `submit`, and the batched submission of `run_one`; false for the exception. */
    method SubmitQueue(reply: Reply) returns (ok: bool, ghost n: nat)
      requires Valid() && queue != []
      modifies this
      ensures Valid() && ok == reply.Took?
      ensures !ok ==> Model() == old(Model())
      ensures ok ==> 1 <= n <= old(|queue|) && Model() == Step(old(Model()), Submit(n))
      ensures ok && 1 <= reply.count <= old(|queue|) ==> n == reply.count
    {
      n := 0;
      if reply.Refused? {
        return false, 0;
      }
      var r := if reply.count == 0 then 1 else if reply.count > |queue| then |queue| else reply.count;
      SubmitKeepsInv(Model(), r);
      assert submitting >= r;
      flying := flying + SetOf(queue[..r]);
      queue := queue[r..];
      submitting := submitting - r;
      return true, r;
    }

    /** `get_sqe` up to the point where the ring has room: flushes while the queue is full. One
        submission the kernel accepts makes room, so the first reply decides. */
    method MakeRoom(replies: seq<Reply>) returns (ok: bool, ghost done: seq<Action>)
      requires Valid()
      modifies this
      ensures Valid() && Leads(old(Model()), done, Model()) && forall a :: a in done ==> a.Submit?
      ensures ops == old(ops) && tasks == old(tasks)
      ensures ok <==> old(|queue|) < 128 || (replies != [] && replies[0].Took?)
      ensures ok ==> |queue| < QUEUE_DEPTH
      ensures if ok && old(|queue|) == QUEUE_DEPTH then |done| == 1 else done == []
    {
      var k := 0;
      ok, done := true, [];
      while |queue| == QUEUE_DEPTH && ok && k < |replies|
        invariant k <= |replies| && Valid() && ops == old(ops) && tasks == old(tasks)
        invariant Leads(old(Model()), done, Model()) && forall a :: a in done ==> a.Submit?
        invariant k == 0 ==> queue == old(queue) && ok && done == []
        invariant k > 0 ==> old(|queue|) == QUEUE_DEPTH && ok == replies[0].Took? && |done| == if ok then 1 else 0
        invariant k > 0 && ok ==> |queue| < QUEUE_DEPTH
      {
        ghost var n: nat;
        ghost var was := Model();
        ok, n := SubmitQueue(replies[k]);
        if ok {
          LeadsOn(old(Model()), done, was, Submit(n));
          done := done + [Submit(n)];
        }
        k := k + 1;
      }
      ok := ok && |queue| < QUEUE_DEPTH;
    }

    method Enqueue(e: Entry)
      modifies this
      ensures Model() == Queue(old(Model()), e)
    {
      queue := queue + [e];
      submitting := submitting + 1;
      outstanding := outstanding + 1;
    }

    /** The start of an operation once the queue has room. */
    method Launch(op: nat, timer: bool, stopped: bool)
      requires Valid() && Enabled(Model(), Begin(op, timer, stopped))
      modifies this
      ensures Valid() && Model() == Step(old(Model()), Begin(op, timer, stopped))
    {
      BeginKeepsInv(Model(), op, timer, stopped);
      var o := Op(timer, H.INIT);
      if stopped {
        o := Advance(o, H.StopRequested);
      }
      ops := ops[op := Advance(o, H.Start(H.Accepted))];
      Enqueue(if stopped then Cancel(op) else Run(op));
    }

    /** `start` of an operation with its submission to the ring, whose queue may be full: `get_sqe`
        flushes it first. Afterwards the operation's entry is queued, unless the queue was full and
        flushing it failed. */
    method BeginOp(op: nat, timer: bool, stopped: bool, replies: seq<Reply>) returns (ok: bool, ghost done: seq<Action>)
      requires Valid() && op !in ops
      modifies this
      ensures Valid() && Leads(old(Model()), done, Model())
      ensures forall a :: a in done ==> a.Submit? || (ok && a == Begin(op, timer, stopped))
      ensures ok <==> old(|queue|) < 128 || (replies != [] && replies[0].Took?)
      ensures if ok then op in ops && queue != [] && queue[|queue| - 1] == (if stopped then Cancel(op) else Run(op))
              else Model() == old(Model())
      ensures old(|queue|) < QUEUE_DEPTH ==> ok && done == [Begin(op, timer, stopped)]
    {
      ok, done := MakeRoom(replies);
      if ok {
        LeadsOn(old(Model()), done, Model(), Begin(op, timer, stopped));
        Launch(op, timer, stopped);
        done := done + [Begin(op, timer, stopped)];
      } else {
        assert done == [];
      }
    }

    /** The stop callback once the queue has room. */
    method Callback(op: nat)
      requires Valid() && Enabled(Model(), Stop(op))
      modifies this
      ensures Valid() && Model() == Step(old(Model()), Stop(op))
    {
      StopKeepsInv(Model(), op);
      var before := ops[op].state.callbackHeld;
      ops := ops[op := Advance(ops[op], H.StopRequested)];
      if ops[op].state.callbackHeld && !before {
        Enqueue(Cancel(op));
      }
    }

    /** A stop request, and `cancel` if the operation is still counted, with a queue that may be full. */
    method StopOp(op: nat, replies: seq<Reply>) returns (ok: bool, ghost done: seq<Action>)
      requires Valid() && op in ops && !ops[op].state.stopRequested
      modifies this
      ensures Valid() && Leads(old(Model()), done, Model())
      ensures forall a :: a in done ==> a.Submit? || (ok && a == Stop(op))
      ensures ok <==> || old(|queue|) < 128 || !old(ops[op].state.counter.armed)
                      || (replies != [] && replies[0].Took?)
      ensures op in ops && (ok <==> ops[op].state.stopRequested) && (!ok ==> Model() == old(Model()))
      ensures ok ==> (Held(Model(), Cancel(op)) <==> old(ops[op].state.counter.armed && ops[op].state.opHeld))
      ensures old(|queue|) < QUEUE_DEPTH || !old(ops[op].state.counter.armed) ==> ok && done == [Stop(op)]
    {
      ok, done := true, [];
      assert OpOk(Model(), op);
      ghost var w := Model();
      if ops[op].state.counter.armed {
        ok, done := MakeRoom(replies);
      }
      if ok {
        LeadsOn(old(Model()), done, Model(), Stop(op));
        Callback(op);
        done := done + [Stop(op)];
        StopQueues(w.ops[op]);
        assert OpOk(Model(), op);
      }
    }

    /** `schedule` */
    method ScheduleTask(task: nat)
      requires Valid()
      modifies this
      ensures Valid() && Model() == Step(old(Model()), Schedule(task))
    {
      StepKeepsInv(Model(), Schedule(task));
      tasks := [task] + tasks;
    }

    /** `wait` and the completion's work. */
    method ReapOne(e: Entry, res: int)
      requires Valid() && e in flying
      modifies this
      ensures Valid() && Enabled(old(Model()), Reap(e, res)) && Model() == Step(old(Model()), Reap(e, res))
    {
      assert Held(Model(), e);
      ReapKeepsInv(Model(), e, res);
      assert flying == (flying - {e}) + {e};
      assert outstanding > 0;
      outstanding := outstanding - 1;
      flying := flying - {e};
      var o := ops[e.op];
      var event := if e.Run? then H.OpArrives(OutcomeOf(o.timer, res)) else H.CallbackArrives;
      ops := ops[e.op := Advance(o, event)];
    }

    /** The batched submission in `run_one`. */
    method Flush(reply: Reply) returns (ok: bool, ghost done: seq<Action>)
      requires Valid()
      modifies this
      ensures Valid() && Leads(old(Model()), done, Model())
      ensures !ok <==> old(queue) != [] && reply.Refused?
      ensures |done| == if old(queue) != [] && ok then 1 else 0
      ensures old(queue) != [] && reply.Took? && 1 <= reply.count <= |old(queue)| ==> done == [Submit(reply.count)]
      ensures ok ==> (flying == {} <==> old(queue) == [] && old(flying) == {})
      ensures outstanding == old(outstanding)
    {
      ok, done := true, [];
      if queue != [] {
        ghost var n: nat;
        ok, n := SubmitQueue(reply);
        if ok {
          LeadsOn(old(Model()), [], old(Model()), Submit(n));
          done := [Submit(n)];
          assert old(queue)[0] in flying;
        }
      }
    }

    /** `run_one`. `reply` answers the batched submission, `arrival` the wait. It returns 0 without a
        failure exactly if there is no task and the ring is empty, and when it waits there is something
        in flight to wait for. A failed submission or wait is the exception that ends the program. */
    method RunOne(reply: Reply, arrival: Arrival)
      returns (n: nat, failed: bool, waits: bool, ghost done: seq<Action>)
      requires Valid()
      modifies this
      ensures Valid() && Leads(old(Model()), done, Model())
      ensures failed <==> old(tasks) == [] && if old(queue) != [] && reply.Refused? then true
                                              else (old(queue) != [] || old(flying) != {}) && arrival.Broke?
      ensures n == 0 && !failed && !waits <==> old(tasks) == [] && old(queue) == [] && old(flying) == {}
      ensures waits ==> n == 0 && !failed && flying != {} && (arrival.Completion? ==> arrival.entry !in flying)
      ensures |done| == n + if old(tasks) == [] && old(queue) != [] && !reply.Refused? then 1 else 0
      ensures n == 1 ==> old(tasks) != [] || arrival.Completion?
      ensures n == 1 ==> done[|done| - 1] == if old(tasks) != [] then RunTask else Reap(arrival.entry, arrival.res)
    {
      failed, waits, done := false, false, [];
      if tasks != [] {
        StepKeepsInv(Model(), RunTask);
        LeadsOn(Model(), [], Model(), RunTask);
        tasks := tasks[1..];
        return 1, false, false, [RunTask];
      }
      var ok: bool;
      ok, done := Flush(reply);
      if !ok {
        return 0, true, false, done;
      }
      if outstanding == 0 {
        return 0, false, false, done;
      }
      if arrival.Broke? {
        return 0, true, false, done;
      }
      if arrival.Never? || arrival.entry !in flying {
        return 0, false, true, done;
      }
      ghost var was := Model();
      ReapOne(arrival.entry, arrival.res);
      LeadsOn(old(Model()), done, was, Reap(arrival.entry, arrival.res));
      return 1, false, false, done + [Reap(arrival.entry, arrival.res)];
    }
  }
}
