/** The poll event loop as a state machine over values: what one loop holds, what each call and each
    dispatch does to it, and what every run keeps.

    Handlers may call back into the loop. Delivering a signal is the last thing any loop operation
    does to the loop, so a handler that runs inside a delivery is the sequence of calls that follows
    it; a run is any sequence of calls and dispatches the environment can produce. */
module PollLoop {
  import H = Handshake
  import L = SortedList

  datatype Mask = Mask(input: bool, output: bool)

  datatype PollFd = PollFd(fd: int, events: Mask)

  /** What `poll` reports for one descriptor. */
  datatype Ready = Ready(input: bool, output: bool, error: bool, hangup: bool)

  const NOT_READY := Ready(false, false, false, false)

  datatype Request =
    | Poll(socket: nat, mask: Mask)
    | Accept(socket: nat)
    | Connect(socket: nat)
    | Receive(socket: nat)
    | Send(socket: nat)
    | ResumeAt(deadline: int)

  function MaskOf(r: Request): Mask
    requires !r.ResumeAt?
  {
    match r
    case Poll(_, mask) => mask
    case Accept(_) => Mask(true, false)
    case Connect(_) => Mask(true, true)
    case Receive(_) => Mask(true, false)
    case Send(_) => Mask(false, true)
  }

  /** The result of the system call an operation makes once its descriptor is ready. */
  datatype Sys = Returned(value: nat) | Reset(errno: int) | WouldBlock(errno: int) | Errno(errno: int)

  datatype Work = Done | Broke(errno: int) | NotReady

  /** The operations' `work` functions; an interrupted call is repeated. */
  function WorkOf(r: Request, s: Sys): Work {
    match r
    case Poll(_, _) => Done
    case Accept(_) =>
      (match s
       case Returned(_) => Done
       case WouldBlock(_) => NotReady
       case _ => Broke(s.errno))
    case Connect(_) =>
      if s.Returned? then (if s.value == 0 then Done else Broke(s.value)) else Broke(s.errno)
    case _ =>
      match s
      case Returned(_) => Done
      case Reset(_) => Done
      case WouldBlock(_) => NotReady
      case Errno(code) => Broke(code)
  }

  /** What `connect` does when it is submitted. */
  datatype ConnectNow = Connected | InProgress | Refused(errno: int)

  datatype Op = Op(request: Request, counter: H.Counter)

  datatype Timer = Timer(op: nat, deadline: int)

  const BY_DEADLINE := (t: Timer) => t.deadline

  datatype Loop = Loop(
    sockets: map<nat, int>,
    poll: seq<PollFd>,
    outstanding: seq<nat>,
    timeouts: seq<Timer>,
    tasks: seq<nat>,
    ops: map<nat, Op>,   // every operation that was started
    lost: set<nat>,      // operations taken off the loop without a report
    ran: seq<nat>,       // tasks that were completed
    terminated: bool)

  const EMPTY := Loop(map[], [], [], [], [], map[], {}, [], false)

  datatype Action =
    | OpenSocket(socket: nat, fd: int)
    | Release(socket: nat)
    | Begin(op: nat, request: Request, inline: ConnectNow, now: int)
    | BeginStopped(op: nat, request: Request)  // the token is already stopped
    | RequestStop(op: nat)
    | Schedule(task: nat)
    | FireTimer(now: int)
    | RunTask
    | Dispatch(report: seq<Ready>, sys: Sys, accepted: nat)

  // ---- the steps ----

  /** `remove_outstanding` on one of its two vectors. */
  function SwapRemove<T>(s: seq<T>, i: nat): seq<T>
    requires i < |s|
  {
    (if i + 1 != |s| then s[i := s[|s| - 1]] else s)[..|s| - 1]
  }

  predicate Hit(p: PollFd, r: Ready) {
    (r.input && p.events.input) || (r.output && p.events.output) || r.error
  }

  function ReadyAt(report: seq<Ready>, i: nat): Ready {
    if i < |report| then report[i] else NOT_READY
  }

  /** The entry the backward scan finds, looking at entries below `n`; -1 if there is none. */
  function LastHit(poll: seq<PollFd>, report: seq<Ready>, n: nat): (r: int)
    requires n <= |poll|
    ensures -1 <= r < n
    ensures 0 <= r ==> Hit(poll[r], ReadyAt(report, r))
    ensures forall i :: r < i < n ==> !Hit(poll[i], ReadyAt(report, i))
  {
    if n == 0 then -1
    else if Hit(poll[n - 1], ReadyAt(report, n - 1)) then n - 1
    else LastHit(poll, report, n - 1)
  }

  predicate Due(l: Loop, now: int) {
    l.timeouts != [] && l.timeouts[0].deadline <= now
  }

  /** The timer entry of `op`, if it has one. */
  predicate HoldsTimer(l: Loop, op: nat) {
    op in l.ops && l.ops[op].request.ResumeAt? && Timer(op, l.ops[op].request.deadline) in l.timeouts
  }

  predicate Holds(l: Loop, op: nat) {
    op in l.outstanding || HoldsTimer(l, op)
  }

  predicate SocketLive(l: Loop, r: Request) {
    r.ResumeAt? || r.socket in l.sockets
  }

  predicate Enabled(l: Loop, a: Action) {
    && !l.terminated
    && match a
       case OpenSocket(socket, _) => socket !in l.sockets
       case Release(socket) =>
         socket in l.sockets &&
         forall o :: o in l.ops && o in l.outstanding ==>
           l.ops[o].request.ResumeAt? || l.ops[o].request.socket != socket
       case Begin(op, r, _, _) => op !in l.ops && SocketLive(l, r)
       case BeginStopped(op, r) => op !in l.ops && SocketLive(l, r)
       case RequestStop(op) => op in l.ops
       case Schedule(task) => task !in l.tasks
       case FireTimer(now) => Due(l, now)
       case RunTask => l.tasks != []
       case Dispatch(report, _, accepted) =>
         LastHit(l.poll, report, |l.poll|) >= 0 && accepted !in l.sockets
  }

  const ARMED := H.Counter(1, true, [])

  function Report(l: Loop, op: nat, o: H.Outcome): Loop
    requires op in l.ops
  {
    l.(ops := l.ops[op := l.ops[op].(counter := H.OpReports(l.ops[op].counter, o))])
  }

  function AddOutstanding(l: Loop, op: nat, r: Request): Loop
    requires !r.ResumeAt? && r.socket in l.sockets
  {
    l.(poll := l.poll + [PollFd(l.sockets[r.socket], MaskOf(r))], outstanding := l.outstanding + [op])
  }

  function RemoveOutstanding(l: Loop, i: nat): Loop
    requires i < |l.poll| == |l.outstanding|
  {
    l.(poll := SwapRemove(l.poll, i), outstanding := SwapRemove(l.outstanding, i))
  }

  /** `sender_state::start` with a token that was not stopped, and the submission it makes. */
  function BeginOp(l: Loop, op: nat, r: Request, inline: ConnectNow, now: int): Loop
    requires SocketLive(l, r)
  {
    var up := l.(ops := l.ops[op := Op(r, ARMED)]);
    match r
    case ResumeAt(deadline) =>
      if now < deadline
      then up.(timeouts := L.Insert(l.timeouts, BY_DEADLINE, Timer(op, deadline)))
      else Report(Report(up, op, H.Completed), op, H.Completed)
    case Connect(_) =>
      (match inline
       case Connected => Report(Report(up, op, H.Completed), op, H.Completed)
       case Refused(errno) => Report(up, op, H.Failed(errno))
       case InProgress => AddOutstanding(up, op, r))
    case _ => AddOutstanding(up, op, r)
  }

  /** The stop callback and the loop's `cancel`. */
  function StopOp(l: Loop, op: nat): Loop
    requires op in l.ops && |l.poll| == |l.outstanding|
  {
    var c := l.ops[op].counter;
    if !c.armed then l else
    var fired := H.Counter(c.outstanding + 1, false, c.signals);
    var up := l.(ops := l.ops[op := l.ops[op].(counter := fired)]);
    if fired.outstanding <= 1 then up else
    var both := up.(ops := up.ops[op := up.ops[op].(counter :=
      H.CallbackReports(H.OpReports(fired, H.Cancelled)))]);
    if op in l.outstanding then RemoveOutstanding(both, L.IndexOf(l.outstanding, op))
    else if HoldsTimer(l, op)
    then both.(timeouts := L.Erase(l.timeouts, Timer(op, l.ops[op].request.deadline)))
    else up.(terminated := true)
  }

  function DispatchAt(l: Loop, i: nat, sys: Sys, accepted: nat): Loop
    requires i < |l.poll| == |l.outstanding| && l.outstanding[i] in l.ops
  {
    var op := l.outstanding[i];
    var r := l.ops[op].request;
    var off := RemoveOutstanding(l, i);
    match WorkOf(r, sys)
    case NotReady => off.(lost := l.lost + {op})
    case Broke(errno) => Report(off, op, H.Failed(errno))
    case Done =>
      var made := if r.Accept? && sys.Returned?
                  then off.(sockets := l.sockets[accepted := sys.value]) else off;
      Report(made, op, H.Completed)
  }

  function Step(l: Loop, a: Action): Loop
    requires Inv(l) && Enabled(l, a)
  {
    match a
    case OpenSocket(socket, fd) => l.(sockets := l.sockets[socket := fd])
    case Release(socket) => l.(sockets := l.sockets - {socket})
    case Begin(op, r, inline, now) => BeginOp(l, op, r, inline, now)
    case BeginStopped(op, r) =>
      // the callback runs before the operation is on the loop
      l.(ops := l.ops[op := Op(r, H.Counter(2, false, []))], terminated := true)
    case RequestStop(op) => StopOp(l, op)
    case Schedule(task) => l.(tasks := [task] + l.tasks)
    case FireTimer(now) =>
      Report(l.(timeouts := l.timeouts[1..]), l.timeouts[0].op, H.Completed)
    case RunTask => l.(tasks := l.tasks[1..], ran := l.ran + [l.tasks[0]])
    case Dispatch(report, sys, accepted) =>
      var i := LastHit(l.poll, report, |l.poll|);
      assert Registered(l, i);
      DispatchAt(l, i, sys, accepted)
  }

  // ---- the invariant ----

  predicate Registered(l: Loop, i: nat)
    requires i < |l.outstanding| == |l.poll|
  {
    && l.outstanding[i] in l.ops
    && var r := l.ops[l.outstanding[i]].request;
       !r.ResumeAt? && r.socket in l.sockets && l.poll[i] == PollFd(l.sockets[r.socket], MaskOf(r))
  }

  /** The two vectors are index-aligned: entry i carries the descriptor and the mask of operation i. */
  ghost predicate Aligned(l: Loop) {
    && |l.poll| == |l.outstanding|
    && (forall i :: 0 <= i < |l.outstanding| ==> Registered(l, i))
    && L.Distinct(l.outstanding)
  }

  ghost predicate TimersOk(l: Loop) {
    && L.Sorted(l.timeouts, BY_DEADLINE)
    && L.Distinct(l.timeouts)
    && (forall i :: 0 <= i < |l.timeouts| ==>
         l.timeouts[i].op in l.ops && l.ops[l.timeouts[i].op].request == ResumeAt(l.timeouts[i].deadline))
  }

  predicate Settled(c: H.Counter) {
    |c.signals| == 1 && !c.armed && c.outstanding <= 0
  }

  /** An operation that is on the loop, or was lost, has its counter at 1 and its callback armed;
      every other one has been delivered to, once. */
  predicate OpOk(l: Loop, o: nat)
    requires o in l.ops
  {
    && (if Holds(l, o) || o in l.lost then l.ops[o].counter == ARMED else Settled(l.ops[o].counter))
    && !(Holds(l, o) && o in l.lost)
  }

  ghost predicate CountersOk(l: Loop) {
    (forall o :: o in l.ops ==> OpOk(l, o)) && (forall o :: o in l.lost ==> o in l.ops)
  }

  ghost predicate Inv(l: Loop) {
    l.terminated || (Aligned(l) && TimersOk(l) && CountersOk(l))
  }

  // ---- every step keeps the invariant ----

  lemma {:induction false} SwapRemoves<T>(s: seq<T>, i: nat)
    requires i < |s|
    ensures var t := SwapRemove(s, i);
            && |t| == |s| - 1
            && (forall k :: 0 <= k < |t| ==> t[k] == s[if k == i then |s| - 1 else k])
            && (L.Distinct(s) ==> L.Distinct(t) && forall x :: x in t <==> x in s && x != s[i])
  {
    var t := SwapRemove(s, i);
    if L.Distinct(s) {
      forall x ensures x in t <==> x in s && x != s[i] {
        if x in s && x != s[i] {
          var k :| 0 <= k < |s| && s[k] == x;
          assert t[if k == |s| - 1 then i else k] == x;
        }
      }
    }
  }

  lemma {:induction false} RemoveKeepsAligned(l: Loop, i: nat)
    requires Aligned(l) && i < |l.outstanding|
    ensures var l' := RemoveOutstanding(l, i);
            Aligned(l') && forall x :: x in l'.outstanding <==> x in l.outstanding && x != l.outstanding[i]
  {
    var l' := RemoveOutstanding(l, i);
    SwapRemoves(l.outstanding, i);
    SwapRemoves(l.poll, i);
    forall k | 0 <= k < |l'.outstanding| ensures Registered(l', k) {
      assert Registered(l, if k == i then |l.poll| - 1 else k);
    }
  }

  lemma {:induction false} AddKeepsAligned(l: Loop, op: nat, r: Request)
    requires Aligned(l) && op in l.ops && op !in l.outstanding && l.ops[op].request == r
    requires !r.ResumeAt? && r.socket in l.sockets
    ensures Aligned(AddOutstanding(l, op, r))
  {
    var l' := AddOutstanding(l, op, r);
    forall k | 0 <= k < |l'.outstanding| ensures Registered(l', k) {
      assert k < |l.outstanding| ==> Registered(l, k);
    }
  }

  /** Only what `Aligned` looks at matters. */
  lemma {:induction false} AlignedFrame(l: Loop, l': Loop)
    requires Aligned(l) && l'.poll == l.poll && l'.outstanding == l.outstanding
    requires forall o :: o in l.ops ==> o in l'.ops && l'.ops[o].request == l.ops[o].request
    requires forall i :: 0 <= i < |l.outstanding| && l.outstanding[i] in l.ops &&
                         !l.ops[l.outstanding[i]].request.ResumeAt? ==>
               var s := l.ops[l.outstanding[i]].request.socket;
               s in l.sockets ==> s in l'.sockets && l'.sockets[s] == l.sockets[s]
    ensures Aligned(l')
  {
    forall i | 0 <= i < |l'.outstanding| ensures Registered(l', i) {
      assert Registered(l, i);
    }
  }

  lemma {:induction false} HeldKind(l: Loop, op: nat)
    requires Aligned(l) && op in l.outstanding
    ensures op in l.ops && !l.ops[op].request.ResumeAt?
  {
    var i :| 0 <= i < |l.outstanding| && l.outstanding[i] == op;
    assert Registered(l, i);
  }

  lemma {:induction false} NotHeldIsNew(l: Loop, op: nat)
    requires Aligned(l) && TimersOk(l) && op !in l.ops
    ensures op !in l.outstanding && forall d :: Timer(op, d) !in l.timeouts
  {
    if op in l.outstanding {
      HeldKind(l, op);
    }
  }

  /** A change that concerns only `op` keeps every other operation's accounts in order. */
  lemma {:induction false} CountersFrame(l: Loop, l': Loop, op: nat)
    requires CountersOk(l) && l'.ops.Keys == l.ops.Keys + {op} && OpOk(l', op)
    requires forall o :: o in l.ops && o != op ==>
               && l'.ops[o] == l.ops[o]
               && (o in l'.outstanding <==> o in l.outstanding)
               && (HoldsTimer(l', o) <==> HoldsTimer(l, o))
    requires l.lost <= l'.lost <= l.lost + {op}
    ensures CountersOk(l')
  {
    forall o | o in l'.ops && o != op ensures OpOk(l', o) {
      assert OpOk(l, o);
    }
  }

  /** `timeouts` may gain or lose entries as long as it stays sorted. */
  lemma {:induction false} TimersChange(l: Loop, l': Loop)
    requires L.Sorted(l'.timeouts, BY_DEADLINE) && L.Distinct(l'.timeouts)
    requires forall t :: t in l'.timeouts ==> t.op in l'.ops && l'.ops[t.op].request == ResumeAt(t.deadline)
    ensures TimersOk(l')
  {
    assert forall i :: 0 <= i < |l'.timeouts| ==> l'.timeouts[i] in l'.timeouts;
  }

  lemma {:induction false} TimerEntries(l: Loop, t: Timer)
    requires TimersOk(l) && t in l.timeouts
    ensures t.op in l.ops && l.ops[t.op].request == ResumeAt(t.deadline)
  {
  }

  lemma {:induction false} BeginTimerKeepsTimers(l: Loop, op: nat, r: Request, inline: ConnectNow, now: int)
    requires Inv(l) && Enabled(l, Begin(op, r, inline, now)) && r.ResumeAt? && now < r.deadline
    ensures var l' := BeginOp(l, op, r, inline, now);
            && TimersOk(l')
            && forall t :: t in l'.timeouts <==> t == Timer(op, r.deadline) || t in l.timeouts
  {
    NotHeldIsNew(l, op);
    var l', t := BeginOp(l, op, r, inline, now), Timer(op, r.deadline);
    L.InsertAdds(l.timeouts, BY_DEADLINE, t);
    L.InsertKeepsSorted(l.timeouts, BY_DEADLINE, t);
    forall t | t in l'.timeouts ensures t.op in l'.ops && l'.ops[t.op].request == ResumeAt(t.deadline) {
      if t in l.timeouts {
        TimerEntries(l, t);
      }
    }
    TimersChange(l, l');
  }

  lemma {:induction false} BeginTimerKeepsInv(l: Loop, op: nat, r: Request, inline: ConnectNow, now: int)
    requires Inv(l) && Enabled(l, Begin(op, r, inline, now)) && r.ResumeAt? && now < r.deadline
    ensures Inv(BeginOp(l, op, r, inline, now))
  {
    NotHeldIsNew(l, op);
    BeginTimerKeepsTimers(l, op, r, inline, now);
    var l' := BeginOp(l, op, r, inline, now);
    AlignedFrame(l, l');
    CountersFrame(l, l', op);
  }

  lemma {:induction false} TimersFrame(l: Loop, l': Loop)
    requires TimersOk(l) && l'.timeouts == l.timeouts
    requires forall o :: o in l.ops ==> o in l'.ops && l'.ops[o].request == l.ops[o].request
    ensures TimersOk(l')
  {
  }

  lemma {:induction false} BeginKeepsInv(l: Loop, op: nat, r: Request, inline: ConnectNow, now: int)
    requires Inv(l) && Enabled(l, Begin(op, r, inline, now))
    ensures Inv(BeginOp(l, op, r, inline, now))
  {
    var l' := BeginOp(l, op, r, inline, now);
    if r.ResumeAt? && now < r.deadline {
      BeginTimerKeepsInv(l, op, r, inline, now);
    } else {
      NotHeldIsNew(l, op);
      TimersFrame(l, l');
      var up := l.(ops := l.ops[op := Op(r, ARMED)]);
      AlignedFrame(l, up);
      if r.ResumeAt? || (r.Connect? && !inline.InProgress?) {
        AlignedFrame(l, l');
      } else {
        AddKeepsAligned(up, op, r);
      }
      CountersFrame(l, l', op);
    }
  }

  /** Taking operation i off the loop and recording what became of it. */
  lemma {:induction false} DispatchKeepsInv(l: Loop, i: nat, sys: Sys, accepted: nat)
    requires Inv(l) && !l.terminated && i < |l.outstanding| && accepted !in l.sockets
    requires Registered(l, i)
    ensures Inv(DispatchAt(l, i, sys, accepted))
  {
    var op, l' := l.outstanding[i], DispatchAt(l, i, sys, accepted);
    var off := RemoveOutstanding(l, i);
    RemoveKeepsAligned(l, i);
    AlignedFrame(off, l');
    TimersFrame(l, l');
    assert OpOk(l, op);
    CountersFrame(l, l', op);
  }

  lemma {:induction false} FireKeepsTimers(l: Loop, now: int)
    requires Inv(l) && Enabled(l, FireTimer(now))
    ensures var l' := Step(l, FireTimer(now));
            && TimersOk(l')
            && forall t :: t in l'.timeouts <==> t in l.timeouts && t != l.timeouts[0]
  {
    var l' := Step(l, FireTimer(now));
    L.TailKeeps(l.timeouts, BY_DEADLINE);
    forall t | t in l'.timeouts ensures t.op in l'.ops && l'.ops[t.op].request == ResumeAt(t.deadline) {
      TimerEntries(l, t);
    }
    TimersChange(l, l');
  }

  lemma {:induction false} FireKeepsInv(l: Loop, now: int)
    requires Inv(l) && Enabled(l, FireTimer(now))
    ensures Inv(Step(l, FireTimer(now)))
  {
    var l', t := Step(l, FireTimer(now)), l.timeouts[0];
    FireKeepsTimers(l, now);
    AlignedFrame(l, l');
    if t.op in l.outstanding {
      HeldKind(l, t.op);
    }
    TimerEntries(l, t);
    assert OpOk(l, t.op);
    CountersFrame(l, l', t.op);
  }

  lemma {:induction false} StopKeepsInv(l: Loop, op: nat)
    requires Inv(l) && Enabled(l, RequestStop(op))
    ensures Inv(StopOp(l, op))
  {
    var l' := StopOp(l, op);
    assert OpOk(l, op);
    if l.ops[op].counter.armed {
      if op in l.outstanding {
        var i := L.IndexOf(l.outstanding, op);
        var off := RemoveOutstanding(l, i);
        HeldKind(l, op);
        RemoveKeepsAligned(l, i);
        AlignedFrame(off, l');
        TimersFrame(l, l');
        CountersFrame(l, l', op);
      } else if HoldsTimer(l, op) {
        StopTimerKeepsInv(l, op);
      }
    }
  }

  lemma {:induction false} StopTimerKeepsInv(l: Loop, op: nat)
    requires Inv(l) && Enabled(l, RequestStop(op))
    requires l.ops[op].counter.armed && op !in l.outstanding && HoldsTimer(l, op)
    ensures Inv(StopOp(l, op))
  {
    var l', t := StopOp(l, op), Timer(op, l.ops[op].request.deadline);
    assert OpOk(l, op);
    AlignedFrame(l, l');
    L.EraseRemoves(l.timeouts, t);
    L.EraseKeepsSorted(l.timeouts, BY_DEADLINE, t);
    forall t | t in l'.timeouts ensures t.op in l'.ops && l'.ops[t.op].request == ResumeAt(t.deadline) {
      TimerEntries(l, t);
    }
    TimersChange(l, l');
    CountersFrame(l, l', op);
  }

  lemma {:induction false} StepKeepsInv(l: Loop, a: Action)
    requires Inv(l) && Enabled(l, a)
    ensures Inv(Step(l, a))
  {
    var l' := Step(l, a);
    match a
    case Begin(op, r, inline, now) => BeginKeepsInv(l, op, r, inline, now);
    case BeginStopped(op, r) =>
    case RequestStop(op) => StopKeepsInv(l, op);
    case FireTimer(now) => FireKeepsInv(l, now);
    case Dispatch(report, sys, accepted) =>
      var i := LastHit(l.poll, report, |l.poll|);
      assert Registered(l, i);
      DispatchKeepsInv(l, i, sys, accepted);
    case _ =>
      SocketsAndTasksKeepInv(l, a);
  }

  lemma {:induction false} SocketsAndTasksKeepInv(l: Loop, a: Action)
    requires Inv(l) && Enabled(l, a)
    requires a.OpenSocket? || a.Release? || a.Schedule? || a.RunTask?
    ensures Inv(Step(l, a))
  {
    var l' := Step(l, a);
    AlignedFrame(l, l');
    forall o | o in l'.ops ensures OpOk(l', o) {
      assert OpOk(l, o);
    }
  }

  // ---- what a step delivers, loses and ends ----

  /** Independently of the counters: what `a` sends to the receiver of the started operation `o`. */
  function Delivered(l: Loop, a: Action, o: nat): seq<H.Signal>
    requires Inv(l) && Enabled(l, a) && o in l.ops
  {
    match a
    case RequestStop(op) => if o == op && Holds(l, o) then [H.Stopped] else []
    case FireTimer(_) => if o == l.timeouts[0].op then [H.Value] else []
    case Dispatch(report, sys, _) =>
      if o != l.outstanding[LastHit(l.poll, report, |l.poll|)] then []
      else (match WorkOf(l.ops[o].request, sys)
            case Done => [H.Value]
            case Broke(errno) => [H.Error(errno)]
            case NotReady => [])
    case _ => []
  }

  /** What becomes of the started operation `o` when `a` is taken. */
  ghost predicate Accounts(l: Loop, l': Loop, a: Action, o: nat)
    requires Inv(l) && Enabled(l, a) && o in l.ops
  {
    && o in l'.ops && l'.ops[o].request == l.ops[o].request
    && l'.ops[o].counter.signals == l.ops[o].counter.signals + Delivered(l, a, o)
    && (Delivered(l, a, o) != [] ==> l.ops[o].counter.signals == [])
  }

  lemma {:induction false} DispatchDelivers(l: Loop, a: Action, o: nat)
    requires Inv(l) && Enabled(l, a) && o in l.ops && a.Dispatch?
    ensures Accounts(l, Step(l, a), a, o)
  {
    var i := LastHit(l.poll, a.report, |l.poll|);
    assert Registered(l, i);
    assert OpOk(l, l.outstanding[i]) && Holds(l, l.outstanding[i]);
  }

  lemma {:induction false} StopDelivers(l: Loop, a: Action, o: nat)
    requires Inv(l) && Enabled(l, a) && o in l.ops && a.RequestStop?
    ensures Accounts(l, Step(l, a), a, o)
  {
    assert OpOk(l, a.op);
  }

  lemma {:induction false} StepDelivers(l: Loop, a: Action, o: nat)
    requires Inv(l) && Enabled(l, a) && o in l.ops
    ensures Accounts(l, Step(l, a), a, o)
  {
    match a
    case RequestStop(_) => StopDelivers(l, a, o);
    case Dispatch(_, _, _) => DispatchDelivers(l, a, o);
    case FireTimer(_) => FireDelivers(l, a, o);
    case _ =>
  }

  lemma {:induction false} FireDelivers(l: Loop, a: Action, o: nat)
    requires Inv(l) && Enabled(l, a) && o in l.ops && a.FireTimer?
    ensures Accounts(l, Step(l, a), a, o)
  {
    TimerEntries(l, l.timeouts[0]);
    assert OpOk(l, l.timeouts[0].op);
  }

  /** `std::terminate` is reached in exactly two ways: starting an operation whose token is already
      stopped, and stopping one that was lost. */
  lemma {:induction false} TerminatesExactly(l: Loop, a: Action)
    requires Inv(l) && Enabled(l, a)
    ensures Step(l, a).terminated <==> a.BeginStopped? || (a.RequestStop? && a.op in l.lost)
  {
    if a.RequestStop? {
      assert OpOk(l, a.op);
    }
  }

  /** An operation is lost in exactly one way: its descriptor was reported ready, and its system
      call would block after all. */
  lemma {:induction false} LosesExactly(l: Loop, a: Action, o: nat)
    requires Inv(l) && Enabled(l, a)
    ensures o in Step(l, a).lost <==>
            || o in l.lost
            || (a.Dispatch? &&
                var i := LastHit(l.poll, a.report, |l.poll|);
                o == l.outstanding[i] && o in l.ops && WorkOf(l.ops[o].request, a.sys).NotReady?)
  {
    if a.Dispatch? {
      assert Registered(l, LastHit(l.poll, a.report, |l.poll|));
    }
  }

  /** The operation that is dispatched is one whose own descriptor was reported ready for its own
      events, and it leaves the loop. */
  lemma {:induction false} DispatchedWasReady(l: Loop, a: Action)
    requires Inv(l) && Enabled(l, a) && a.Dispatch?
    ensures var i := LastHit(l.poll, a.report, |l.poll|);
            && l.outstanding[i] in l.ops
            && var r := l.ops[l.outstanding[i]].request;
               && !r.ResumeAt? && r.socket in l.sockets
               && Hit(PollFd(l.sockets[r.socket], MaskOf(r)), ReadyAt(a.report, i))
               && l.poll[i].fd == l.sockets[r.socket]
               && !Holds(Step(l, a), l.outstanding[i])
  {
    var i := LastHit(l.poll, a.report, |l.poll|);
    assert Registered(l, i);
    RemoveKeepsAligned(l, i);
  }

  /** No timer completes before its deadline, and none while an earlier one is pending. */
  lemma {:induction false} TimersCompleteInOrder(l: Loop, a: Action, o: nat)
    requires Inv(l) && Enabled(l, a) && !Step(l, a).terminated
    requires o in Step(l, a).ops && Step(l, a).ops[o].request.ResumeAt?
    requires o in l.ops ==> l.ops[o].counter.signals == []
    requires H.Value in Step(l, a).ops[o].counter.signals
    ensures a.FireTimer? || a.Begin?
    ensures Step(l, a).ops[o].request.deadline <= a.now
    ensures a.FireTimer? ==>
            forall t :: t in l.timeouts ==> Step(l, a).ops[o].request.deadline <= t.deadline
  {
    StepBegins(l, a);
    if o in l.ops {
      StepDelivers(l, a, o);
      assert Delivered(l, a, o) == Step(l, a).ops[o].counter.signals;
      if a.Dispatch? {
        DispatchedWasReady(l, a);
      } else if a.FireTimer? {
        FrontIsLeast(l);
      }
    }
  }

  lemma {:induction false} FrontIsLeast(l: Loop)
    requires TimersOk(l) && l.timeouts != []
    ensures l.ops.Keys >= {l.timeouts[0].op}
    ensures l.ops[l.timeouts[0].op].request == ResumeAt(l.timeouts[0].deadline)
    ensures forall t :: t in l.timeouts ==> l.timeouts[0].deadline <= t.deadline
  {
    forall t | t in l.timeouts ensures l.timeouts[0].deadline <= t.deadline {
      var k :| 0 <= k < |l.timeouts| && l.timeouts[k] == t;
      assert BY_DEADLINE(l.timeouts[0]) <= BY_DEADLINE(l.timeouts[k]);
    }
  }

  // ---- whole runs ----

  ghost predicate Legal(l: Loop, h: seq<Action>)
    requires Inv(l)
    decreases |h|, 0
  {
    h == [] || (Legal(l, h[..|h| - 1]) && Enabled(Exec(l, h[..|h| - 1]), h[|h| - 1]))
  }

  ghost function Exec(l: Loop, h: seq<Action>): (l': Loop)
    requires Inv(l) && Legal(l, h)
    ensures Inv(l')
    decreases |h|, 1
  {
    if h == [] then l else
    var pre := Exec(l, h[..|h| - 1]);
    StepKeepsInv(pre, h[|h| - 1]);
    Step(pre, h[|h| - 1])
  }

  lemma {:induction false} ExecStep(l: Loop, h: seq<Action>, a: Action)
    requires Inv(l) && Legal(l, h) && Enabled(Exec(l, h), a)
    ensures Legal(l, h + [a]) && Exec(l, h + [a]) == Step(Exec(l, h), a)
  {
    assert (h + [a])[..|h + [a]| - 1] == h;
  }

  /** The operations `h` starts. */
  function Begun(h: seq<Action>): set<nat> {
    if h == [] then {} else Begun(h[..|h| - 1]) + Begins(h[|h| - 1])
  }

  function Begins(a: Action): set<nat> {
    if a.Begin? || a.BeginStopped? then {a.op} else {}
  }

  function Scheduled(h: seq<Action>): seq<nat> {
    if h == [] then [] else
    Scheduled(h[..|h| - 1]) + if h[|h| - 1].Schedule? then [h[|h| - 1].task] else []
  }

  predicate IsDispatch(a: Action) {
    a.FireTimer? || a.RunTask? || a.Dispatch?
  }

  function Dispatches(h: seq<Action>): nat {
    if h == [] then 0 else
    Dispatches(h[..|h| - 1]) + if IsDispatch(h[|h| - 1]) then 1 else 0
  }

  lemma {:induction false} StepBegins(l: Loop, a: Action)
    requires Inv(l) && Enabled(l, a)
    ensures Step(l, a).ops.Keys == l.ops.Keys + Begins(a)
  {
    match a
    case Dispatch(report, _, _) => assert Registered(l, LastHit(l.poll, report, |l.poll|));
    case FireTimer(_) => TimerEntries(l, l.timeouts[0]);
    case RequestStop(op) => StopKnows(l, op);
    case Begin(op, r, inline, now) => BeginKnows(l, op, r, inline, now);
    case _ =>
  }

  lemma {:induction false} BeginKnows(l: Loop, op: nat, r: Request, inline: ConnectNow, now: int)
    requires SocketLive(l, r)
    ensures BeginOp(l, op, r, inline, now).ops.Keys == l.ops.Keys + {op}
  {
  }

  lemma {:induction false} StopKnows(l: Loop, op: nat)
    requires Inv(l) && Enabled(l, RequestStop(op))
    ensures StopOp(l, op).ops.Keys == l.ops.Keys
  {
  }

  lemma {:induction false} BegunAreKnown(h: seq<Action>)
    requires Legal(EMPTY, h)
    ensures Exec(EMPTY, h).ops.Keys == Begun(h)
  {
    if h != [] {
      BegunAreKnown(h[..|h| - 1]);
      StepBegins(Exec(EMPTY, h[..|h| - 1]), h[|h| - 1]);
    }
  }

  lemma {:induction false} StepRuns(l: Loop, a: Action)
    requires Inv(l) && Enabled(l, a)
    ensures var l' := Step(l, a);
            && l'.tasks == (match a case Schedule(t) => [t] + l.tasks case RunTask => l.tasks[1..] case _ => l.tasks)
            && l'.ran == l.ran + if a.RunTask? then [l.tasks[0]] else []
  {
    if a.Dispatch? {
      assert Registered(l, LastHit(l.poll, a.report, |l.poll|));
    }
  }

  lemma {:induction false} StepConserves(l: Loop, a: Action)
    requires Inv(l) && Enabled(l, a)
    ensures var l' := Step(l, a);
            multiset(l'.ran) + multiset(l'.tasks) ==
            multiset(l.ran) + multiset(l.tasks) + multiset(if a.Schedule? then [a.task] else [])
  {
    StepRuns(l, a);
    if a.RunTask? {
      assert l.tasks == [l.tasks[0]] + l.tasks[1..];
    }
  }

  lemma {:induction false} TasksAreConserved(h: seq<Action>)
    requires Legal(EMPTY, h)
    ensures var l := Exec(EMPTY, h); multiset(Scheduled(h)) == multiset(l.ran) + multiset(l.tasks)
  {
    if h != [] {
      TasksAreConserved(h[..|h| - 1]);
      StepConserves(Exec(EMPTY, h[..|h| - 1]), h[|h| - 1]);
    }
  }

  /** In every run, exactly the started operations are known; each has been sent nothing while it is
      on the loop or lost, and exactly one signal otherwise; and every scheduled task is either
      queued or was completed, each as often as it was scheduled. */
  lemma {:induction false} ExactlyOnce(h: seq<Action>)
    requires Legal(EMPTY, h)
    ensures var l := Exec(EMPTY, h);
            && l.ops.Keys == Begun(h)
            && multiset(Scheduled(h)) == multiset(l.ran) + multiset(l.tasks)
            && (!l.terminated ==> forall o :: o in Begun(h) ==>
                  |l.ops[o].counter.signals| == if Holds(l, o) || o in l.lost then 0 else 1)
  {
    BegunAreKnown(h);
    TasksAreConserved(h);
    var l := Exec(EMPTY, h);
    forall o | !l.terminated && o in l.ops
      ensures |l.ops[o].counter.signals| == if Holds(l, o) || o in l.lost then 0 else 1
    {
      assert OpOk(l, o);
    }
  }

  // ---- runs that go wrong ----

  const READABLE := Ready(true, false, false, false)

  /** A receive on socket 0 is started, and reported readable, but its call would block. */
  const STALE := [
    OpenSocket(0, 3),
    Begin(0, Receive(0), InProgress, 0),
    Dispatch([READABLE], WouldBlock(11), 1)]

  /** The loop with the receive on it. */
  const RECEIVING := EMPTY.(
    sockets := map[0 := 3],
    poll := [PollFd(3, Mask(true, false))],
    outstanding := [0],
    ops := map[0 := Op(Receive(0), ARMED)])

  lemma {:induction false} ReceiveStarts()
    ensures Legal(EMPTY, STALE[..2]) && Exec(EMPTY, STALE[..2]) == RECEIVING
  {
    var open, begin := STALE[0], STALE[1];
    var one := EMPTY.(sockets := map[0 := 3]);
    ExecStep(EMPTY, [], open);
    assert [] + [open] == [open] && [open] + [begin] == STALE[..2];
    assert Exec(EMPTY, [open]) == one;
    assert Step(one, begin).ops == RECEIVING.ops;
    ExecStep(EMPTY, [open], begin);
  }

  lemma {:induction false} StaleReadinessLoses()
    ensures Legal(EMPTY, STALE) && !Exec(EMPTY, STALE).terminated
    ensures 0 in Exec(EMPTY, STALE).lost && Exec(EMPTY, STALE).ops[0].counter.signals == []
    ensures Exec(EMPTY, STALE).outstanding == [] && Exec(EMPTY, STALE).poll == []
  {
    ReceiveStarts();
    assert STALE[..2] + [STALE[2]] == STALE;
    assert LastHit(RECEIVING.poll, [READABLE], 1) == 0;
    ExecStep(EMPTY, STALE[..2], STALE[2]);
  }

  /** A stop request that comes later ends the program. */
  lemma {:induction false} StoppingALostOneTerminates()
    ensures Legal(EMPTY, STALE + [RequestStop(0)]) && Exec(EMPTY, STALE + [RequestStop(0)]).terminated
  {
    StaleReadinessLoses();
    BegunAreKnown(STALE);
    ExecStep(EMPTY, STALE, RequestStop(0));
    TerminatesExactly(Exec(EMPTY, STALE), RequestStop(0));
  }

  /** And so does starting an operation on a stopped token. */
  lemma {:induction false} StoppedTokenTerminates()
    ensures Legal(EMPTY, [BeginStopped(0, ResumeAt(1))]) && Exec(EMPTY, [BeginStopped(0, ResumeAt(1))]).terminated
  {
    ExecStep(EMPTY, [], BeginStopped(0, ResumeAt(1)));
    assert [] + [BeginStopped(0, ResumeAt(1))] == [BeginStopped(0, ResumeAt(1))];
  }

  // ---- runs that cannot ----

  predicate Benign(h: seq<Action>) {
    forall a :: a in h ==> !a.BeginStopped? && !(a.Dispatch? && a.sys.WouldBlock?)
  }

  /** Without a stopped token at the start and without stale readiness no run terminates or loses
      anything. */
  lemma {:induction false} BenignRuns(h: seq<Action>)
    requires Legal(EMPTY, h) && Benign(h)
    ensures !Exec(EMPTY, h).terminated && Exec(EMPTY, h).lost == {}
  {
    if h != [] {
      var pre, a := h[..|h| - 1], h[|h| - 1];
      BenignRuns(pre);
      var l := Exec(EMPTY, pre);
      TerminatesExactly(l, a);
      forall o ensures o !in Step(l, a).lost {
        LosesExactly(l, a, o);
      }
    }
  }

  /** The action dispatches an operation whose call would block after all. */
  predicate IsStale(l: Loop, a: Action)
    requires Inv(l) && Enabled(l, a)
  {
    a.Dispatch? &&
    var o := l.outstanding[LastHit(l.poll, a.report, |l.poll|)];
    o in l.ops && WorkOf(l.ops[o].request, a.sys).NotReady?
  }

  /** No action of `h` does. */
  ghost predicate NeverStale(h: seq<Action>)
    requires Legal(EMPTY, h)
  {
    h == [] || (NeverStale(h[..|h| - 1]) && !IsStale(Exec(EMPTY, h[..|h| - 1]), h[|h| - 1]))
  }

  lemma {:induction false} StepLoses(l: Loop, a: Action)
    requires Inv(l) && Enabled(l, a)
    ensures Step(l, a).lost == {} <==> l.lost == {} && !IsStale(l, a)
  {
    forall o ensures o in Step(l, a).lost <==>
                     o in l.lost || (IsStale(l, a) && o == l.outstanding[LastHit(l.poll, a.report, |l.poll|)])
    {
      LosesExactly(l, a, o);
    }
    if IsStale(l, a) {
      assert l.outstanding[LastHit(l.poll, a.report, |l.poll|)] in Step(l, a).lost;
    }
  }

  /** A run loses nothing if and only if no readiness was stale. */
  lemma {:induction false} NothingLostExactly(h: seq<Action>)
    requires Legal(EMPTY, h)
    ensures Exec(EMPTY, h).lost == {} <==> NeverStale(h)
  {
    if h != [] {
      NothingLostExactly(h[..|h| - 1]);
      StepLoses(Exec(EMPTY, h[..|h| - 1]), h[|h| - 1]);
    }
  }

  /** Everything started was delivered to exactly once, and every scheduled task was completed. */
  ghost predicate AllDone(l: Loop, h: seq<Action>) {
    && l.ops.Keys == Begun(h)
    && (forall o :: o in Begun(h) ==> |l.ops[o].counter.signals| == 1)
    && multiset(l.ran) == multiset(Scheduled(h))
  }

  lemma {:induction false} LostIsNotDone(l: Loop, h: seq<Action>, o: nat)
    requires Inv(l) && !l.terminated && o in l.lost && l.ops.Keys == Begun(h)
    ensures !AllDone(l, h)
  {
    assert OpOk(l, o);
  }

  /** When a run leaves the loop empty, everything is done if and only if nothing was lost: that is, if
      no readiness was stale. */
  lemma {:induction false} EmptyMeansDoneExactly(h: seq<Action>)
    requires Legal(EMPTY, h) && !Exec(EMPTY, h).terminated
    requires var l := Exec(EMPTY, h); l.outstanding == [] && l.timeouts == [] && l.tasks == []
    ensures AllDone(Exec(EMPTY, h), h) <==> Exec(EMPTY, h).lost == {}
    ensures AllDone(Exec(EMPTY, h), h) <==> NeverStale(h)
  {
    ExactlyOnce(h);
    NothingLostExactly(h);
    var l := Exec(EMPTY, h);
    if o :| o in l.lost {
      LostIsNotDone(l, h, o);
    }
  }

  /** In particular after a run without a stopped token at the start and without stale readiness. */
  lemma {:induction false} EmptyMeansDone(h: seq<Action>)
    requires Legal(EMPTY, h) && Benign(h)
    requires var l := Exec(EMPTY, h); l.outstanding == [] && l.timeouts == [] && l.tasks == []
    ensures AllDone(Exec(EMPTY, h), h)
  {
    BenignRuns(h);
    EmptyMeansDoneExactly(h);
  }
}
