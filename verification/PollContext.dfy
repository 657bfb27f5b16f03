/** `poll_context` itself: every method carries out a step of the loop. */
module PollContext {
  import opened PollLoop
  import opened PollWait
  import H = Handshake
  import L = SortedList
  import C = Container
  import PollLaws

  /** The loop with its slot table, which decides under what identifier the next socket is entered. */
  datatype Machine = Machine(loop: Loop, table: C.Table<int>)

  /** What an action does to the slot table. */
  function TableStep(l: Loop, t: C.Table<int>, a: Action): C.Table<int> {
    match a
    case OpenSocket(_, fd) => C.Step(t, C.Put(fd))
    case Release(socket) => C.Step(t, C.Drop(socket))
    case Dispatch(report, sys, _) =>
      var i := LastHit(l.poll, report, |l.poll|);
      if 0 <= i < |l.outstanding| && l.outstanding[i] in l.ops &&
         l.ops[l.outstanding[i]].request.Accept? && sys.Returned?
      then C.Step(t, C.Put(sys.value)) else t
    case _ => t
  }

  function Act(m: Machine, a: Action): Machine
    requires Inv(m.loop) && Enabled(m.loop, a)
  {
    Machine(Step(m.loop, a), TableStep(m.loop, m.table, a))
  }

  /** The action that carries out `choice`; an accepted socket goes to the slot `free`. */
  function Chosen(choice: Choice, now: int, rounds: seq<Round>, free: nat): Action {
    match choice
    case TimerAtOnce => FireTimer(now)
    case TimerAfter(k) => if k < |rounds| && rounds[k].Polled? then FireTimer(rounds[k].clock) else RunTask
    case Readiness(k) =>
      if k < |rounds| && rounds[k].Polled? then Dispatch(rounds[k].report, rounds[k].sys, free) else RunTask
    case _ => RunTask
  }

  class Context {
    const sockets: C.Container<int>
    var poll: seq<PollFd>
    var outstanding: seq<nat>
    var timeouts: seq<Timer>
    var tasks: seq<nat>
    // the operations' own state, and what happened to operations and tasks
    var ops: map<nat, Op>
    var lost: set<nat>
    var ran: seq<nat>
    var terminated: bool

    function Model(): Loop
      reads this, sockets
    {
      Loop(sockets.Entries(), poll, outstanding, timeouts, tasks, ops, lost, ran, terminated)
    }

    function Snapshot(): Machine
      reads this, sockets
    {
      Machine(Model(), sockets.Model())
    }

    ghost predicate Valid()
      reads this, sockets
    {
      sockets.Valid() && Inv(Model())
    }

    constructor ()
      ensures Valid() && Model() == EMPTY && fresh(sockets)
    {
      sockets := new C.Container<int>();
      poll, outstanding, timeouts, tasks := [], [], [], [];
      ops, lost, ran, terminated := map[], {}, [], false;
    }

    /** `remove_outstanding` */
    method RemoveEntry(i: nat)
      requires i < |poll| == |outstanding|
      modifies this`poll, this`outstanding
      ensures Model() == RemoveOutstanding(old(Model()), i)
    {
      if i + 1 != |poll| {
        poll := poll[i := poll[|poll| - 1]];
        outstanding := outstanding[i := outstanding[|outstanding| - 1]];
      }
      poll := poll[..|poll| - 1];
      outstanding := outstanding[..|outstanding| - 1];
    }

    /** What an operation reports about itself. */
    method Tell(op: nat, o: H.Outcome)
      requires op in ops
      modifies this`ops
      ensures Model() == Report(old(Model()), op, o)
    {
      var c := ops[op].counter;
      var n := c.outstanding - 1;
      if n == 0 {
        c := H.Counter(0, c.armed && o.Cancelled?, c.signals + [H.SignalOf(o)]);
      } else {
        c := c.(outstanding := n);
      }
      ops := ops[op := ops[op].(counter := c)];
    }

    method ProcessTask() returns (n: nat)
      requires Valid() && !terminated
      modifies this
      ensures Valid() && n == if old(tasks) == [] then 0 else 1
      ensures n == 0 ==> Model() == old(Model())
      ensures n == 1 ==> Enabled(old(Model()), RunTask) && Model() == Step(old(Model()), RunTask)
    {
      if tasks == [] {
        return 0;
      }
      StepKeepsInv(Model(), RunTask);
      var task := tasks[0];
      tasks := tasks[1..];
      ran := ran + [task];
      return 1;
    }

    method ProcessTimeout(now: int) returns (n: nat)
      requires Valid() && !terminated
      modifies this
      ensures Valid() && n == if Due(old(Model()), now) then 1 else 0
      ensures n == 0 ==> Model() == old(Model())
      ensures n == 1 ==> Enabled(old(Model()), FireTimer(now)) && Model() == Step(old(Model()), FireTimer(now))
    {
      if timeouts == [] || now < timeouts[0].deadline {
        return 0;
      }
      StepKeepsInv(Model(), FireTimer(now));
      FrontIsLeast(Model());
      var timer := timeouts[0];
      timeouts := timeouts[1..];
      Tell(timer.op, H.Completed);
      return 1;
    }

    /** The backward scan over what `poll` reported. */
    method Scan(report: seq<Ready>) returns (r: int)
      ensures r == LastHit(poll, report, |poll|)
    {
      var i := |poll|;
      while 0 < i
        invariant 0 <= i <= |poll|
        invariant LastHit(poll, report, |poll|) == LastHit(poll, report, i)
      {
        i := i - 1;
        if Hit(poll[i], ReadyAt(report, i)) {
          return i;
        }
      }
      return -1;
    }

    /** The body of the dispatch in `run_one`: off the two vectors first, then the work. */
    method Work(report: seq<Ready>, sys: Sys, i: nat) returns (accepted: nat)
      requires Valid() && !terminated && i == LastHit(poll, report, |poll|)
      modifies this, sockets
      ensures Valid()
      ensures accepted == old(sockets.free) && Enabled(old(Model()), Dispatch(report, sys, accepted))
      ensures Model() == Step(old(Model()), Dispatch(report, sys, accepted))
      ensures sockets.Model() == TableStep(old(Model()), old(sockets.Model()), Dispatch(report, sys, accepted))
    {
      accepted := sockets.free;
      var op := outstanding[i];
      assert Registered(Model(), i);
      C.InsertRefines(sockets.Model(), sockets.chain, 0);
      StepKeepsInv(Model(), Dispatch(report, sys, accepted));
      var request := ops[op].request;
      RemoveEntry(i);
      match WorkOf(request, sys)
      case NotReady => lost := lost + {op};
      case Broke(errno) => Tell(op, H.Failed(errno));
      case Done =>
        if request.Accept? && sys.Returned? {
          var _ := sockets.InsertRecord(sys.value);
        }
        Tell(op, H.Completed);
    }

    /** A return of `poll` without a failure: the last ready entry if there is one, otherwise the
        front timer if it is due by now. */
    method Serve(report: seq<Ready>, sys: Sys, clock: int) returns (hit: bool, due: bool, ghost done: Action)
      requires Valid() && !terminated
      modifies this, sockets
      ensures Valid()
      ensures hit <==> LastHit(old(poll), report, |old(poll)|) >= 0
      ensures due <==> !hit && Due(old(Model()), clock)
      ensures hit ==> done == Dispatch(report, sys, old(sockets.free))
      ensures due ==> done == FireTimer(clock)
      ensures if hit || due then Enabled(old(Model()), done) && Snapshot() == Act(old(Snapshot()), done)
              else Snapshot() == old(Snapshot())
    {
      done := RunTask;
      var i := Scan(report);
      if 0 <= i {
        ghost var accepted := Work(report, sys, i);
        return true, false, Dispatch(report, sys, accepted);
      }
      var n := ProcessTimeout(clock);
      return false, n > 0, FireTimer(clock);
    }

    /** The wait loop of `run_one`. `waits` is what was handed to `poll`. */
    method WaitForWork(now: int, perMs: nat, rounds: seq<Round>)
      returns (choice: Choice, ghost done: Action, waits: seq<int>)
      requires Valid() && !terminated && perMs > 0
      modifies this, sockets
      ensures Valid() && choice == Wait(old(Model()), rounds, 0)
      ensures forall w :: w in waits ==> w == Timeout(old(Model()), now, perMs)
      ensures match choice
              case Readiness(k) => |waits| == k + 1
              case TimerAfter(k) => |waits| == k + 1
              case Blocked => |waits| == |rounds|
              case Broken => waits != []
              case _ => waits == []
      ensures if choice.Broken? || choice.Blocked? then Snapshot() == old(Snapshot()) else
              && done == Chosen(choice, now, rounds, old(sockets.free))
              && Enabled(old(Model()), done) && Snapshot() == Act(old(Snapshot()), done)
    {
      done, waits := RunTask, [];
      var k := 0;
      while k < |rounds|
        invariant k <= |rounds| && Valid() && Snapshot() == old(Snapshot())
        invariant Wait(Model(), rounds, 0) == Wait(Model(), rounds, k)
        invariant |waits| == k && forall w :: w in waits ==> w == Timeout(old(Model()), now, perMs)
        decreases |rounds| - k
      {
        var next := if timeouts == [] then now else timeouts[0].deadline;
        waits := waits + [if now == next then -1 else ToInt(Milliseconds(next - now, perMs))];
        match rounds[k] {
          case Failed(retry) =>
            if !retry {
              return Broken, done, waits;
            }
          case Polled(report, sys, clock) =>
            var hit, due: bool;
            hit, due, done := Serve(report, sys, clock);
            if hit {
              return Readiness(k), done, waits;
            }
            if due {
              return TimerAfter(k), done, waits;
            }
        }
        k := k + 1;
      }
      return Blocked, done, waits;
    }

    /** `run_one`: 1 after exactly one dispatch, 0 when nothing is left or `poll` failed. */
    method RunOne(now: int, perMs: nat, rounds: seq<Round>)
      returns (n: nat, choice: Choice, ghost done: Action, waits: seq<int>)
      requires Valid() && !terminated && perMs > 0
      modifies this, sockets
      ensures Valid() && choice == Choose(old(Model()), now, rounds)
      ensures n == if choice.Nothing? || choice.Broken? || choice.Blocked? then 0 else 1
      ensures forall k :: (0 <= k < |rounds| && rounds[k].Polled? &&
                           PollLaws.SomeReady(old(Model()), rounds[k].report)) ==> !choice.Blocked?
      ensures choice.Readiness? ==>
                && choice.round < |rounds| && rounds[choice.round].Polled?
                && PollLaws.SomeReady(old(Model()), rounds[choice.round].report)
      ensures forall w :: w in waits ==> w == Timeout(old(Model()), now, perMs)
      ensures match choice
              case Readiness(k) => |waits| == k + 1
              case TimerAfter(k) => |waits| == k + 1
              case Blocked => |waits| == |rounds|
              case Broken => waits != []
              case _ => waits == []
      ensures if n == 0 then Snapshot() == old(Snapshot()) else
              && done == Chosen(choice, now, rounds, old(sockets.free)) && IsDispatch(done)
              && Enabled(old(Model()), done) && Snapshot() == Act(old(Snapshot()), done)
    {
      PollLaws.ReadyIsServed(Model(), now, rounds);
      waits, done := [], RunTask;
      n := ProcessTimeout(now);
      if n > 0 {
        return 1, TimerAtOnce, FireTimer(now), waits;
      }
      n := ProcessTask();
      if n > 0 {
        return 1, TaskAtOnce, RunTask, waits;
      }
      if poll == [] && timeouts == [] {
        return 0, Nothing, done, waits;
      }
      choice, done, waits := WaitForWork(now, perMs, rounds);
      n := if choice.Broken? || choice.Blocked? then 0 else 1;
    }

    /** `add_outstanding`; every record is blocking, so the operation is always registered. */
    method AddEntry(op: nat, r: Request)
      requires !r.ResumeAt? && r.socket in sockets.Entries()
      modifies this`poll, this`outstanding
      ensures Model() == AddOutstanding(old(Model()), op, r)
    {
      var handle := sockets.Get(r.socket);
      poll := poll + [PollFd(handle, MaskOf(r))];
      outstanding := outstanding + [op];
    }

    /** The completion inside a submission that is `ready`, and then the one in `start`. */
    method TellTwice(op: nat)
      requires op in ops
      modifies this`ops
      ensures Model() == Report(Report(old(Model()), op, H.Completed), op, H.Completed)
    {
      Tell(op, H.Completed);
      Tell(op, H.Completed);
    }

    /** `start` of an operation's state, with the submission it makes. */
    method BeginOperation(op: nat, r: Request, inline: ConnectNow, now: int)
      requires Valid() && Enabled(Model(), Begin(op, r, inline, now))
      modifies this
      ensures Valid() && Model() == Step(old(Model()), Begin(op, r, inline, now))
    {
      StepKeepsInv(Model(), Begin(op, r, inline, now));
      ops := ops[op := Op(r, H.Counter(1, true, []))];
      match r {
        case ResumeAt(deadline) =>
          if now < deadline {
            timeouts := L.Insert(timeouts, BY_DEADLINE, Timer(op, deadline));
          } else {
            TellTwice(op);
          }
        case Connect(_) =>
          match inline {
            case Connected => TellTwice(op);
            case Refused(errno) => Tell(op, H.Failed(errno));
            case InProgress => AddEntry(op, r);
          }
        case _ => AddEntry(op, r);
      }
    }

    /** `start` with a token that is already stopped: registering the callback runs it at once, it
        finds the counter above 1, and the loop does not hold the operation yet. */
    method BeginOnStoppedToken(op: nat, r: Request)
      requires Valid() && Enabled(Model(), BeginStopped(op, r))
      modifies this
      ensures Valid() && Model() == Step(old(Model()), BeginStopped(op, r))
    {
      NotHeldIsNew(Model(), op);
      ops := ops[op := Op(r, H.Counter(1, false, []))];
      ops := ops[op := ops[op].(counter := ops[op].counter.(outstanding := 2))];
      var i := Find(op);
      if i == |outstanding| && !(r.ResumeAt? && Timer(op, r.deadline) in timeouts) {
        terminated := true;
      }
    }

    /** `schedule` */
    method ScheduleTask(task: nat)
      requires Valid() && Enabled(Model(), Schedule(task))
      modifies this
      ensures Valid() && Model() == Step(old(Model()), Schedule(task))
    {
      StepKeepsInv(Model(), Schedule(task));
      tasks := [task] + tasks;
    }

    /** The search in `cancel`. */
    method Find(op: nat) returns (i: nat)
      ensures i == L.IndexOf(outstanding, op)
    {
      i := 0;
      while i < |outstanding| && outstanding[i] != op
        invariant i <= |outstanding|
        invariant forall k :: 0 <= k < i ==> outstanding[k] != op
      {
        i := i + 1;
      }
      L.IndexIs(outstanding, op, i);
    }

    /** `op->cancel(); cancel_op->cancel();` */
    method CancelBoth(op: nat)
      requires op in ops
      modifies this`ops
      ensures Model() == old(Model()).(ops := old(ops)[op := old(ops)[op].(counter :=
                H.CallbackReports(H.OpReports(old(ops)[op].counter, H.Cancelled)))])
    {
      Tell(op, H.Cancelled);
      var c := ops[op].counter;
      c := c.(outstanding := c.outstanding - 1);
      if c.outstanding == 0 {
        c := c.(signals := c.signals + [H.Stopped]);
      }
      ops := ops[op := ops[op].(counter := c)];
    }

    /** The stop callback of an operation, and the loop's `cancel`. */
    method StopOperation(op: nat)
      requires Valid() && Enabled(Model(), RequestStop(op))
      modifies this
      ensures Valid() && Model() == Step(old(Model()), RequestStop(op))
    {
      StepKeepsInv(Model(), RequestStop(op));
      var c := ops[op].counter;
      if !c.armed {
        return;
      }
      c := H.Counter(c.outstanding + 1, false, c.signals);
      ops := ops[op := ops[op].(counter := c)];
      if 1 < c.outstanding {
        var i := Find(op);
        if i < |outstanding| {
          RemoveEntry(i);
          CancelBoth(op);
        } else if ops[op].request.ResumeAt? && Timer(op, ops[op].request.deadline) in timeouts {
          timeouts := L.Erase(timeouts, Timer(op, ops[op].request.deadline));
          CancelBoth(op);
        } else {
          terminated := true;
        }
      }
    }
  }
}
