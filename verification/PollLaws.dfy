/** What the poll loop's actions come to, said in terms of the requests, the results of system calls and
    the reports of `poll` alone. */
module PollLaws {
  import H = Handshake
  import L = SortedList
  import opened PollLoop
  import opened PollWait

  // ---- readiness ----

  /** `revents & (events | POLLERR)` for entry `i`. */
  ghost predicate ReadyEntry(poll: seq<PollFd>, report: seq<Ready>, i: int) {
    && 0 <= i < |poll| && i < |report|
    && (|| (report[i].input && poll[i].events.input)
        || (report[i].output && poll[i].events.output)
        || report[i].error)
  }

  /** If an entry is ready for input or output it waits for, or in error, it is found, or a later one is;
      and an entry that is found is ready in that sense. */
  lemma {:induction false} ReadyIsFound(poll: seq<PollFd>, report: seq<Ready>, i: nat)
    ensures ReadyEntry(poll, report, i) ==> LastHit(poll, report, |poll|) >= i
    ensures var r := LastHit(poll, report, |poll|); r >= 0 ==> ReadyEntry(poll, report, r)
  {
    var r := LastHit(poll, report, |poll|);
    assert r < i < |poll| ==> !Hit(poll[i], ReadyAt(report, i));
    assert r >= 0 ==> Hit(poll[r], ReadyAt(report, r));
  }

  /** The events each kind of operation waits for, on the descriptor of its socket. */
  lemma {:induction false} BeginRegisters(l: Loop, op: nat, r: Request, inline: ConnectNow, now: int)
    requires Inv(l) && Enabled(l, Begin(op, r, inline, now))
    ensures var l' := Step(l, Begin(op, r, inline, now));
            if r.ResumeAt? || (r.Connect? && !inline.InProgress?)
            then l'.poll == l.poll && l'.outstanding == l.outstanding
            else
              && |l'.poll| == |l.poll| + 1 && l'.poll[..|l.poll|] == l.poll
              && l'.outstanding == l.outstanding + [op]
              && var p := l'.poll[|l.poll|];
                 && p.fd == l.sockets[r.socket]
                 && match r
                    case Poll(_, mask) => p.events == mask
                    case Accept(_) => p.events.input && !p.events.output
                    case Connect(_) => p.events.input && p.events.output
                    case Receive(_) => p.events.input && !p.events.output
                    case Send(_) => !p.events.input && p.events.output
  {
  }

  // ---- what is sent ----

  /** What starting an operation sends at once: a time that has come, a connection made or refused at
      once; nothing otherwise, and then the operation is on the loop. */
  lemma {:induction false} BeginSends(l: Loop, op: nat, r: Request, inline: ConnectNow, now: int)
    requires Inv(l) && Enabled(l, Begin(op, r, inline, now))
    ensures var l' := Step(l, Begin(op, r, inline, now));
            && !l'.terminated && op in l'.ops && l'.ops[op].request == r
            && l'.ops[op].counter.signals ==
               (match r
                case ResumeAt(deadline) => if deadline <= now then [H.Value] else []
                case Connect(_) =>
                  (match inline
                   case Connected => [H.Value]
                   case Refused(errno) => [H.Error(errno)]
                   case InProgress => [])
                case _ => [])
            && (l'.ops[op].counter.signals == [] <==> Holds(l', op))
  {
    var l' := Step(l, Begin(op, r, inline, now));
    StepKeepsInv(l, Begin(op, r, inline, now));
    LosesExactly(l, Begin(op, r, inline, now), op);
    assert OpOk(l', op);
  }

  /** What the dispatched operation is sent, by the result of its system call. */
  lemma {:induction false} DispatchSends(l: Loop, a: Action)
    requires Inv(l) && Enabled(l, a) && a.Dispatch?
    ensures var o := l.outstanding[LastHit(l.poll, a.report, |l.poll|)];
            && o in l.ops && o in Step(l, a).ops
            && Step(l, a).ops[o].counter.signals ==
               (match l.ops[o].request
                case Poll(_, _) => [H.Value]
                case Accept(_) =>
                  (match a.sys
                   case Returned(_) => [H.Value]
                   case WouldBlock(_) => []
                   case Reset(errno) => [H.Error(errno)]
                   case Errno(errno) => [H.Error(errno)])
                case Connect(_) =>
                  (match a.sys
                   case Returned(error) => if error == 0 then [H.Value] else [H.Error(error)]
                   case WouldBlock(errno) => [H.Error(errno)]
                   case Reset(errno) => [H.Error(errno)]
                   case Errno(errno) => [H.Error(errno)])
                case _ =>
                  (match a.sys
                   case Returned(_) => [H.Value]
                   case Reset(_) => [H.Value]
                   case WouldBlock(_) => []
                   case Errno(errno) => [H.Error(errno)]))
  {
    var o := l.outstanding[LastHit(l.poll, a.report, |l.poll|)];
    assert Registered(l, LastHit(l.poll, a.report, |l.poll|));
    assert OpOk(l, o) && Holds(l, o);
  }

  /** An accepted connection enters the socket table with the handle `accept` returned; nothing else
      changes the table. */
  lemma {:induction false} DispatchAccepts(l: Loop, a: Action)
    requires Inv(l) && Enabled(l, a) && a.Dispatch?
    ensures var o := l.outstanding[LastHit(l.poll, a.report, |l.poll|)];
            && o in l.ops
            && Step(l, a).sockets ==
               if l.ops[o].request.Accept? && a.sys.Returned? then l.sockets[a.accepted := a.sys.value] else l.sockets
  {
    assert Registered(l, LastHit(l.poll, a.report, |l.poll|));
  }

  /** A stop request on an operation on the loop sends it stopped and takes it off the loop; on one that
      was delivered to it changes nothing. */
  lemma {:induction false} StopSends(l: Loop, op: nat)
    requires Inv(l) && Enabled(l, RequestStop(op)) && op !in l.lost
    ensures var l' := Step(l, RequestStop(op));
            && !l'.terminated && op in l'.ops && !Holds(l', op)
            && (Holds(l, op) ==> l.ops[op].counter.signals == [] && l'.ops[op].counter.signals == [H.Stopped])
            && (!Holds(l, op) ==> l' == l)
  {
    var l' := Step(l, RequestStop(op));
    StepKeepsInv(l, RequestStop(op));
    TerminatesExactly(l, RequestStop(op));
    LosesExactly(l, RequestStop(op), op);
    assert OpOk(l, op);
    StopKnows(l, op);
    assert OpOk(l', op);
  }

  /** The task scheduled last runs first, and leaves the others as they were. */
  lemma {:induction false} LastTaskFirst(l: Loop, task: nat)
    requires Inv(l) && Enabled(l, Schedule(task))
    ensures var l' := Step(l, Schedule(task));
            && Inv(l') && Enabled(l', RunTask)
            && Step(l', RunTask).ran == l.ran + [task] && Step(l', RunTask).tasks == l.tasks
  {
    StepKeepsInv(l, Schedule(task));
  }

  // ---- the order of the work ----

  ghost predicate SomeReady(l: Loop, report: seq<Ready>) {
    exists i :: ReadyEntry(l.poll, report, i)
  }

  /** The round ends the wait: a failure that is not retried, an entry that is ready, or a timer that is
      due by the clock read after it. */
  ghost predicate Ends(l: Loop, r: Round) {
    match r
    case Failed(retry) => !retry
    case Polled(report, _, clock) => SomeReady(l, report) || (l.timeouts != [] && l.timeouts[0].deadline <= clock)
  }

  lemma {:induction false} HitMeansReady(l: Loop, report: seq<Ready>)
    ensures LastHit(l.poll, report, |l.poll|) >= 0 <==> SomeReady(l, report)
  {
    ReadyIsFound(l.poll, report, 0);
    if i :| ReadyEntry(l.poll, report, i) {
      ReadyIsFound(l.poll, report, i);
    }
  }

  lemma {:induction false} FirstEndDecides(l: Loop, rounds: seq<Round>, k: nat, n: nat)
    requires k <= n <= |rounds|
    requires forall j :: k <= j < n ==> !Ends(l, rounds[j])
    requires n < |rounds| ==> Ends(l, rounds[n])
    ensures Wait(l, rounds, k) ==
            if n == |rounds| then Blocked
            else if rounds[n].Failed? then Broken
            else if SomeReady(l, rounds[n].report) then Readiness(n)
            else TimerAfter(n)
    decreases n - k
  {
    if k < |rounds| {
      if rounds[k].Polled? {
        HitMeansReady(l, rounds[k].report);
      }
      if k < n {
        assert !Ends(l, rounds[k]);
        FirstEndDecides(l, rounds, k + 1, n);
      }
    }
  }

  /** What `run_one` turns to: a due timer before a task, a task before the descriptors; without any of
      them there is nothing. In the wait the first round that ends it decides: a failure breaks it off,
      otherwise readiness goes before a timer that is due by then. If no round does, the wait goes on. */
  lemma {:induction false} RunOneDecides(l: Loop, now: int, rounds: seq<Round>, n: nat)
    requires n <= |rounds|
    requires forall j :: 0 <= j < n ==> !Ends(l, rounds[j])
    requires n < |rounds| ==> Ends(l, rounds[n])
    ensures Choose(l, now, rounds) ==
            if l.timeouts != [] && l.timeouts[0].deadline <= now then TimerAtOnce
            else if l.tasks != [] then TaskAtOnce
            else if l.poll == [] && l.timeouts == [] then Nothing
            else if n == |rounds| then Blocked
            else if rounds[n].Failed? then Broken
            else if SomeReady(l, rounds[n].report) then Readiness(n)
            else TimerAfter(n)
  {
    FirstEndDecides(l, rounds, 0, n);
  }

  lemma {:induction false} NotBlocked(l: Loop, rounds: seq<Round>, k: nat, n: nat)
    requires k <= n < |rounds| && IsHit(l, rounds[n])
    ensures !Wait(l, rounds, k).Blocked?
    decreases n - k
  {
    if k < n {
      NotBlocked(l, rounds, k + 1, n);
    }
  }

  /** With an entry that is ready in some round, `run_one` does not stay blocked; and what it takes for
      readiness is. */
  lemma {:induction false} ReadyIsServed(l: Loop, now: int, rounds: seq<Round>)
    ensures forall k :: 0 <= k < |rounds| && rounds[k].Polled? && SomeReady(l, rounds[k].report) ==>
              !Choose(l, now, rounds).Blocked?
    ensures var c := Choose(l, now, rounds);
            c.Readiness? ==> c.round < |rounds| && rounds[c.round].Polled? && SomeReady(l, rounds[c.round].report)
  {
    forall k | 0 <= k < |rounds| && rounds[k].Polled? && SomeReady(l, rounds[k].report)
      ensures !Choose(l, now, rounds).Blocked?
    {
      HitMeansReady(l, rounds[k].report);
      NotBlocked(l, rounds, 0, k);
    }
    var c := Choose(l, now, rounds);
    if c.Readiness? {
      HitMeansReady(l, rounds[c.round].report);
    }
  }
}
