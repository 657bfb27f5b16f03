/** The poll loop refines the handshake: whatever the loop does in a run, each of its operations goes
    through a behaviour of the completion/cancellation handshake with synchronous cancellation. */
module PollRefines {
  import H = Handshake
  import opened PollLoop

  /** What submitting an operation comes to. */
  function Submitted(r: Request, inline: ConnectNow, now: int): H.Submit {
    match r
    case ResumeAt(deadline) => if now < deadline then H.Accepted else H.Inline(H.Completed)
    case Connect(_) =>
      (match inline
       case Connected => H.Inline(H.Completed)
       case Refused(errno) => H.Inline(H.Failed(errno))
       case InProgress => H.Accepted)
    case _ => H.Accepted
  }

  /** What an action on the loop means to the operation `o` alone. A stop request counts only while
      the callback of `o` is armed. */
  function EventsFor(l: Loop, a: Action, o: nat): seq<H.Event>
    requires Inv(l) && Enabled(l, a)
  {
    match a
    case Begin(op, r, inline, now) =>
      if op != o then [] else
      var s := Submitted(r, inline, now);
      if s == H.Inline(H.Completed) then [H.Start(s), H.StartReturns] else [H.Start(s)]
    case BeginStopped(op, _) => if op == o then [H.StopRequested, H.Start(H.Accepted)] else []
    case RequestStop(op) => if op == o && l.ops[o].counter.armed then [H.StopRequested] else []
    case FireTimer(_) => if l.timeouts[0].op == o then [H.OpArrives(H.Completed)] else []
    case Dispatch(report, sys, _) =>
      if l.outstanding[LastHit(l.poll, report, |l.poll|)] != o || o !in l.ops then []
      else (match WorkOf(l.ops[o].request, sys)
            case Done => [H.OpArrives(H.Completed)]
            case Broke(errno) => [H.OpArrives(H.Failed(errno))]
            case NotReady => [])
    case _ => []
  }

  /** `s` is the handshake of `o` on the loop `l`. */
  predicate Matches(l: Loop, s: H.World, o: nat) {
    && H.Inv(H.Synchronous, s)
    && if o !in l.ops then s == H.INIT
       else
         && s.started && s.counter == l.ops[o].counter
         && !s.callbackHeld && !s.returning
         && (s.terminated ==> l.terminated)
  }

  /** The loop holds exactly the operations whose handshake awaits a report. */
  lemma {:induction false} HeldAgrees(l: Loop, s: H.World, o: nat)
    requires Inv(l) && !l.terminated && o in l.ops && o !in l.lost && Matches(l, s, o)
    ensures s.opHeld <==> Holds(l, o)
    ensures s.opHeld ==> s.counter == ARMED && !s.stopRequested
  {
    assert OpOk(l, o);
  }

  /** The handshake after the events of one action, of which there are at most two. */
  function After(s: H.World, es: seq<H.Event>): H.World
    decreases |es|
  {
    if es == [] then s else After(H.Step(H.Synchronous, s, es[0]), es[1..])
  }

  lemma {:induction false} OneEvent(s: H.World, e: H.Event)
    requires H.Enabled(s, e)
    ensures After(s, [e]) == H.Step(H.Synchronous, s, e) && H.Takes(H.Synchronous, s, [e], After(s, [e]))
  {
    assert [e][1..] == [];
  }

  lemma {:induction false} TwoEvents(s: H.World, e: H.Event, f: H.Event)
    requires H.Enabled(s, e) && H.Enabled(H.Step(H.Synchronous, s, e), f)
    ensures After(s, [e, f]) == H.Step(H.Synchronous, H.Step(H.Synchronous, s, e), f)
    ensures H.Takes(H.Synchronous, s, [e, f], After(s, [e, f]))
  {
    OneEvent(H.Step(H.Synchronous, s, e), f);
    assert [e, f][1..] == [f];
  }

  lemma {:induction false} BeginSeen(l: Loop, a: Action, o: nat)
    requires Inv(l) && Enabled(l, a) && a.Begin? && a.op == o
    ensures var es := EventsFor(l, a, o);
            H.Takes(H.Synchronous, H.INIT, es, After(H.INIT, es)) && Matches(Step(l, a), After(H.INIT, es), o)
  {
    var e := H.Start(Submitted(a.request, a.inline, a.now));
    if e.submit == H.Inline(H.Completed) {
      TwoEvents(H.INIT, e, H.StartReturns);
    } else {
      OneEvent(H.INIT, e);
    }
  }

  lemma {:induction false} BeginStoppedSeen(l: Loop, a: Action, o: nat)
    requires Inv(l) && Enabled(l, a) && a.BeginStopped? && a.op == o
    ensures var es := EventsFor(l, a, o);
            H.Takes(H.Synchronous, H.INIT, es, After(H.INIT, es)) && Matches(Step(l, a), After(H.INIT, es), o)
  {
    TwoEvents(H.INIT, H.StopRequested, H.Start(H.Accepted));
  }

  /** `a` gives the counter of `o` the events of its handshake `s`: none, or one report. */
  predicate Reports(l: Loop, s: H.World, a: Action, o: nat)
    requires Inv(l) && Enabled(l, a)
  {
    var l', es := Step(l, a), EventsFor(l, a, o);
    && o in l'.ops
    && if es == [] then l'.ops[o].counter == s.counter
       else
         && |es| == 1
         && s.opHeld && !s.stopRequested && s.counter == ARMED
         && l'.ops[o].counter == H.Step(H.Synchronous, s, es[0]).counter
         && (es[0].StopRequested? || (es[0].OpArrives? && !es[0].outcome.Cancelled?))
  }

  lemma {:induction false} StopReports(l: Loop, s: H.World, a: Action, o: nat)
    requires Inv(l) && Enabled(l, a) && o in l.ops && o !in l.lost && Matches(l, s, o)
    requires a.RequestStop?
    ensures Reports(l, s, a, o)
  {
    HeldAgrees(l, s, o);
    assert OpOk(l, o);
  }

  lemma {:induction false} DispatchReports(l: Loop, s: H.World, a: Action, o: nat)
    requires Inv(l) && Enabled(l, a) && o in l.ops && o !in Step(l, a).lost && Matches(l, s, o)
    requires a.Dispatch?
    ensures Reports(l, s, a, o)
  {
    LosesExactly(l, a, o);
    HeldAgrees(l, s, o);
    assert Registered(l, LastHit(l.poll, a.report, |l.poll|));
  }

  lemma {:induction false} TimerReports(l: Loop, s: H.World, a: Action, o: nat)
    requires Inv(l) && Enabled(l, a) && o in l.ops && o !in l.lost && Matches(l, s, o)
    requires a.FireTimer?
    ensures Reports(l, s, a, o)
  {
    HeldAgrees(l, s, o);
    TimerEntries(l, l.timeouts[0]);
  }

  lemma {:induction false} OthersReport(l: Loop, s: H.World, a: Action, o: nat)
    requires Inv(l) && Enabled(l, a) && o in l.ops && Matches(l, s, o)
    requires !a.RequestStop? && !a.FireTimer? && !a.Dispatch?
    ensures Reports(l, s, a, o)
  {
  }

  lemma {:induction false} StepReports(l: Loop, s: H.World, a: Action, o: nat)
    requires Inv(l) && Enabled(l, a) && o in l.ops && o !in Step(l, a).lost && Matches(l, s, o)
    ensures Reports(l, s, a, o)
  {
    LosesExactly(l, a, o);
    match a
    case RequestStop(_) => StopReports(l, s, a, o);
    case Dispatch(_, _, _) => DispatchReports(l, s, a, o);
    case FireTimer(_) => TimerReports(l, s, a, o);
    case _ => OthersReport(l, s, a, o);
  }

  lemma {:induction false} HeldSeen(l: Loop, s: H.World, a: Action, o: nat)
    requires Inv(l) && Enabled(l, a) && o in l.ops && o !in Step(l, a).lost && Matches(l, s, o)
    ensures var es := EventsFor(l, a, o);
            H.Takes(H.Synchronous, s, es, After(s, es)) && Matches(Step(l, a), After(s, es), o)
  {
    var es := EventsFor(l, a, o);
    StepReports(l, s, a, o);
    if es != [] {
      assert es == [es[0]];
      OneEvent(s, es[0]);
      H.StepKeepsInv(H.Synchronous, s, es[0]);
    }
  }

  lemma {:induction false} StepSeen(l: Loop, s: H.World, a: Action, o: nat)
    requires Inv(l) && Enabled(l, a) && o !in Step(l, a).lost && Matches(l, s, o)
    ensures var es := EventsFor(l, a, o);
            H.Takes(H.Synchronous, s, es, After(s, es)) && Matches(Step(l, a), After(s, es), o)
  {
    StepBegins(l, a);
    if o !in l.ops {
      if a.Begin? && a.op == o {
        BeginSeen(l, a, o);
      } else if a.BeginStopped? && a.op == o {
        BeginStoppedSeen(l, a, o);
      } else {
        NotHeldIsNew(l, o);
      }
    } else {
      HeldSeen(l, s, a, o);
    }
  }

  /** `h` as the operation `o` sees it. */
  ghost function Seen(h: seq<Action>, o: nat): seq<H.Event>
    requires Legal(EMPTY, h)
  {
    if h == [] then [] else
    Seen(h[..|h| - 1], o) + EventsFor(Exec(EMPTY, h[..|h| - 1]), h[|h| - 1], o)
  }

  lemma {:induction false} LoopRunsHandshakes(h: seq<Action>, o: nat)
    requires Legal(EMPTY, h) && o !in Exec(EMPTY, h).lost
    ensures H.Legal(H.Synchronous, Seen(h, o))
    ensures Matches(Exec(EMPTY, h), H.Run(H.Synchronous, Seen(h, o)), o)
  {
    if h != [] {
      var pre, a := h[..|h| - 1], h[|h| - 1];
      var l, es := Exec(EMPTY, pre), EventsFor(Exec(EMPTY, pre), a, o);
      LosesExactly(l, a, o);
      LoopRunsHandshakes(pre, o);
      var s := H.Run(H.Synchronous, Seen(pre, o));
      StepSeen(l, s, a, o);
      H.RunsOn(H.Synchronous, Seen(pre, o), es, After(s, es), Seen(h, o));
    }
  }

  /** Every run of the loop is, for each operation that was not lost, a run of the handshake with the
      same counter and the same signals. It is on the loop exactly while its handshake awaits a
      report, and once it is not, it has been sent what the last reporting party said, and only that. */
  lemma {:induction false} LoopIsHandshake(h: seq<Action>, o: nat)
    requires Legal(EMPTY, h) && o in Exec(EMPTY, h).ops && o !in Exec(EMPTY, h).lost
    ensures var l, es := Exec(EMPTY, h), Seen(h, o);
            && H.Legal(H.Synchronous, es)
            && H.Run(H.Synchronous, es).counter == l.ops[o].counter
            && (!l.terminated ==> (Holds(l, o) <==> H.InFlight(H.Synchronous, es)))
            && (!l.terminated && !Holds(l, o) ==>
                  l.ops[o].counter.signals == [H.Verdict(H.Synchronous, es)])
  {
    LoopRunsHandshakes(h, o);
    var l, es := Exec(EMPTY, h), Seen(h, o);
    if !l.terminated {
      HeldAgrees(l, H.Run(H.Synchronous, es), o);
      H.InFlightIsHeld(H.Synchronous, es);
      H.LastReportIsDelivered(H.Synchronous, es);
    }
  }
}
