/** The completion/cancellation handshake of `sender_state` and its stop callback.

    An operation has up to two parties that report back: the operation itself and, once a stop was
    requested, the stop callback. The counter `outstanding` arbitrates between them. The three back
    ends let the two parties report in different orders; here an environment chooses the order, the
    outcomes and the moment of the stop request. */
module Handshake {

  /** What reaches the receiver. */
  datatype Signal = Value | Error(code: int) | Stopped

  /** What a back end reports about an operation. */
  datatype Outcome = Completed | Failed(code: int) | Cancelled

  function SignalOf(o: Outcome): Signal {
    match o
    case Completed => Value
    case Failed(code) => Error(code)
    case Cancelled => Stopped
  }

  /** The fields of `sender_state` that take part: the counter, whether the stop callback is
      registered and has not run, and everything the receiver was sent. */
  datatype Counter = Counter(outstanding: int, armed: bool, signals: seq<Signal>)

  const FRESH := Counter(0, false, [])

  /** `sender_state::complete`, `error` and `cancel`: only the first two deregister the callback. */
  function OpReports(c: Counter, o: Outcome): Counter {
    var n := c.outstanding - 1;
    if n != 0 then c.(outstanding := n)
    else Counter(0, o.Cancelled? && c.armed, c.signals + [SignalOf(o)])
  }

  /** `cancel_callback::complete`, to which its `error` and `cancel` forward. */
  function CallbackReports(c: Counter): Counter {
    var n := c.outstanding - 1;
    if n != 0 then c.(outstanding := n)
    else c.(outstanding := 0, signals := c.signals + [Stopped])
  }

  /** How a back end answers a request to cancel an operation it holds.
      Synchronous: poll reports both parties at once, and ends the program if it does not hold the
      operation.
      Timed: IOCP does the same for a timer, but reports the callback alone if it does not hold it.
      CancelFirst: IOCP otherwise reports the callback at once and the operation later.
      Unordered: io_uring reports both later, in any order. */
  datatype Order = Synchronous | Timed | CancelFirst | Unordered

  /** Stopping an operation that is held ends it there and then. */
  predicate AtOnce(order: Order) {
    order.Synchronous? || order.Timed?
  }

  datatype Submit = Accepted | Inline(outcome: Outcome)

  datatype Event =
    | UpstreamEnds(outcome: Outcome)  // upstream failed or was stopped: `start` is never reached
    | Start(submit: Submit)
    | StartReturns                    // the rest of `start` after a submission that was `ready`
    | StopRequested
    | OpArrives(outcome: Outcome)
    | CallbackArrives

  /** One operation and what the back end still owes it. */
  datatype World = World(
    counter: Counter,
    started: bool,
    stopRequested: bool,
    opHeld: bool,        // the back end will report the operation
    callbackHeld: bool,  // the back end will report the cancel request
    returning: bool,     // `start` has yet to make its extra call to `complete`
    terminated: bool)    // `std::terminate` was reached

  const INIT := World(FRESH, false, false, false, false, false, false)

  /** What the environment may do next: a back end reports only what it holds, and only once. */
  predicate Enabled(w: World, e: Event) {
    && !w.terminated
    && match e
       case UpstreamEnds(o) => !w.started && !o.Completed?
       case Start(s) => !w.started && (s.Inline? ==> !s.outcome.Cancelled?)
       case StartReturns => w.returning
       case StopRequested => !w.stopRequested
       case OpArrives(_) => w.opHeld
       case CallbackArrives => w.callbackHeld
  }

  /** `cancel_callback::operator()` together with the scheduler's `cancel`. */
  function Fire(order: Order, w: World): World {
    var c := Counter(w.counter.outstanding + 1, false, w.counter.signals);
    if c.outstanding <= 1 then w.(counter := c)
    else match order
      case Synchronous =>
        if w.opHeld
        then w.(counter := CallbackReports(OpReports(c, Cancelled)), opHeld := false)
        else w.(counter := c, terminated := true)
      case Timed =>
        if w.opHeld
        then w.(counter := CallbackReports(OpReports(c, Cancelled)), opHeld := false)
        else w.(counter := CallbackReports(c))
      case CancelFirst => w.(counter := CallbackReports(c))
      case Unordered => w.(counter := c, callbackHeld := true)
  }

  function Step(order: Order, w: World, e: Event): World {
    match e
    case UpstreamEnds(o) =>
      w.(started := true, counter := w.counter.(signals := w.counter.signals + [SignalOf(o)]))
    case Start(s) =>
      var up := w.(started := true, counter := w.counter.(outstanding := w.counter.outstanding + 1));
      if w.stopRequested then
        var fired := Fire(order, up);
        if fired.terminated then fired else fired.(counter := OpReports(fired.counter, Cancelled))
      else
        var armed := up.(counter := up.counter.(armed := true));
        if s.Accepted? then armed.(opHeld := true)
        else armed.(counter := OpReports(armed.counter, s.outcome), returning := s.outcome.Completed?)
    case StartReturns =>
      w.(counter := OpReports(w.counter, Completed), returning := false)
    case StopRequested =>
      var w' := w.(stopRequested := true);
      if w.counter.armed then Fire(order, w') else w'
    case OpArrives(o) => w.(counter := OpReports(w.counter, o), opHeld := false)
    case CallbackArrives => w.(counter := CallbackReports(w.counter), callbackHeld := false)
  }

  function Run(order: Order, es: seq<Event>): World {
    if es == [] then INIT else Step(order, Run(order, es[..|es| - 1]), es[|es| - 1])
  }

  /** `es` is a behaviour of the environment. */
  predicate Legal(order: Order, es: seq<Event>) {
    es == [] ||
    (Legal(order, es[..|es| - 1]) && Enabled(Run(order, es[..|es| - 1]), es[|es| - 1]))
  }

  lemma {:induction false} RunStep(order: Order, es: seq<Event>, e: Event)
    requires Legal(order, es) && Enabled(Run(order, es), e)
    ensures Legal(order, es + [e]) && Run(order, es + [e]) == Step(order, Run(order, es), e)
  {
    assert (es + [e])[..|es + [e]| - 1] == es;
  }

  /** The events `es`, taken one after the other from `s`. */
  predicate Takes(order: Order, s: World, es: seq<Event>, s': World)
    decreases |es|
  {
    if es == [] then s == s'
    else Enabled(s, es[0]) && Takes(order, Step(order, s, es[0]), es[1..], s')
  }

  lemma {:induction false} Regroup(before: seq<Event>, es: seq<Event>)
    requires es != []
    ensures (before + [es[0]]) + es[1..] == before + es
  {
  }

  /** A behaviour goes on with any events that can be taken where it ended. */
  lemma {:induction false} RunsOn(order: Order, before: seq<Event>, es: seq<Event>, s': World, all: seq<Event>)
    requires Legal(order, before) && Takes(order, Run(order, before), es, s')
    requires all == before + es
    ensures Legal(order, all) && Run(order, all) == s'
    decreases |es|
  {
    if es == [] {
      assert all == before;
    } else {
      RunStep(order, before, es[0]);
      Regroup(before, es);
      RunsOn(order, before + [es[0]], es[1..], s', all);
    }
  }

  /** The back end still owes a report. */
  predicate Waiting(w: World) {
    w.opHeld || w.callbackHeld
  }

  // ---- the invariant of every run ----

  function Parties(w: World): nat {
    (if w.opHeld then 1 else 0) + (if w.callbackHeld then 1 else 0)
  }

  predicate Inv(order: Order, w: World) {
    && (w.counter.armed ==> !w.stopRequested)
    && if !w.started then w.counter == FRESH && !Waiting(w) && !w.returning && !w.terminated
       else if w.terminated then order.Synchronous? && w.counter.signals == []
       else if Waiting(w) then
         && w.counter.signals == []
         && w.counter.outstanding == Parties(w)
         && !w.returning
         && (w.opHeld && !w.stopRequested ==> w.counter.armed)
         && (w.counter.armed ==> w.opHeld && !w.callbackHeld)
         && (w.callbackHeld ==> order.Unordered? && w.stopRequested)
         && (AtOnce(order) ==> !w.stopRequested)
       else
         && |w.counter.signals| == 1
         && -1 <= w.counter.outstanding <= 1
         && (w.counter.armed || w.returning ==> w.counter.outstanding == 0)
         && !(w.counter.armed && w.returning)
  }

  lemma {:induction false} StepKeepsInv(order: Order, w: World, e: Event)
    requires Inv(order, w) && Enabled(w, e)
    ensures Inv(order, Step(order, w, e))
  {
  }

  lemma {:induction false} RunKeepsInv(order: Order, es: seq<Event>)
    requires Legal(order, es)
    ensures Inv(order, Run(order, es))
  {
    if es != [] {
      RunKeepsInv(order, es[..|es| - 1]);
      StepKeepsInv(order, Run(order, es[..|es| - 1]), es[|es| - 1]);
    }
  }

  // ---- exactly once ----

  /** In every run of every back end: nothing is delivered while a report is owed, exactly one
      signal once none is, and the counter never leaves -1..2. */
  lemma {:induction false} DeliveredExactlyOnce(order: Order, es: seq<Event>)
    requires Legal(order, es)
    ensures var w := Run(order, es);
            && (!w.terminated ==>
              |w.counter.signals| == if w.started && !Waiting(w) then 1 else 0)
            && -1 <= w.counter.outstanding <= 2
  {
    RunKeepsInv(order, es);
    if es != [] {
      TerminatedOnlyAtStart(order, es);
    }
  }

  /** The extra `complete` after a submission that was `ready` delivers nothing. */
  lemma {:induction false} ExtraCompleteIsSilent(order: Order, es: seq<Event>)
    requires Legal(order, es) && Run(order, es).returning
    ensures Step(order, Run(order, es), StartReturns).counter.signals == Run(order, es).counter.signals
  {
    RunKeepsInv(order, es);
  }

  /** A stop was requested somewhere in `es`. */
  predicate StopAsked(es: seq<Event>) {
    es != [] && (es[|es| - 1].StopRequested? || StopAsked(es[..|es| - 1]))
  }

  /** The operation was started on a token that was already stopped. */
  predicate BeginsStopped(es: seq<Event>) {
    es != [] &&
    ((es[|es| - 1].Start? && StopAsked(es[..|es| - 1])) || BeginsStopped(es[..|es| - 1]))
  }

  lemma {:induction false} FireRemembersStop(order: Order, w: World)
    ensures Fire(order, w).stopRequested == w.stopRequested
  {
  }

  lemma {:induction false} StartRemembersStop(order: Order, w: World, s: Submit)
    ensures Step(order, w, Start(s)).stopRequested == w.stopRequested
  {
    FireRemembersStop(order, w.(started := true,
      counter := w.counter.(outstanding := w.counter.outstanding + 1)));
  }

  lemma {:induction false} StepRemembersStop(order: Order, w: World, e: Event)
    ensures Step(order, w, e).stopRequested <==> e.StopRequested? || w.stopRequested
  {
    match e
    case Start(s) => StartRemembersStop(order, w, s);
    case StopRequested => FireRemembersStop(order, w.(stopRequested := true));
    case _ =>
  }

  lemma {:induction false} StopIsRemembered(order: Order, es: seq<Event>)
    ensures Run(order, es).stopRequested <==> StopAsked(es)
  {
    if es != [] {
      StopIsRemembered(order, es[..|es| - 1]);
      StepRemembersStop(order, Run(order, es[..|es| - 1]), es[|es| - 1]);
    }
  }

  /** The `std::terminate` branch is reached in exactly one way: `start` on a token that is already
      stopped, with a back end that cancels synchronously. There the callback runs inside `emplace`,
      before the operation is registered. */
  lemma {:induction false} TerminatedOnlyAtStart(order: Order, es: seq<Event>)
    requires Legal(order, es)
    ensures Run(order, es).terminated <==> order.Synchronous? && BeginsStopped(es)
    ensures Run(order, es).terminated ==> Run(order, es).counter.outstanding == 2
  {
    if es != [] {
      var pre := es[..|es| - 1];
      TerminatedOnlyAtStart(order, pre);
      RunKeepsInv(order, pre);
      StopIsRemembered(order, pre);
    }
  }

  // ---- which signal ----

  /** Read off the events alone: the back end holds the operation after `es`. */
  predicate InFlight(order: Order, es: seq<Event>) {
    es != [] &&
    var pre, e := es[..|es| - 1], es[|es| - 1];
    match e
    case Start(s) => s.Accepted? && !StopAsked(pre)
    case OpArrives(_) => false
    case StopRequested => !AtOnce(order) && InFlight(order, pre)
    case _ => InFlight(order, pre)
  }

  /** Read off the events alone: what the party that reported last had to say. */
  function Verdict(order: Order, es: seq<Event>): Signal {
    if es == [] then Stopped else
    var pre, e := es[..|es| - 1], es[|es| - 1];
    match e
    case UpstreamEnds(o) => SignalOf(o)
    case Start(s) =>
      if StopAsked(pre) then Stopped
      else if s.Inline? then SignalOf(s.outcome) else Verdict(order, pre)
    case OpArrives(o) => SignalOf(o)
    case CallbackArrives => Stopped
    case StopRequested =>
      if AtOnce(order) && InFlight(order, pre) then Stopped else Verdict(order, pre)
    case StartReturns => Verdict(order, pre)
  }

  lemma {:induction false} InFlightIsHeld(order: Order, es: seq<Event>)
    requires Legal(order, es)
    ensures !Run(order, es).terminated ==> (InFlight(order, es) <==> Run(order, es).opHeld)
  {
    if es != [] {
      var pre := es[..|es| - 1];
      InFlightIsHeld(order, pre);
      RunKeepsInv(order, pre);
      StopIsRemembered(order, pre);
    }
  }

  lemma {:induction false} VerdictStep(order: Order, w: World, e: Event, pre: seq<Event>, es: seq<Event>)
    requires es != [] && pre == es[..|es| - 1] && e == es[|es| - 1]
    requires Inv(order, w) && Enabled(w, e)
    requires InFlight(order, pre) <==> w.opHeld
    requires StopAsked(pre) <==> w.stopRequested
    requires w.started && !Waiting(w) ==> w.counter.signals == [Verdict(order, pre)]
    ensures var w' := Step(order, w, e);
            w'.started && !Waiting(w') && !w'.terminated ==> w'.counter.signals == [Verdict(order, es)]
  {
  }

  /** In every run the receiver is sent what the last reporting party said, once. */
  lemma {:induction false} LastReportIsDelivered(order: Order, es: seq<Event>)
    requires Legal(order, es)
    ensures var w := Run(order, es);
            w.started && !Waiting(w) && !w.terminated ==> w.counter.signals == [Verdict(order, es)]
  {
    if es != [] {
      var pre := es[..|es| - 1];
      LastReportIsDelivered(order, pre);
      InFlightIsHeld(order, pre);
      RunKeepsInv(order, pre);
      StopIsRemembered(order, pre);
      VerdictStep(order, Run(order, pre), es[|es| - 1], pre, es);
    }
  }

  /** A failure or stop upstream is forwarded as it is; the operation never starts, and nothing that can
      still happen sends anything. */
  lemma {:induction false} UpstreamIsForwarded(order: Order, o: Outcome)
    requires !o.Completed?
    ensures Legal(order, [UpstreamEnds(o)])
    ensures var w := Run(order, [UpstreamEnds(o)]);
            && w.counter.signals == [if o.Failed? then Error(o.code) else Stopped]
            && forall e :: Enabled(w, e) ==> e.StopRequested? && Step(order, w, e).counter == w.counter
  {
    RunStep(order, [], UpstreamEnds(o));
    assert [] + [UpstreamEnds(o)] == [UpstreamEnds(o)];
  }

  // ---- the object ----

  /** A `sender_state` object with the back end's obligations towards it beside it. */
  class SenderState {
    const order: Order
    var outstanding: int
    var armed: bool
    var signals: seq<Signal>
    var started: bool
    var stopRequested: bool
    var opHeld: bool
    var callbackHeld: bool
    var returning: bool
    var terminated: bool

    ghost function Model(): World
      reads this
    {
      World(Counter(outstanding, armed, signals),
            started, stopRequested, opHeld, callbackHeld, returning, terminated)
    }

    constructor (order: Order)
      ensures Model() == INIT && this.order == order
    {
      this.order := order;
      outstanding, armed, signals := 0, false, [];
      started, stopRequested, opHeld, callbackHeld := false, false, false, false;
      returning, terminated := false, false;
    }

    method Complete()
      modifies this
      ensures Model() == old(Model()).(counter := OpReports(old(Model()).counter, Completed))
    {
      outstanding := outstanding - 1;
      if outstanding == 0 {
        armed := false;
        signals := signals + [Value];
      }
    }

    method Fail(code: int)
      modifies this
      ensures Model() == old(Model()).(counter := OpReports(old(Model()).counter, Failed(code)))
    {
      outstanding := outstanding - 1;
      if outstanding == 0 {
        armed := false;
        signals := signals + [Error(code)];
      }
    }

    method Cancel()
      modifies this
      ensures Model() == old(Model()).(counter := OpReports(old(Model()).counter, Cancelled))
    {
      outstanding := outstanding - 1;
      if outstanding == 0 {
        signals := signals + [Stopped];
      }
    }

    method Report(o: Outcome)
      modifies this
      ensures Model() == old(Model()).(counter := OpReports(old(Model()).counter, o))
    {
      match o
      case Completed => Complete();
      case Failed(code) => Fail(code);
      case Cancelled => Cancel();
    }

    /** `cancel_callback::complete` */
    method CallbackComplete()
      modifies this
      ensures Model() == old(Model()).(counter := CallbackReports(old(Model()).counter))
    {
      outstanding := outstanding - 1;
      if outstanding == 0 {
        signals := signals + [Stopped];
      }
    }

    /** `cancel_callback::operator()` */
    method Callback()
      modifies this
      ensures Model() == Fire(order, old(Model()))
    {
      armed := false;
      outstanding := outstanding + 1;
      if 1 < outstanding {
        match order
        case Synchronous =>
          if opHeld {
            opHeld := false;
            Cancel();
            CallbackComplete();
          } else {
            terminated := true;
          }
        case Timed =>
          if opHeld {
            opHeld := false;
            Cancel();
          }
          CallbackComplete();
        case CancelFirst => CallbackComplete();
        case Unordered => callbackHeld := true;
      }
    }

    method Begin(submit: Submit)
      requires Enabled(Model(), Start(submit))
      modifies this
      ensures Model() == Step(order, old(Model()), Start(submit))
    {
      started := true;
      outstanding := outstanding + 1;
      if stopRequested {
        Callback();
        if !terminated {
          Cancel();
        }
        return;
      }
      armed := true;
      match submit
      case Accepted => opHeld := true;
      case Inline(o) =>
        Report(o);
        returning := o.Completed?;
    }

    /** The tail of `start`. */
    method FinishStart()
      requires Enabled(Model(), StartReturns)
      modifies this
      ensures Model() == Step(order, old(Model()), StartReturns)
    {
      returning := false;
      Complete();
    }

    /** A stop request on the receiver's token. */
    method RequestStop()
      requires Enabled(Model(), StopRequested)
      modifies this
      ensures Model() == Step(order, old(Model()), StopRequested)
    {
      stopRequested := true;
      if armed {
        Callback();
      }
    }

    /** The back end's report about the operation. */
    method Arrive(o: Outcome)
      requires Enabled(Model(), OpArrives(o))
      modifies this
      ensures Model() == Step(order, old(Model()), OpArrives(o))
    {
      opHeld := false;
      Report(o);
    }

    /** The back end's report about the cancel request. */
    method ArriveCallback()
      requires Enabled(Model(), CallbackArrives)
      modifies this
      ensures Model() == Step(order, old(Model()), CallbackArrives)
    {
      callbackHeld := false;
      CallbackComplete();
    }
  }
}
