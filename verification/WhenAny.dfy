/** `when_any`: n children race through two atomic counters; the first to complete decides what the
    receiver gets, the last to finish delivers it. Every atomic access is a step of its own and an
    environment interleaves the steps. */
module WhenAny {

  datatype Signal = Value(v: int) | Error(e: int) | Stopped

  datatype Option<T> = None | Some(value: T)

  /** Where a child is. */
  datatype Pc =
    | Idle                      // not started yet
    | Active
    | Won(signal: Signal)       // took `done_count` from 0, has yet to request the stop
    | Writing(signal: Signal)   // has yet to write its result
    | Leaving                   // has yet to count itself in `ready_count`
    | Notifying                 // counted last
    | Left

  datatype World = World(
    pcs: seq<Pc>,
    started: nat,
    doneCount: nat,
    readyCount: nat,
    stops: nat,               // calls of `request_stop`
    error: Option<int>,
    value: Option<int>,
    delivered: seq<Signal>,
    winner: Option<nat>,      // history: the child that took `doneCount` from 0
    verdict: Signal)          // history: and its signal

  function Init(n: nat): World {
    World(seq(n, _ => Idle), 0, 0, 0, 0, None, None, [], None, Stopped)
  }

  datatype Move = StartNext | Complete(child: nat, signal: Signal) | Advance(child: nat)

  predicate Enabled(w: World, m: Move) {
    match m
    case StartNext => w.started < |w.pcs|
    case Complete(i, _) => i < |w.pcs| && w.pcs[i].Active?
    case Advance(i) => i < |w.pcs| && !w.pcs[i].Idle? && !w.pcs[i].Active? && !w.pcs[i].Left?
  }

  /** `notify_done` */
  function Notified(w: World): Signal {
    if w.error.Some? then Error(w.error.value)
    else if w.value.Some? then Value(w.value.value)
    else Stopped
  }

  /** The child a step moves, and where to. */
  function Mover(w: World, m: Move): nat {
    match m case StartNext => w.started case Complete(i, _) => i case Advance(i) => i
  }

  function NextPc(w: World, m: Move): Pc
    requires Enabled(w, m)
  {
    match m
    case StartNext => Active
    case Complete(_, s) => if w.doneCount == 0 then Won(s) else Leaving
    case Advance(i) =>
      match w.pcs[i]
      case Won(s) => if s.Stopped? then Leaving else Writing(s)
      case Writing(_) => Leaving
      case Leaving => if w.readyCount + 1 == |w.pcs| then Notifying else Left
      case _ => Left
  }

  function Step(w: World, m: Move): World
    requires Enabled(w, m)
  {
    var w' := w.(pcs := w.pcs[Mover(w, m) := NextPc(w, m)]);
    match m
    case StartNext => w'.(started := w.started + 1)
    case Complete(i, s) =>
      if w.doneCount == 0 then w'.(doneCount := 1, winner := Some(i), verdict := s)
      else w'.(doneCount := w.doneCount + 1)
    case Advance(i) =>
      match w.pcs[i]
      case Won(_) => w'.(stops := w.stops + 1)
      case Writing(s) =>
        if s.Error? then w'.(error := Some(s.e)) else if s.Value? then w'.(value := Some(s.v)) else w'
      case Leaving => w'.(readyCount := w.readyCount + 1)
      case Notifying => w'.(delivered := w.delivered + [Notified(w)])
      case _ => w'
  }

  // ---- counting children ----

  /** How far a child has come. */
  function Rank(p: Pc): nat {
    match p
    case Idle => 0
    case Active => 1
    case Won(_) => 2
    case Writing(_) => 3
    case Leaving => 4
    case Notifying => 5
    case Left => 6
  }

  /** The children that have come at least as far as `r`. */
  function Count(pcs: seq<Pc>, r: nat): (c: nat)
    ensures c <= |pcs|
  {
    if pcs == [] then 0 else (if Rank(pcs[0]) >= r then 1 else 0) + Count(pcs[1..], r)
  }

  lemma {:induction false} CountUpdate(pcs: seq<Pc>, r: nat, i: nat, p: Pc)
    requires i < |pcs|
    ensures Count(pcs[i := p], r) ==
            Count(pcs, r) - (if Rank(pcs[i]) >= r then 1 else 0) + (if Rank(p) >= r then 1 else 0)
  {
    if i == 0 {
      assert pcs[i := p][1..] == pcs[1..];
    } else {
      assert pcs[i := p][1..] == pcs[1..][i - 1 := p];
      CountUpdate(pcs[1..], r, i - 1, p);
    }
  }

  lemma {:induction false} CountBounds(pcs: seq<Pc>, r: nat)
    ensures Count(pcs, r) == |pcs| <==> forall i :: 0 <= i < |pcs| ==> Rank(pcs[i]) >= r
    ensures Count(pcs, r) == 0 <==> forall i :: 0 <= i < |pcs| ==> Rank(pcs[i]) < r
  {
    if pcs != [] {
      CountBounds(pcs[1..], r);
      assert forall i :: 0 < i < |pcs| ==> pcs[i] == pcs[1..][i - 1];
    }
  }

  /** All but one child: the others are among the counted ones. */
  lemma {:induction false} CountButOne(pcs: seq<Pc>, r: nat, i: nat)
    requires i < |pcs| && Rank(pcs[i]) < r && Count(pcs, r) == |pcs| - 1
    ensures forall j :: 0 <= j < |pcs| && j != i ==> Rank(pcs[j]) >= r
  {
    CountBounds(pcs[1..], r);
    if 0 < i {
      assert pcs[i] == pcs[1..][i - 1];
      CountButOne(pcs[1..], r, i - 1);
    }
    assert forall j :: 0 < j < |pcs| ==> pcs[j] == pcs[1..][j - 1];
  }

  // ---- the invariant ----

  predicate Deciding(p: Pc) {
    p.Won? || p.Writing?
  }

  predicate ChildOk(w: World, i: nat)
    requires i < |w.pcs|
  {
    && (w.pcs[i].Idle? <==> w.started <= i)
    && (Deciding(w.pcs[i]) ==>
         w.winner == Some(i) && w.pcs[i].signal == w.verdict && (w.pcs[i].Writing? ==> !w.verdict.Stopped?))
  }

  /** The winner's progress decides who may have touched the result and the stop source. */
  predicate WinnerOk(w: World) {
    match w.winner
    case None => w.doneCount == 0 && w.stops == 0 && w.error.None? && w.value.None?
    case Some(i) =>
      && w.doneCount > 0 && i < |w.pcs| && Rank(w.pcs[i]) >= 2
      && w.stops == (if w.pcs[i].Won? then 0 else 1)
      && w.error == (if w.verdict.Error? && !Deciding(w.pcs[i]) then Some(w.verdict.e) else None)
      && w.value == (if w.verdict.Value? && !Deciding(w.pcs[i]) then Some(w.verdict.v) else None)
  }

  /** Nothing is delivered before the last child is counted; then one child notifies, once. */
  predicate DeliveryOk(w: World) {
    if w.readyCount < |w.pcs| || |w.pcs| == 0 then w.delivered == [] && Count(w.pcs, 6) == w.readyCount
    else if w.delivered == [] then Count(w.pcs, 6) == |w.pcs| - 1
    else w.delivered == [w.verdict] && Count(w.pcs, 6) == |w.pcs|
  }

  ghost predicate Inv(w: World) {
    && w.started <= |w.pcs|
    && w.doneCount == Count(w.pcs, 2)
    && w.readyCount == Count(w.pcs, 5)
    && (forall i :: 0 <= i < |w.pcs| ==> ChildOk(w, i))
    && WinnerOk(w)
    && DeliveryOk(w)
  }

  lemma {:induction false} RankRises(w: World, m: Move)
    requires Inv(w) && Enabled(w, m)
    ensures Mover(w, m) < |w.pcs| && Rank(w.pcs[Mover(w, m)]) < Rank(NextPc(w, m))
  {
    assert m.StartNext? ==> ChildOk(w, w.started);
  }

  lemma {:induction false} CountStep(w: World, m: Move, r: nat)
    requires Inv(w) && Enabled(w, m)
    ensures Mover(w, m) < |w.pcs|
    ensures Count(Step(w, m).pcs, r) ==
            Count(w.pcs, r) + if Rank(w.pcs[Mover(w, m)]) < r <= Rank(NextPc(w, m)) then 1 else 0
  {
    RankRises(w, m);
    CountUpdate(w.pcs, r, Mover(w, m), NextPc(w, m));
  }

  lemma {:induction false} CountsStep(w: World, m: Move)
    requires Inv(w) && Enabled(w, m)
    ensures var w' := Step(w, m);
            && w'.started <= |w'.pcs|
            && w'.doneCount == Count(w'.pcs, 2) && w'.readyCount == Count(w'.pcs, 5)
            && Count(w'.pcs, 6) == Count(w.pcs, 6) + if NextPc(w, m).Left? then 1 else 0
  {
    assert m.StartNext? ==> ChildOk(w, w.started);
    CountStep(w, m, 2);
    CountStep(w, m, 5);
    CountStep(w, m, 6);
  }

  lemma {:induction false} ChildrenStep(w: World, m: Move)
    requires Inv(w) && Enabled(w, m)
    ensures forall i :: 0 <= i < |w.pcs| ==> ChildOk(Step(w, m), i)
  {
    var w' := Step(w, m);
    CountBounds(w.pcs, 2);
    forall i | 0 <= i < |w.pcs| ensures ChildOk(w', i) {
      assert ChildOk(w, i);
    }
  }

  lemma {:induction false} WinnerStep(w: World, m: Move)
    requires Inv(w) && Enabled(w, m)
    ensures WinnerOk(Step(w, m))
  {
    assert Mover(w, m) < |w.pcs| && ChildOk(w, Mover(w, m));
  }

  lemma {:induction false} DeliveryStep(w: World, m: Move)
    requires Inv(w) && Enabled(w, m)
    ensures DeliveryOk(Step(w, m))
  {
    CountsStep(w, m);
    CountBounds(w.pcs, 5);
    if m.Advance? && w.pcs[m.child].Notifying? {
      NotifiesTheVerdict(w, m.child);
    }
  }

  lemma {:induction false} CountsNest(pcs: seq<Pc>, r: nat, r': nat)
    requires r <= r'
    ensures Count(pcs, r) >= Count(pcs, r')
    ensures Count(pcs, r) == Count(pcs, r') ==>
              forall i :: 0 <= i < |pcs| && Rank(pcs[i]) >= r ==> Rank(pcs[i]) >= r'
  {
    if pcs != [] {
      CountsNest(pcs[1..], r, r');
      assert forall i :: 0 < i < |pcs| ==> pcs[i] == pcs[1..][i - 1];
    }
  }

  /** At the moment of notification every other child has left, so that nobody can still write; and
      what is delivered is the signal of the child that completed first. */
  lemma {:induction false} NotifiesTheVerdict(w: World, i: nat)
    requires Inv(w) && i < |w.pcs| && w.pcs[i].Notifying?
    ensures forall j :: 0 <= j < |w.pcs| && j != i ==> w.pcs[j].Left?
    ensures w.winner.Some? && Notified(w) == w.verdict && w.delivered == [] && w.stops == 1
  {
    CountsNest(w.pcs, 5, 6);
    CountBounds(w.pcs, 6);
    CountButOne(w.pcs, 6, i);
    CountBounds(w.pcs, 2);
  }

  // ---- runs ----

  ghost predicate Legal(n: nat, h: seq<Move>)
    decreases |h|, 0
  {
    h == [] || (Legal(n, h[..|h| - 1]) && Enabled(Run(n, h[..|h| - 1]), h[|h| - 1]))
  }

  lemma {:induction false} StepKeepsInv(w: World, m: Move)
    requires Inv(w) && Enabled(w, m)
    ensures Inv(Step(w, m))
  {
    CountsStep(w, m);
    ChildrenStep(w, m);
    WinnerStep(w, m);
    DeliveryStep(w, m);
  }

  lemma {:induction false} InitKeepsInv(n: nat)
    ensures Inv(Init(n))
  {
    CountBounds(Init(n).pcs, 2);
    CountBounds(Init(n).pcs, 5);
    CountBounds(Init(n).pcs, 6);
  }

  ghost function Run(n: nat, h: seq<Move>): (w: World)
    requires Legal(n, h)
    ensures |w.pcs| == n && Inv(w)
    decreases |h|, 1
  {
    if h == [] then
      InitKeepsInv(n);
      Init(n)
    else
      var pre := Run(n, h[..|h| - 1]);
      StepKeepsInv(pre, h[|h| - 1]);
      Step(pre, h[|h| - 1])
  }

  /** The signals in the order in which the children completed. */
  function Completions(h: seq<Move>): seq<Signal> {
    if h == [] then [] else
    Completions(h[..|h| - 1]) + if h[|h| - 1].Complete? then [h[|h| - 1].signal] else []
  }

  lemma {:induction false} VerdictIsFirst(n: nat, h: seq<Move>)
    requires Legal(n, h)
    ensures Run(n, h).doneCount == |Completions(h)|
    ensures Completions(h) != [] ==> Run(n, h).verdict == Completions(h)[0]
  {
    if h != [] {
      VerdictIsFirst(n, h[..|h| - 1]);
      StepCompletes(Run(n, h[..|h| - 1]), h[|h| - 1]);
    }
  }

  lemma {:induction false} StepCompletes(w: World, m: Move)
    requires Enabled(w, m)
    ensures Step(w, m).doneCount == w.doneCount + if m.Complete? then 1 else 0
    ensures Step(w, m).verdict == if m.Complete? && w.doneCount == 0 then m.signal else w.verdict
  {
  }

  predicate AllLeft(w: World) {
    forall i :: 0 <= i < |w.pcs| ==> w.pcs[i].Left?
  }

  lemma {:induction false} DeliveredWhenAllLeft(w: World)
    requires Inv(w)
    ensures w.delivered != [] <==> w.pcs != [] && AllLeft(w)
    ensures w.delivered != [] ==> w.delivered == [w.verdict] && w.doneCount == |w.pcs| && w.stops == 1
    ensures w.stops <= 1
  {
    CountBounds(w.pcs, 6);
    CountBounds(w.pcs, 2);
    CountsNest(w.pcs, 5, 6);
  }

  /** For every number of children and every interleaving: the receiver gets nothing before all
      children have left, and then, if there is a child, exactly the signal of the one that
      completed first; the stop was requested exactly once. */
  lemma {:induction false} FirstDecidesLastDelivers(n: nat, h: seq<Move>)
    requires Legal(n, h)
    ensures var w := Run(n, h);
            && (w.delivered != [] <==> n > 0 && AllLeft(w))
            && (w.delivered != [] ==>
                  && Completions(h) != [] && w.delivered == [Completions(h)[0]]
                  && |Completions(h)| == n && w.stops == 1)
            && w.stops <= 1
  {
    var w := Run(n, h);
    VerdictIsFirst(n, h);
    DeliveredWhenAllLeft(w);
  }

  /** Only the first to complete ever writes a result or requests the stop. */
  lemma {:induction false} LosersWriteNothing(n: nat, h: seq<Move>, m: Move)
    requires Legal(n, h) && Enabled(Run(n, h), m)
    ensures var w, w' := Run(n, h), Step(Run(n, h), m);
            w'.error != w.error || w'.value != w.value || w'.stops != w.stops ==>
              m.Advance? && w.winner == Some(m.child)
  {
    var w := Run(n, h);
    assert m.Advance? ==> ChildOk(w, m.child);
  }

  // ---- progress ----

  /** The steps the children have taken, six at most for each. */
  function Progress(pcs: seq<Pc>): (t: nat)
    ensures t <= 6 * |pcs|
  {
    if pcs == [] then 0 else Rank(pcs[0]) + Progress(pcs[1..])
  }

  lemma {:induction false} ProgressUpdate(pcs: seq<Pc>, i: nat, p: Pc)
    requires i < |pcs|
    ensures Progress(pcs[i := p]) == Progress(pcs) - Rank(pcs[i]) + Rank(p)
  {
    if i == 0 {
      assert pcs[i := p][1..] == pcs[1..];
    } else {
      assert pcs[i := p][1..] == pcs[1..][i - 1 := p];
      ProgressUpdate(pcs[1..], i - 1, p);
    }
  }

  /** No run is longer than six steps a child, and it can only stop when every child has left: so
      once every child completes, the receiver is notified. */
  lemma {:induction false} RunsAreShort(n: nat, h: seq<Move>)
    requires Legal(n, h)
    ensures |h| <= Progress(Run(n, h).pcs) <= 6 * n
  {
    if h != [] {
      var w, m := Run(n, h[..|h| - 1]), h[|h| - 1];
      RunsAreShort(n, h[..|h| - 1]);
      StepAdvances(w, m);
    }
  }

  lemma {:induction false} StepAdvances(w: World, m: Move)
    requires Inv(w) && Enabled(w, m)
    ensures Progress(Step(w, m).pcs) > Progress(w.pcs)
  {
    RankRises(w, m);
    ProgressUpdate(w.pcs, Mover(w, m), NextPc(w, m));
  }

  lemma {:induction false} NeverStuck(n: nat, h: seq<Move>) returns (m: Move)
    requires Legal(n, h) && !AllLeft(Run(n, h))
    ensures Enabled(Run(n, h), m)
  {
    var w := Run(n, h);
    var i :| 0 <= i < |w.pcs| && !w.pcs[i].Left?;
    assert ChildOk(w, i);
    m := if w.pcs[i].Idle? then StartNext else if w.pcs[i].Active? then Complete(i, Stopped) else Advance(i);
  }

  // ---- the object ----

  /** `moves` lead from `w` to `w'`. */
  ghost predicate Leads(w: World, moves: seq<Move>, w': World)
    decreases |moves|
  {
    if moves == [] then w == w'
    else Enabled(w, moves[0]) && Leads(Step(w, moves[0]), moves[1..], w')
  }

  lemma {:induction false} LeadsOn(w: World, moves: seq<Move>, w': World, m: Move)
    requires Leads(w, moves, w') && Enabled(w', m)
    ensures Leads(w, moves + [m], Step(w', m))
    decreases |moves|
  {
    if moves == [] {
      assert ([] + [m])[1..] == [];
    } else {
      assert (moves + [m])[0] == moves[0] && (moves + [m])[1..] == moves[1..] + [m];
      LeadsOn(Step(w, moves[0]), moves[1..], w', m);
    }
  }

  lemma {:induction false} LeadsAlong(w: World, moves: seq<Move>, w': World, more: seq<Move>, w'': World)
    requires Leads(w, moves, w') && Leads(w', more, w'')
    ensures Leads(w, moves + more, w'')
    decreases |more|
  {
    if more == [] {
      assert moves + more == moves;
    } else {
      LeadsOn(w, moves, w', more[0]);
      LeadsAlong(w, moves + [more[0]], Step(w', more[0]), more[1..], w'');
      assert moves + [more[0]] + more[1..] == moves + more;
    }
  }

  lemma {:induction false} LeadsOnce(w: World, m: Move)
    requires Enabled(w, m)
    ensures Leads(w, [m], Step(w, m))
  {
    assert [m][1..] == [];
  }

  /** The moves a signal of child `i` takes from its completion to the end. */
  predicate MovesOf(moves: seq<Move>, i: nat, s: Signal) {
    moves != [] && moves[0] == Complete(i, s) && forall k :: 0 < k < |moves| ==> moves[k] == Advance(i)
  }

  /** The state of the race. Where each child is, who won and with what is not stored. */
  class State {
    const total: nat
    var doneCount: nat
    var readyCount: nat
    var stops: nat
    var error: Option<int>
    var value: Option<int>
    var delivered: seq<Signal>
    ghost var pcs: seq<Pc>
    ghost var started: nat
    ghost var winner: Option<nat>
    ghost var verdict: Signal

    ghost function Model(): World
      reads this
    {
      World(pcs, started, doneCount, readyCount, stops, error, value, delivered, winner, verdict)
    }

    constructor (n: nat)
      ensures total == n && Model() == Init(n)
    {
      total := n;
      doneCount, readyCount, stops := 0, 0, 0;
      error, value, delivered := None, None, [];
      pcs := seq(n, _ => Idle);
      started, winner, verdict := 0, None, Stopped;
    }

    // the accesses other children can come between

    ghost method StartNextChild()
      requires Enabled(Model(), StartNext)
      modifies this
      ensures Model() == Step(old(Model()), StartNext)
    {
      pcs := pcs[started := Active];
      started := started + 1;
    }

    /** `done_count++`; true for the first child. */
    method CountDone(i: nat, s: Signal) returns (first: bool)
      requires Enabled(Model(), Complete(i, s))
      modifies this
      ensures Model() == Step(old(Model()), Complete(i, s)) && first == (old(doneCount) == 0)
    {
      first := doneCount == 0;
      doneCount := doneCount + 1;
      pcs := pcs[i := if first then Won(s) else Leaving];
      if first {
        winner, verdict := Some(i), s;
      }
    }

    method RequestStop(i: nat)
      requires Enabled(Model(), Advance(i)) && pcs[i].Won?
      modifies this
      ensures Model() == Step(old(Model()), Advance(i))
    {
      stops := stops + 1;
      pcs := pcs[i := if pcs[i].signal.Stopped? then Leaving else Writing(pcs[i].signal)];
    }

    method Store(i: nat, s: Signal)
      requires Enabled(Model(), Advance(i)) && pcs[i] == Writing(s)
      modifies this
      ensures Model() == Step(old(Model()), Advance(i))
    {
      match s {
        case Error(e) => error := Some(e);
        case Value(v) => value := Some(v);
        case Stopped =>
      }
      pcs := pcs[i := Leaving];
    }

    /** `++ready_count`; true for the last child. */
    method CountReady(i: nat) returns (last: bool)
      requires Enabled(Model(), Advance(i)) && pcs[i].Leaving? && total == |pcs|
      modifies this
      ensures Model() == Step(old(Model()), Advance(i)) && last == pcs[i].Notifying?
    {
      readyCount := readyCount + 1;
      last := readyCount == total;
      pcs := pcs[i := if last then Notifying else Left];
    }

    method NotifyDone(i: nat)
      requires Enabled(Model(), Advance(i)) && pcs[i].Notifying?
      modifies this
      ensures Model() == Step(old(Model()), Advance(i))
    {
      if error.Some? {
        delivered := delivered + [Error(error.value)];
      } else if value.Some? {
        delivered := delivered + [Value(value.value)];
      } else {
        delivered := delivered + [Stopped];
      }
      pcs := pcs[i := Left];
    }

    // the functions of the source, when nobody comes between

    /** `complete`: true for the first child. */
    method CompleteChild(i: nat, s: Signal) returns (first: bool, ghost moves: seq<Move>)
      requires Enabled(Model(), Complete(i, s))
      modifies this
      ensures Leads(old(Model()), moves, Model()) && MovesOf(moves, i, s)
      ensures first == (old(doneCount) == 0) && |pcs| == old(|pcs|)
      ensures pcs[i] == if first && !s.Stopped? then Writing(s) else Leaving
    {
      ghost var w := Model();
      first := CountDone(i, s);
      LeadsOnce(w, Complete(i, s));
      moves := [Complete(i, s)];
      if first {
        LeadsOn(w, moves, Model(), Advance(i));
        moves := moves + [Advance(i)];
        RequestStop(i);
      }
    }

    /** `ready` */
    method Ready(i: nat) returns (ghost moves: seq<Move>)
      requires Enabled(Model(), Advance(i)) && pcs[i].Leaving? && total == |pcs|
      modifies this
      ensures Leads(old(Model()), moves, Model())
      ensures forall k :: 0 <= k < |moves| ==> moves[k] == Advance(i)
      ensures |pcs| == old(|pcs|) && pcs[i].Left?
    {
      ghost var w := Model();
      var last := CountReady(i);
      LeadsOnce(w, Advance(i));
      moves := [Advance(i)];
      if last {
        LeadsOn(w, moves, Model(), Advance(i));
        moves := moves + [Advance(i)];
        NotifyDone(i);
      }
    }

    /** `set_value`, `set_error` and `set_stopped` of the receiver of child `i`: `complete`,
        then the result if it was the first child, then `ready`. */
    method Settle(i: nat, s: Signal) returns (ghost moves: seq<Move>)
      requires Enabled(Model(), Complete(i, s)) && total == |pcs|
      modifies this
      ensures Leads(old(Model()), moves, Model()) && MovesOf(moves, i, s)
      ensures |pcs| == old(|pcs|) && pcs[i].Left?
    {
      ghost var w := Model();
      var first: bool;
      first, moves := CompleteChild(i, s);
      if first && !s.Stopped? {
        LeadsOn(w, moves, Model(), Advance(i));
        moves := moves + [Advance(i)];
        Store(i, s);
      }
      ghost var now := Model();
      ghost var rest := Ready(i);
      LeadsAlong(w, moves, now, rest, Model());
      moves := moves + rest;
    }
  }
}
