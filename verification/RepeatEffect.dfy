/** `repeat_effect_until`: start the upstream; whenever what runs completes, ask the predicate, and
    either complete or start the body anew. What runs may complete inside its own start or later. */
module RepeatEffect {
  import H = Handshake

  datatype Phase = Idle | Upstream | Body | Over

  datatype World = World(
    phase: Phase,
    hasBody: bool,          // `_body_state` holds an operation state
    bodies: nat,            // history: bodies started
    asked: seq<bool>,       // history: what the predicate returned
    signals: seq<H.Signal>)

  const INIT := World(Idle, false, 0, [], [])

  datatype Event =
    | Start
    | Ends(outcome: H.Outcome, verdict: bool)  // what runs ends; the predicate's answer if it is asked

  predicate Enabled(w: World, e: Event) {
    match e
    case Start => w.phase.Idle?
    case Ends(_, _) => w.phase.Upstream? || w.phase.Body?
  }

  /** `run_next`, up to the start of the body. */
  function RunNext(w: World, verdict: bool): World {
    var asked := w.(hasBody := false, asked := w.asked + [verdict]);
    if verdict then asked.(phase := Over, signals := w.signals + [H.Value])
    else asked.(phase := Body, hasBody := true, bodies := w.bodies + 1)
  }

  function Step(w: World, e: Event): World {
    match e
    case Start => w.(phase := Upstream)
    case Ends(o, verdict) =>
      if o.Completed? then RunNext(w, verdict)
      else w.(phase := Over, signals := w.signals + [H.SignalOf(o)])
  }

  function Run(es: seq<Event>): World {
    if es == [] then INIT else Step(Run(es[..|es| - 1]), es[|es| - 1])
  }

  predicate Legal(es: seq<Event>) {
    es == [] || (Legal(es[..|es| - 1]) && Enabled(Run(es[..|es| - 1]), es[|es| - 1]))
  }

  // ---- the loop it stands for ----

  /** After this event the loop goes round once more. */
  predicate GoesOn(e: Event) {
    e.Ends? && e.outcome.Completed? && !e.verdict
  }

  /** `upstream; while (!predicate()) body;` seen from outside: a start, then ends of which all but
      the last make the loop go round. */
  predicate WhileLoop(es: seq<Event>) {
    && (forall i :: 0 <= i < |es| ==> (es[i].Start? <==> i == 0))
    && (forall i :: 0 < i < |es| - 1 ==> GoesOn(es[i]))
  }

  /** The loop has come to its end. */
  predicate Ended(es: seq<Event>) {
    es != [] && es[|es| - 1].Ends? && !GoesOn(es[|es| - 1])
  }

  /** What the loop as a whole amounts to: the value if the predicate ended it, otherwise the first
      error or stop. */
  function Result(es: seq<Event>): H.Signal
    requires Ended(es)
  {
    H.SignalOf(es[|es| - 1].outcome)
  }

  function Falses(asked: seq<bool>): nat {
    if asked == [] then 0 else Falses(asked[..|asked| - 1]) + if asked[|asked| - 1] then 0 else 1
  }

  lemma {:induction false} FalsesStep(asked: seq<bool>, b: bool)
    ensures Falses(asked + [b]) == Falses(asked) + if b then 0 else 1
  {
    assert (asked + [b])[..|asked + [b]| - 1] == asked;
  }

  /** What is to be seen of an execution of the loop: one body was started per round, each for one
      `false` of the predicate; no signal was sent before the end, then one, the loop's result; and
      the body's state is gone if the predicate ended the loop. */
  predicate Shows(w: World, es: seq<Event>) {
    && w.phase == (if es == [] then Idle else if Ended(es) then Over else if |es| == 1 then Upstream else Body)
    && w.signals == (if Ended(es) then [Result(es)] else [])
    && w.bodies == Falses(w.asked)
    && |es| == w.bodies + (if Ended(es) then 2 else if es == [] then 0 else 1)
    && (w.signals == [H.Value] <==> w.asked != [] && w.asked[|w.asked| - 1])
    && (w.hasBody <==> w.bodies > 0 && w.signals != [H.Value])
  }

  lemma {:induction false} LoopGrows(pre: seq<Event>, e: Event, es: seq<Event>)
    requires es == pre + [e]
    ensures WhileLoop(es) <==> WhileLoop(pre) && !Ended(pre) && (e.Start? <==> pre == [])
  {
    if WhileLoop(es) {
      forall i | 0 <= i < |pre| ensures (pre[i].Start? <==> i == 0) && (i > 0 ==> GoesOn(pre[i])) {
        assert es[i] == pre[i];
      }
      assert es[|pre|] == e;
    }
    if WhileLoop(pre) && !Ended(pre) && (e.Start? <==> pre == []) {
      forall i | 0 <= i < |es| ensures (es[i].Start? <==> i == 0) && (0 < i < |es| - 1 ==> GoesOn(es[i])) {
        assert i < |pre| ==> es[i] == pre[i];
      }
    }
  }

  lemma {:induction false} StepShows(w: World, e: Event, pre: seq<Event>, es: seq<Event>)
    requires es == pre + [e] && Shows(w, pre) && Enabled(w, e) && (e.Start? <==> pre == [])
    ensures Shows(Step(w, e), es)
  {
    if e.Ends? {
      FalsesStep(w.asked, e.verdict);
    }
  }

  /** The runs are exactly the executions of the loop, and show what those show. */
  lemma {:induction false} RunsAreWhileLoops(es: seq<Event>)
    ensures Legal(es) <==> WhileLoop(es)
    ensures Legal(es) ==> Shows(Run(es), es)
  {
    if es != [] {
      var pre, e := es[..|es| - 1], es[|es| - 1];
      RunsAreWhileLoops(pre);
      LoopGrows(pre, e, es);
      if Legal(es) {
        StepShows(Run(pre), e, pre, es);
      }
    }
  }

  // ---- the object ----

  /** How something that is started behaves. */
  datatype Child = Inline(outcome: H.Outcome) | Later

  /** One call of the predicate and, if it returns false, the body that follows. */
  datatype Turn = Turn(verdict: bool, body: Child)

  /** The events inside one call of `run_next`, given what the predicate and the bodies answer. The
      bodies may complete inside their own start without end: then every finite list of answers
      gives the beginning of what happens. */
  function EventsOf(turns: seq<Turn>): seq<Event> {
    if turns == [] then [] else
    var t := turns[0];
    [Ends(H.Completed, t.verdict)] +
    if t.verdict || t.body.Later? then []
    else if t.body.outcome.Completed? then EventsOf(turns[1..])
    else [Ends(t.body.outcome, false)]
  }

  predicate Takes(w: World, es: seq<Event>, w': World)
    decreases |es|
  {
    if es == [] then w == w' else Enabled(w, es[0]) && Takes(Step(w, es[0]), es[1..], w')
  }

  lemma {:induction false} TakesOne(w: World, e: Event, w': World)
    requires Takes(w, [e], w')
    ensures w' == Step(w, e)
  {
    assert [e][1..] == [];
  }

  lemma {:induction false} TakesFirst(w: World, e: Event, es: seq<Event>, w': World)
    requires Enabled(w, e) && Takes(Step(w, e), es, w')
    ensures Takes(w, [e] + es, w')
  {
    assert ([e] + es)[1..] == es;
  }

  /** What the nested rounds come to, said of the answers alone. The first `n` rounds complete inside
      their own start. Then the predicate ends the loop, or a body fails or is stopped inside its start,
      which is forwarded, or one goes on running. */
  lemma {:induction false} NestedRounds(w: World, turns: seq<Turn>, n: nat, w': World)
    requires w.phase.Upstream? || w.phase.Body?
    requires n <= |turns| && forall i :: 0 <= i < n ==> !turns[i].verdict && turns[i].body == Inline(H.Completed)
    requires n < |turns| ==> turns[n].verdict || turns[n].body != Inline(H.Completed)
    requires Takes(w, EventsOf(turns), w')
    ensures if n == |turns| then w'.bodies == w.bodies + n && w'.signals == w.signals
            else if turns[n].verdict then
              w'.bodies == w.bodies + n && w'.phase.Over? && w'.signals == w.signals + [H.Value]
            else
              && w'.bodies == w.bodies + n + 1
              && match turns[n].body
                 case Later => w'.phase.Body? && w'.signals == w.signals
                 case Inline(Failed(code)) => w'.phase.Over? && w'.signals == w.signals + [H.Error(code)]
                 case Inline(_) => w'.phase.Over? && w'.signals == w.signals + [H.Stopped]
    decreases n
  {
    if turns != [] {
      var e := Ends(H.Completed, turns[0].verdict);
      if n == 0 {
        OneRound(w, turns[0], EventsOf(turns), w');
      } else {
        assert EventsOf(turns)[1..] == EventsOf(turns[1..]);
        NestedRounds(Step(w, e), turns[1..], n - 1, w');
      }
    }
  }

  lemma {:induction false} OneRound(w: World, t: Turn, es: seq<Event>, w': World)
    requires t.verdict || t.body != Inline(H.Completed)
    requires es == [Ends(H.Completed, t.verdict)] +
                   if t.verdict || t.body.Later? then [] else [Ends(t.body.outcome, false)]
    requires Takes(w, es, w')
    ensures var one := Step(w, Ends(H.Completed, t.verdict));
            w' == if t.verdict || t.body.Later? then one else Step(one, Ends(t.body.outcome, false))
  {
    if t.verdict || t.body.Later? {
      TakesOne(w, es[0], w');
    } else {
      assert es[1..] == [Ends(t.body.outcome, false)];
      TakesOne(Step(w, es[0]), es[1], w');
    }
  }

  class State {
    var phase: Phase
    var hasBody: bool
    ghost var bodies: nat
    ghost var asked: seq<bool>
    var signals: seq<H.Signal>

    ghost function Model(): World
      reads this
    {
      World(phase, hasBody, bodies, asked, signals)
    }

    constructor ()
      ensures Model() == INIT
    {
      phase, hasBody, bodies, asked, signals := Idle, false, 0, [], [];
    }

    /** `set_error` and `set_stopped` of the inner receiver. */
    method Forward(o: H.Outcome)
      requires !o.Completed?
      modifies this
      ensures Model() == Step(old(Model()), Ends(o, false))
    {
      phase := Over;
      signals := signals + [H.SignalOf(o)];
    }

    /** `run_next`: called when what runs has completed, possibly from inside its own start. */
    method RunNext(turns: seq<Turn>)
      requires phase.Upstream? || phase.Body?
      modifies this
      ensures Takes(old(Model()), EventsOf(turns), Model())
      decreases |turns|
    {
      if turns == [] {
        return;
      }
      var t := turns[0];
      ghost var was, e := Model(), Ends(H.Completed, t.verdict);
      hasBody, asked := false, asked + [t.verdict];
      if t.verdict {
        phase, signals := Over, signals + [H.Value];
        TakesFirst(was, e, [], Model());
        return;
      }
      phase, hasBody, bodies := Body, true, bodies + 1;
      ghost var begun := Model();
      if t.body.Later? {
        TakesFirst(was, e, [], Model());
      } else if t.body.outcome.Completed? {
        RunNext(turns[1..]);
        TakesFirst(was, e, EventsOf(turns[1..]), Model());
      } else {
        Forward(t.body.outcome);
        TakesFirst(begun, Ends(t.body.outcome, false), [], Model());
        TakesFirst(was, e, [Ends(t.body.outcome, false)], Model());
      }
    }

    /** What runs ends after its start has returned. */
    method ChildEnds(o: H.Outcome, turns: seq<Turn>)
      requires phase.Upstream? || phase.Body?
      modifies this
      ensures Takes(old(Model()), if o.Completed? then EventsOf(turns) else [Ends(o, false)], Model())
    {
      if o.Completed? {
        RunNext(turns);
      } else {
        ghost var was := Model();
        Forward(o);
        TakesFirst(was, Ends(o, false), [], Model());
      }
    }

    method StartUpstream(upstream: Child, turns: seq<Turn>)
      requires phase.Idle?
      modifies this
      ensures var rest := match upstream
                case Later => []
                case Inline(o) => if o.Completed? then EventsOf(turns) else [Ends(o, false)];
              Takes(old(Model()), [Start] + rest, Model())
    {
      ghost var was := Model();
      phase := Upstream;
      match upstream {
        case Later =>
          TakesFirst(was, Start, [], Model());
        case Inline(o) =>
          ChildEnds(o, turns);
          TakesFirst(was, Start, if o.Completed? then EventsOf(turns) else [Ends(o, false)], Model());
      }
    }
  }
}
