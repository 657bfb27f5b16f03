/** `pg::limit`: an asynchronous mutex. The operations that wait form a stack; an operation that
    ends hands the object on, possibly from inside its own start. */
module Limit {

  datatype World = World(
    inUse: bool,
    waiters: seq<nat>,     // from `head` on
    ran: seq<nat>,         // history: inner operations started
    signalled: seq<nat>,   // history: inner operations that ended
    delivered: seq<nat>)   // history: receivers that were called

  const INIT := World(false, [], [], [], [])

  datatype Action =
    | Arrive(op: nat)       // `state::start`
    | InnerEnds(op: nat)    // any signal of the inner operation, up to the end of `complete`
    | Deliver(op: nat)      // the call of the receiver that follows

  predicate Enabled(w: World, a: Action) {
    match a
    case Arrive(op) => op !in w.ran && op !in w.waiters
    case InnerEnds(op) => op in w.ran && op !in w.signalled
    case Deliver(op) => op in w.signalled && op !in w.delivered
  }

  /** `state::run` */
  function Started(w: World, op: nat): World {
    w.(ran := w.ran + [op])
  }

  function Step(w: World, a: Action): World {
    match a
    case Arrive(op) =>
      if w.inUse then w.(waiters := [op] + w.waiters) else Started(w.(inUse := true), op)
    case InnerEnds(op) =>
      var w' := w.(signalled := w.signalled + [op]);
      if w.waiters != [] then Started(w'.(waiters := w.waiters[1..]), w.waiters[0])
      else w'.(inUse := false)
    case Deliver(op) => w.(delivered := w.delivered + [op])
  }

  ghost predicate Distinct(s: seq<nat>) {
    forall i, j :: 0 <= i < j < |s| ==> s[i] != s[j]
  }

  /** One inner operation at most is started and has not ended: the last one started. The object is
      in use exactly while there is one, and somebody waits only while it is in use. */
  ghost predicate Inv(w: World) {
    && |w.ran| == |w.signalled| + (if w.inUse then 1 else 0)
    && w.signalled <= w.ran
    && (w.waiters != [] ==> w.inUse)
    && Distinct(w.ran + w.waiters)
    && Distinct(w.delivered) && forall op :: op in w.delivered ==> op in w.signalled
  }

  lemma {:induction false} OnlyLastRuns(w: World, op: nat)
    requires Inv(w) && op in w.ran && op !in w.signalled
    ensures w.inUse && op == w.ran[|w.ran| - 1]
    ensures w.ran == w.signalled + [op]
  {
    var i :| 0 <= i < |w.ran| && w.ran[i] == op;
    assert forall k :: 0 <= k < |w.signalled| ==> w.ran[k] == w.signalled[k];
  }

  lemma {:induction false} StepKeepsInv(w: World, a: Action)
    requires Inv(w) && Enabled(w, a)
    ensures Inv(Step(w, a))
  {
    var w' := Step(w, a);
    match a
    case Arrive(op) =>
      assert forall i :: 0 <= i < |w.ran| ==> (w.ran + w.waiters)[i] == w.ran[i];
      assert forall i :: 0 <= i < |w.waiters| ==> (w.ran + w.waiters)[|w.ran| + i] == w.waiters[i];
      if w.inUse {
        assert w'.ran + w'.waiters == w.ran + [op] + w.waiters;
        Inserted(w.ran, w.waiters, op);
      }
    case InnerEnds(op) =>
      OnlyLastRuns(w, op);
      if w.waiters != [] {
        assert w'.ran + w'.waiters == w.ran + w.waiters;
      }
    case Deliver(op) =>
  }

  lemma {:induction false} Inserted(a: seq<nat>, b: seq<nat>, x: nat)
    requires Distinct(a + b) && x !in a && x !in b
    ensures Distinct(a + [x] + b)
  {
    var s, t := a + b, a + [x] + b;
    forall i, j | 0 <= i < j < |t| ensures t[i] != t[j] {
      assert t[i] == if i < |a| then s[i] else if i == |a| then x else s[i - 1];
      assert t[j] == if j < |a| then s[j] else if j == |a| then x else s[j - 1];
      assert i != |a| ==> s[if i < |a| then i else i - 1] in s;
      assert j != |a| ==> s[if j < |a| then j else j - 1] in s;
    }
  }

  // ---- runs ----

  ghost predicate Legal(w: World, h: seq<Action>)
    decreases |h|
  {
    h == [] || (Enabled(w, h[0]) && Legal(Step(w, h[0]), h[1..]))
  }

  function Exec(w: World, h: seq<Action>): World
    decreases |h|
  {
    if h == [] then w else Exec(Step(w, h[0]), h[1..])
  }

  function Arrivals(h: seq<Action>): seq<nat> {
    if h == [] then []
    else (if h[0].Arrive? then [h[0].op] else []) + Arrivals(h[1..])
  }

  function Ends(h: seq<Action>): nat {
    if h == [] then 0 else (if h[0].InnerEnds? then 1 else 0) + Ends(h[1..])
  }

  /** In every run every arrival waits or was started, exactly once, and the invariant holds. */
  lemma {:induction false} EveryArrivalOnce(w: World, h: seq<Action>)
    requires Inv(w) && Legal(w, h)
    ensures var w' := Exec(w, h);
            && Inv(w')
            && multiset(w'.ran) + multiset(w'.waiters) ==
               multiset(w.ran) + multiset(w.waiters) + multiset(Arrivals(h))
    decreases |h|
  {
    if h != [] {
      StepKeepsInv(w, h[0]);
      StepConserves(w, h[0]);
      EveryArrivalOnce(Step(w, h[0]), h[1..]);
    }
  }

  lemma {:induction false} StepConserves(w: World, a: Action)
    requires Inv(w) && Enabled(w, a)
    ensures multiset(Step(w, a).ran) + multiset(Step(w, a).waiters) ==
            multiset(w.ran) + multiset(w.waiters) + multiset(if a.Arrive? then [a.op] else [])
  {
    assert w.waiters != [] ==> w.waiters == [w.waiters[0]] + w.waiters[1..];
  }

  /** The inner operations that have yet to end. */
  function Pending(w: World): nat {
    |w.waiters| + if w.inUse then 1 else 0
  }

  /** Ends are never wasted: each one lowers the count of what is pending, each arrival raises it. */
  lemma {:induction false} PendingBalance(w: World, h: seq<Action>)
    requires Inv(w) && Legal(w, h)
    ensures Pending(Exec(w, h)) + Ends(h) == Pending(w) + |Arrivals(h)|
    decreases |h|
  {
    if h != [] {
      StepKeepsInv(w, h[0]);
      if h[0].InnerEnds? {
        OnlyLastRuns(w, h[0].op);
      }
      PendingBalance(Step(w, h[0]), h[1..]);
    }
  }

  /** From the start on: once as many inner operations have ended as states arrived, every state that
      arrived was run exactly once and ended, and the object is free. */
  lemma {:induction false} AllRunOnce(h: seq<Action>)
    requires Legal(INIT, h) && Ends(h) == |Arrivals(h)|
    ensures var w := Exec(INIT, h);
            && !w.inUse && w.waiters == [] && w.signalled == w.ran
            && multiset(w.ran) == multiset(Arrivals(h)) && Distinct(w.ran)
  {
    EveryArrivalOnce(INIT, h);
    PendingBalance(INIT, h);
    var w := Exec(INIT, h);
    assert w.ran + w.waiters == w.ran;
  }

  /** While something is pending, an inner operation is running that can end: nobody waits forever. */
  lemma {:induction false} SomebodyRuns(w: World)
    requires Inv(w) && Pending(w) > 0
    ensures w.ran != [] && Enabled(w, InnerEnds(w.ran[|w.ran| - 1]))
  {
    var all := w.ran + w.waiters;
    assert all[|w.ran| - 1] == w.ran[|w.ran| - 1];
    assert forall i :: 0 <= i < |w.signalled| ==> w.signalled[i] == w.ran[i] == all[i];
  }

  /** The waiter that came last is served first, and the others wait as before. */
  lemma {:induction false} LastWaiterFirst(w: World, op: nat, x: nat)
    requires Inv(w) && w.inUse && Enabled(w, Arrive(op)) && x in w.ran && x !in w.signalled
    ensures var w' := Step(w, Arrive(op));
            && w'.ran == w.ran && Enabled(w', InnerEnds(x))
            && var w'' := Step(w', InnerEnds(x));
               w''.ran == w.ran + [op] && w''.waiters == w.waiters && w''.inUse
  {
    assert ([op] + w.waiters)[1..] == w.waiters;
  }

  // ---- inner operations that end inside their own start ----

  function Reversed(s: seq<nat>): seq<nat> {
    if s == [] then [] else Reversed(s[1..]) + [s[0]]
  }

  /** The waiters from the top that end at once. */
  function Prefix(s: seq<nat>, sync: set<nat>): (k: nat)
    ensures k <= |s|
    ensures forall i :: 0 <= i < k ==> s[i] in sync
    ensures k < |s| ==> s[k] !in sync
  {
    if s == [] || s[0] !in sync then 0 else 1 + Prefix(s[1..], sync)
  }

  /** What the end of `op` leads to when the waiters in `sync` end inside their start: they run one
      inside the other up to the first that does not, or up to the last, and their receivers are
      called from the inside out. */
  function Cascade(w: World, op: nat, sync: set<nat>): World {
    var k := Prefix(w.waiters, sync);
    var all := k == |w.waiters|;
    World(
      !all,
      if all then [] else w.waiters[k + 1..],
      w.ran + (if all then w.waiters else w.waiters[..k + 1]),
      w.signalled + [op] + w.waiters[..k],
      w.delivered + Reversed(w.waiters[..k]) + [op])
  }

  lemma {:induction false} Regroup(a: seq<nat>, b: seq<nat>, c: seq<nat>)
    ensures a + (b + c) == (a + b) + c
  {
  }

  /** The top waiter ends at once: the rest of the cascade is its own. */
  lemma {:induction false} CascadeGoesOn(w: World, op: nat, next: nat, rest: seq<nat>, sync: set<nat>)
    requires w.waiters == [next] + rest && w.inUse && next in sync
    ensures var w' := Started(w.(signalled := w.signalled + [op], waiters := rest), next);
            Cascade(w, op, sync) == Cascade(w', next, sync).(delivered := Cascade(w', next, sync).delivered + [op])
  {
    var k := Prefix(rest, sync);
    assert w.waiters[1..] == rest;
    assert w.waiters[..k + 1] == [next] + rest[..k];
    assert ([next] + rest[..k])[1..] == rest[..k];
    Regroup(w.delivered, Reversed(rest[..k]), [next]);
    Regroup(w.signalled + [op], [next], rest[..k]);
    Regroup(w.ran, [next], rest);
    if k < |rest| {
      assert w.waiters[..k + 2] == [next] + rest[..k + 1];
      Regroup(w.ran, [next], rest[..k + 1]);
    }
  }

  /** The top waiter does not end at once: the cascade stops with it. */
  lemma {:induction false} CascadeStops(w: World, op: nat, next: nat, rest: seq<nat>, sync: set<nat>)
    requires w.waiters == [next] + rest && w.inUse && next !in sync
    ensures var w' := Started(w.(signalled := w.signalled + [op], waiters := rest), next);
            Cascade(w, op, sync) == w'.(delivered := w.delivered + [op])
  {
    assert w.waiters[..1] == [next] && w.waiters[..0] == [];
    assert w.signalled + [op] + [] == w.signalled + [op];
    assert w.delivered + Reversed([]) == w.delivered;
  }

  lemma {:induction false} CascadeNests(w: World, op: nat, sync: set<nat>)
    requires w.waiters != [] && w.inUse
    ensures var next := w.waiters[0];
            var w' := Started(w.(signalled := w.signalled + [op], waiters := w.waiters[1..]), next);
            var inner := if next in sync then Cascade(w', next, sync) else w';
            Cascade(w, op, sync) == inner.(delivered := inner.delivered + [op])
  {
    var next, rest := w.waiters[0], w.waiters[1..];
    if next in sync {
      CascadeGoesOn(w, op, next, rest, sync);
    } else {
      CascadeStops(w, op, next, rest, sync);
    }
  }

  lemma {:induction false} ReversedHas(s: seq<nat>)
    ensures forall x :: x in Reversed(s) <==> x in s
  {
    if s != [] {
      ReversedHas(s[1..]);
    }
  }

  lemma {:induction false} Prepend(a: Action, h: seq<Action>, h': seq<Action>)
    ensures ([a] + h) + h' == [a] + (h + h') && ([a] + (h + h'))[1..] == h + h'
  {
  }

  lemma {:induction false} Concat(w: World, h: seq<Action>, h': seq<Action>)
    requires Legal(w, h) && Legal(Exec(w, h), h')
    ensures Legal(w, h + h') && Exec(w, h + h') == Exec(Exec(w, h), h')
    decreases |h|
  {
    if h == [] {
      assert h + h' == h';
    } else {
      Prepend(h[0], h[1..], h');
      assert h == [h[0]] + h[1..];
      Concat(Step(w, h[0]), h[1..], h');
    }
  }

  lemma {:induction false} ConcatCounts(h: seq<Action>, h': seq<Action>)
    ensures Arrivals(h + h') == Arrivals(h) + Arrivals(h') && Ends(h + h') == Ends(h) + Ends(h')
  {
    if h == [] {
      assert h + h' == h';
    } else {
      Prepend(h[0], h[1..], h');
      assert h == [h[0]] + h[1..];
      ConcatCounts(h[1..], h');
    }
  }

  lemma {:induction false} One(w: World, a: Action)
    requires Enabled(w, a)
    ensures Legal(w, [a]) && Exec(w, [a]) == Step(w, a)
    ensures Arrivals([a]) == (if a.Arrive? then [a.op] else []) && Ends([a]) == if a.InnerEnds? then 1 else 0
  {
    assert [a][1..] == [];
  }

  lemma {:induction false} CascadeDeliversNew(w: World, op: nat, sync: set<nat>)
    requires Inv(w) && op in w.ran && op !in w.signalled
    ensures var c := Cascade(w, op, sync);
            c.delivered == w.delivered + Reversed(w.waiters[..Prefix(w.waiters, sync)]) + [op] &&
            op !in w.delivered + Reversed(w.waiters[..Prefix(w.waiters, sync)])
  {
    ReversedHas(w.waiters[..Prefix(w.waiters, sync)]);
    OnlyLastRuns(w, op);
    assert forall i :: 0 <= i < |w.waiters| ==> w.waiters[i] == (w.ran + w.waiters)[|w.ran| + i];
    assert (w.ran + w.waiters)[|w.ran| - 1] == op;
  }

  lemma {:induction false} NextIsNew(w: World, op: nat)
    requires Inv(w) && op in w.ran && op !in w.signalled && w.waiters != []
    ensures var w' := Step(w, InnerEnds(op)); w.waiters[0] in w'.ran && w.waiters[0] !in w'.signalled
  {
    OnlyLastRuns(w, op);
    var next := w.waiters[0];
    assert (w.ran + w.waiters)[|w.ran|] == next;
    assert forall i :: 0 <= i < |w.ran| ==> (w.ran + w.waiters)[i] == w.ran[i];
  }

  lemma {:induction false} WithoutLast(s: seq<nat>, t: seq<nat>, x: nat)
    requires s + [x] == t + [x]
    ensures s == t
  {
    assert s == (s + [x])[..|s|] && t == (t + [x])[..|t|];
  }

  /** All of a cascade but the call of the outermost receiver, and then that call. */
  lemma {:induction false} DeliverEnds(w: World, op: nat, sync: set<nat>, h: seq<Action>)
    requires Inv(w) && op in w.ran && op !in w.signalled && Legal(w, h)
    requires Exec(w, h).(delivered := Exec(w, h).delivered + [op]) == Cascade(w, op, sync)
    ensures Legal(w, h + [Deliver(op)]) && Exec(w, h + [Deliver(op)]) == Cascade(w, op, sync)
    ensures Arrivals(h + [Deliver(op)]) == Arrivals(h) && Ends(h + [Deliver(op)]) == Ends(h)
  {
    var last := Exec(w, h);
    CascadeDeliversNew(w, op, sync);
    WithoutLast(last.delivered, w.delivered + Reversed(w.waiters[..Prefix(w.waiters, sync)]), op);
    assert op in Cascade(w, op, sync).signalled;
    One(last, Deliver(op));
    Concat(w, h, [Deliver(op)]);
    ConcatCounts(h, [Deliver(op)]);
  }

  /** A cascade is one of the runs of the state machine, so that everything proved of runs holds of
      it too. */
  lemma {:induction false} CascadeIsARun(w: World, op: nat, sync: set<nat>) returns (h: seq<Action>)
    requires Inv(w) && op in w.ran && op !in w.signalled
    ensures Legal(w, h) && Exec(w, h) == Cascade(w, op, sync)
    ensures Arrivals(h) == [] && Ends(h) == 1 + Prefix(w.waiters, sync)
    decreases |w.waiters|
  {
    var w' := Step(w, InnerEnds(op));
    StepKeepsInv(w, InnerEnds(op));
    One(w, InnerEnds(op));
    h := [InnerEnds(op)];
    if w.waiters != [] {
      CascadeNests(w, op, sync);
      if w.waiters[0] in sync {
        NextIsNew(w, op);
        var inner := CascadeIsARun(w', w.waiters[0], sync);
        Concat(w, h, inner);
        ConcatCounts(h, inner);
        h := h + inner;
      }
    }
    DeliverEnds(w, op, sync, h);
    h := h + [Deliver(op)];
  }

  // ---- the object ----

  /** From `w` to `w'`: whatever arrived stays known, and no receiver of an operation that had ended
      before is called. */
  ghost predicate Later(w: World, w': World) {
    && (forall x :: x in w.ran || x in w.waiters ==> x in w'.ran || x in w'.waiters)
    && (forall x :: x in w.signalled ==> x in w'.signalled && (x in w'.delivered <==> x in w.delivered))
  }

  /** `h` leads from `w` to `w'`. */
  ghost predicate Leads(w: World, h: seq<Action>, w': World) {
    Inv(w) && Legal(w, h) && Exec(w, h) == w' && Inv(w')
  }

  lemma {:induction false} Joined(w: World, h: seq<Action>, w': World, h': seq<Action>, w'': World)
    requires Leads(w, h, w') && Leads(w', h', w'')
    ensures Leads(w, h + h', w'')
  {
    Concat(w, h, h');
  }

  lemma {:induction false} LeadsOnce(w: World, a: Action)
    requires Inv(w) && Enabled(w, a)
    ensures Leads(w, [a], Step(w, a))
  {
    One(w, a);
    StepKeepsInv(w, a);
  }

  predicate Arrived(w: World, x: nat) {
    x in w.ran || x in w.waiters
  }

  /** A receiver in `called` starts `x`. */
  ghost predicate StartedBy(starts: map<nat, seq<nat>>, called: seq<nat>, x: nat) {
    exists d :: d in called && d in starts && x in starts[d]
  }

  /** All that the receiver of `d` starts has arrived. */
  ghost predicate Heeded(starts: map<nat, seq<nat>>, d: nat, w: World) {
    d in starts ==> forall x :: x in starts[d] ==> Arrived(w, x)
  }

  /** What went on between `w` and `w'`: only operations in `ends`, and those that end inside their start,
      ended; the receivers of those that ended were called, but for `owed`; what they start arrived, but
      for `due`; and nothing else arrived. */
  ghost predicate Played(w: World, w': World, sync: set<nat>, starts: map<nat, seq<nat>>,
                         ends: set<nat>, owed: set<nat>, due: set<nat>)
  {
    && (forall x :: x in w'.signalled ==> x in w.signalled || x in sync || x in ends)
    && (forall x :: x in w'.signalled ==> x in w.signalled || x in w'.delivered || x in owed)
    && (forall x :: x in w.delivered ==> x in w'.delivered)
    && (forall d :: d in w'.delivered ==> d in w.delivered || d in due || Heeded(starts, d, w'))
    && (forall x :: Arrived(w', x) ==> Arrived(w, x) || StartedBy(starts, w'.delivered, x))
  }

  /** What is running does not end by itself. */
  predicate Settled(w: World, sync: set<nat>) {
    w.inUse ==> w.ran != [] && w.ran[|w.ran| - 1] !in sync
  }

  lemma {:induction false} MoreCalled(starts: map<nat, seq<nat>>, called: seq<nat>, called': seq<nat>, x: nat)
    requires StartedBy(starts, called, x) && forall d :: d in called ==> d in called'
    ensures StartedBy(starts, called', x)
  {
    var d :| d in called && d in starts && x in starts[d];
    assert d in called';
  }

  lemma {:induction false} PlayedOn(w: World, w': World, w'': World, sync: set<nat>, starts: map<nat, seq<nat>>,
                                    ends: set<nat>, owed: set<nat>, due: set<nat>)
    requires Played(w, w', sync, starts, ends, owed, due) && Played(w', w'', sync, starts, {}, {}, {})
    requires Later(w', w'')
    ensures Played(w, w'', sync, starts, ends, owed, due)
  {
    forall d | d in w''.delivered ensures d in w.delivered || d in due || Heeded(starts, d, w'') {
      if d in w'.delivered && Heeded(starts, d, w') {
        assert forall x :: Arrived(w', x) ==> Arrived(w'', x);
      }
    }
    forall x | Arrived(w'', x) ensures Arrived(w, x) || StartedBy(starts, w''.delivered, x) {
      if Arrived(w', x) && !Arrived(w, x) {
        MoreCalled(starts, w'.delivered, w''.delivered, x);
      }
    }
  }

  lemma {:induction false} NothingPlayed(w: World, sync: set<nat>, starts: map<nat, seq<nat>>)
    ensures Played(w, w, sync, starts, {}, {}, {})
  {
  }

  /** `h` leads from `w` to `w'`, and everything that had to happen by itself has happened. */
  ghost predicate Nests(w: World, h: seq<Action>, w': World, sync: set<nat>, starts: map<nat, seq<nat>>) {
    && Leads(w, h, w') && Later(w, w')
    && Played(w, w', sync, starts, {}, {}, {}) && Settled(w', sync)
  }

  lemma {:induction false} NestsOn(w: World, h: seq<Action>, w': World, h': seq<Action>, w'': World,
                                   sync: set<nat>, starts: map<nat, seq<nat>>)
    requires Nests(w, h, w', sync, starts) && Nests(w', h', w'', sync, starts)
    ensures Nests(w, h + h', w'', sync, starts)
    ensures forall x :: Arrived(w', x) ==> Arrived(w'', x)
  {
    Joined(w, h, w', h', w'');
    PlayedOn(w, w', w'', sync, starts, {}, {}, {});
  }

  lemma {:induction false} NothingNests(w: World, sync: set<nat>, starts: map<nat, seq<nat>>)
    requires Inv(w) && Settled(w, sync)
    ensures Nests(w, [], w, sync, starts)
  {
    NothingPlayed(w, sync, starts);
  }

  /** An operation ends, and the next one, if there is one, is started. */
  lemma {:induction false} EndPlayed(w: World, op: nat, sync: set<nat>, starts: map<nat, seq<nat>>)
    requires Inv(w) && Enabled(w, InnerEnds(op))
    ensures Played(w, Step(w, InnerEnds(op)), sync, starts, {op}, {op}, {})
  {
    assert w.waiters != [] ==> w.waiters == [w.waiters[0]] + w.waiters[1..];
  }

  /** Its receiver is called. */
  lemma {:induction false} CallPlayed(w: World, w': World, op: nat, sync: set<nat>, starts: map<nat, seq<nat>>)
    requires Played(w, w', sync, starts, {op}, {op}, {})
    ensures Played(w, Step(w', Deliver(op)), sync, starts, {op}, {}, {op})
  {
    var w'' := Step(w', Deliver(op));
    forall d | d in w''.delivered ensures d in w.delivered || d == op || Heeded(starts, d, w'') {
      assert d != op ==> d in w'.delivered;
      assert forall x :: Arrived(w', x) ==> Arrived(w'', x);
    }
    forall x | Arrived(w'', x) ensures Arrived(w, x) || StartedBy(starts, w''.delivered, x) {
      assert Arrived(w', x);
      if !Arrived(w, x) {
        MoreCalled(starts, w'.delivered, w''.delivered, x);
      }
    }
  }

  /** An arrival that the receiver of `op` makes. */
  lemma {:induction false} ArrivalPlayed(w: World, op: nat, x: nat, sync: set<nat>, starts: map<nat, seq<nat>>)
    requires op in w.delivered && op in starts && x in starts[op] && Enabled(w, Arrive(x))
    ensures Played(w, Step(w, Arrive(x)), sync, starts, {}, {}, {}) && Later(w, Step(w, Arrive(x)))
  {
    assert StartedBy(starts, w.delivered, x);
  }

  lemma {:induction false} LastIsPending(w: World)
    requires Inv(w) && w.inUse
    ensures w.ran != [] && w.ran[|w.ran| - 1] !in w.signalled
  {
    SomebodyRuns(w);
  }

  /** What one end, and the start that may follow it, comes to. */
  lemma {:induction false} HandedOver(w: World, op: nat)
    requires Inv(w) && op in w.ran && op !in w.signalled
    ensures Later(w, Step(w, InnerEnds(op))) && op !in Step(w, InnerEnds(op)).delivered
    ensures op in Step(w, InnerEnds(op)).signalled && w.inUse
  {
    OnlyLastRuns(w, op);
    assert w.waiters != [] ==> w.waiters == [w.waiters[0]] + w.waiters[1..];
  }

  class Mutex {
    const sync: set<nat>              // the operations that end inside their start
    const starts: map<nat, seq<nat>>  // what a receiver starts when it is called
    var inUse: bool
    var waiters: seq<nat>
    var ran: seq<nat>
    var signalled: seq<nat>
    var delivered: seq<nat>

    ghost function Model(): World
      reads this
    {
      World(inUse, waiters, ran, signalled, delivered)
    }

    /** The operations receivers have yet to start. */
    ghost function Unborn(): set<nat>
      reads this
    {
      set op, k | k in starts && op in starts[k] && op !in ran && op !in waiters :: op
    }

    constructor (sync: set<nat>, starts: map<nat, seq<nat>>)
      ensures Model() == INIT && this.sync == sync && this.starts == starts
    {
      this.sync, this.starts := sync, starts;
      inUse, waiters, ran, signalled, delivered := false, [], [], [], [];
    }

    /** `state::start`. What it sets off, inside its own call, is a run of the state machine. */
    method Start(op: nat) returns (ghost h: seq<Action>)
      requires Inv(Model()) && Enabled(Model(), Arrive(op)) && Settled(Model(), sync)
      modifies this
      ensures Leads(old(Model()), [Arrive(op)] + h, Model()) && Later(old(Model()), Model())
      ensures Played(Step(old(Model()), Arrive(op)), Model(), sync, starts, {}, {}, {}) && Settled(Model(), sync)
      ensures Later(Step(old(Model()), Arrive(op)), Model())
      ensures old(inUse) || op !in sync ==> Model() == Step(old(Model()), Arrive(op))
      ensures !old(inUse) && op in sync && starts == map[] ==>
                Model() == Cascade(Step(old(Model()), Arrive(op)), op, sync)
      decreases |Unborn() - {op}|, |waiters|, 4
    {
      ghost var w := Model();
      LeadsOnce(w, Arrive(op));
      NothingPlayed(Step(w, Arrive(op)), sync, starts);
      h := [];
      var busy := inUse;
      inUse := true;
      if busy {
        waiters := [op] + waiters;
        assert [Arrive(op)] + h == [Arrive(op)];
      } else {
        h := Run(op);
        Joined(w, [Arrive(op)], Step(w, Arrive(op)), h, Model());
      }
    }

    /** `state::run`. The calls below it nest at most once for each operation that waits, and once for
        each that a receiver starts. */
    method Run(op: nat) returns (ghost h: seq<Action>)
      requires Inv(Started(Model(), op)) && inUse
      modifies this
      ensures Leads(Started(old(Model()), op), h, Model()) && Later(Started(old(Model()), op), Model())
      ensures Played(Started(old(Model()), op), Model(), sync, starts, {}, {}, {}) && Settled(Model(), sync)
      ensures if op in sync then op in signalled else Model() == Started(old(Model()), op)
      ensures op in sync && starts == map[] ==> Model() == Cascade(Started(old(Model()), op), op, sync)
      decreases |Unborn() - {op}|, |waiters|, 3
    {
      ghost var unborn := Unborn() - {op};
      ran := ran + [op];
      assert Unborn() == unborn;
      NothingPlayed(Model(), sync, starts);
      h := [];
      if op in sync {
        LastIsPending(Model());
        h := Signal(op);
      }
    }

    /** `rcvr`: any signal of the inner operation. The receiver is called when `complete` has returned,
        and starts what it likes. */
    method Signal(op: nat) returns (ghost h: seq<Action>)
      requires Inv(Model()) && op in ran && op !in signalled
      modifies this
      ensures Leads(old(Model()), h, Model()) && Later(old(Model()), Model())
      ensures Played(old(Model()), Model(), sync, starts, {op}, {}, {}) && Settled(Model(), sync)
      ensures op in signalled && op in delivered
      ensures op in starts ==> forall x :: x in starts[op] ==> x in ran || x in waiters
      ensures starts == map[] ==> Model() == Cascade(old(Model()), op, sync)
      decreases |Unborn()|, |waiters|, 2
    {
      ghost var w := Model();
      h := Complete(op);
      ghost var done := Model();
      LeadsOnce(done, Deliver(op));
      Joined(w, h, done, [Deliver(op)], Step(done, Deliver(op)));
      CallPlayed(w, done, op, sync, starts);
      h := h + [Deliver(op)];
      delivered := delivered + [op];
      if op in starts {
        ghost var called := Model();
        assert Unborn() <= old(Unborn());
        SmallerOrSame(Unborn(), old(Unborn()));
        ghost var more := StartAll(op);
        Joined(w, h, called, more, Model());
        PlayedOn(w, called, Model(), sync, starts, {op}, {}, {op});
        h := h + more;
      }
    }

    /** What the receiver of `op` starts; what was started before is not started again. */
    method StartAll(op: nat) returns (ghost h: seq<Action>)
      requires Inv(Model()) && op in starts && op in delivered && Settled(Model(), sync)
      modifies this
      ensures Nests(old(Model()), h, Model(), sync, starts) && Heeded(starts, op, Model())
      decreases |Unborn()|, 0, 1
    {
      ghost var w := Model();
      NothingNests(w, sync, starts);
      h := [];
      var next := starts[op];
      var k := 0;
      while k < |next|
        invariant k <= |next| && op in delivered && Unborn() <= old(Unborn())
        invariant Nests(w, h, Model(), sync, starts)
        invariant forall j :: 0 <= j < k ==> Arrived(Model(), next[j])
      {
        if next[k] !in ran && next[k] !in waiters {
          ghost var now := Model();
          ghost var more := StartOne(op, next[k], old(Unborn()));
          NestsOn(w, h, now, more, Model(), sync, starts);
          h := h + more;
        }
        k := k + 1;
      }
    }

    /** One of the operations the receiver of `op` starts. */
    method StartOne(op: nat, x: nat, ghost unborn: set<nat>) returns (ghost h: seq<Action>)
      requires Inv(Model()) && op in starts && op in delivered && x in starts[op] && !Arrived(Model(), x)
      requires Unborn() <= unborn && Settled(Model(), sync)
      modifies this
      ensures Nests(old(Model()), h, Model(), sync, starts) && Arrived(Model(), x)
      ensures op in delivered && Unborn() <= old(Unborn())
      decreases |unborn|, 0, 0
    {
      ghost var now := Model();
      assert x in Unborn();
      Smaller(Unborn(), x, unborn);
      ArrivalPlayed(now, op, x, sync, starts);
      ghost var after := Step(now, Arrive(x));
      h := Start(x);
      PlayedOn(now, after, Model(), sync, starts, {}, {}, {});
      assert Arrived(after, x);
      h := [Arrive(x)] + h;
    }

    static lemma {:induction false} SmallerOrSame(s: set<nat>, t: set<nat>)
      requires s <= t
      ensures |s| <= |t|
    {
      assert t == s + (t - s);
    }

    static lemma {:induction false} Smaller(s: set<nat>, x: nat, t: set<nat>)
      requires x in s && s <= t
      ensures |s - {x}| < |t|
    {
      assert t == (s - {x}) + (t - (s - {x}));
      assert x in t - (s - {x});
    }

    /** `state::complete` */
    method Complete(op: nat) returns (ghost h: seq<Action>)
      requires Inv(Model()) && op in ran && op !in signalled
      modifies this
      ensures Leads(old(Model()), h, Model()) && Later(old(Model()), Model())
      ensures Played(old(Model()), Model(), sync, starts, {op}, {op}, {}) && Settled(Model(), sync)
      ensures op in signalled && op !in delivered
      ensures starts == map[] ==> Model().(delivered := delivered + [op]) == Cascade(old(Model()), op, sync)
      decreases |Unborn()|, |waiters|, 0
    {
      ghost var w, unborn := Model(), Unborn();
      HandedOver(w, op);
      EndPlayed(w, op, sync, starts);
      LeadsOnce(w, InnerEnds(op));
      h := [InnerEnds(op)];
      signalled := signalled + [op];
      if waiters != [] {
        var next := waiters[0];
        assert waiters == [next] + waiters[1..];
        waiters := waiters[1..];
        assert Unborn() - {next} == unborn - {next};
        assert next !in unborn;
        CascadeNests(w, op, sync);
        ghost var more := Run(next);
        Joined(w, h, Step(w, InnerEnds(op)), more, Model());
        PlayedOn(w, Step(w, InnerEnds(op)), Model(), sync, starts, {op}, {op}, {});
        h := h + more;
      } else {
        inUse := false;
      }
    }
  }
}
