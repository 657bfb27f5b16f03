/** `build_header`: collects the headers a top-level header needs and writes each after the ones it
    includes. */
module HeaderBundle {

  datatype Header = Header(name: string)

  type Graph = map<Header, seq<Header>>

  // ---- walks ----

  predicate Includes(g: Graph, p: seq<Header>, i: nat) {
    i + 1 < |p| && p[i] in g && p[i + 1] in g[p[i]]
  }

  /** Every header in `p` includes the next one. */
  ghost predicate Walk(g: Graph, p: seq<Header>) {
    forall i :: 0 <= i < |p| - 1 ==> Includes(g, p, i)
  }

  lemma {:induction false} WalkPart(g: Graph, p: seq<Header>, i: nat, j: nat)
    requires Walk(g, p) && i <= j <= |p|
    ensures Walk(g, p[i..j])
  {
    forall k | 0 <= k < j - i - 1 ensures Includes(g, p[i..j], k) {
      assert Includes(g, p, i + k);
    }
  }

  lemma {:induction false} WalkOn(g: Graph, p: seq<Header>, d: Header)
    requires Walk(g, p) && p != [] && p[|p| - 1] in g && d in g[p[|p| - 1]]
    ensures Walk(g, p + [d])
  {
    forall i | 0 <= i < |p + [d]| - 1 ensures Includes(g, p + [d], i) {
      assert i < |p| - 1 ==> Includes(g, p, i);
    }
  }

  ghost predicate WalkFrom(g: Graph, roots: seq<Header>, p: seq<Header>, h: Header) {
    p != [] && p[0] in roots && p[|p| - 1] == h && Walk(g, p)
  }

  ghost predicate Reachable(g: Graph, roots: seq<Header>, h: Header) {
    exists p :: WalkFrom(g, roots, p, h)
  }

  ghost predicate Cycle(g: Graph, p: seq<Header>) {
    |p| >= 2 && p[0] == p[|p| - 1] && Walk(g, p)
  }

  ghost predicate Acyclic(g: Graph) {
    forall p :: !Cycle(g, p)
  }

  lemma {:induction false} RootIsReachable(g: Graph, roots: seq<Header>, h: Header)
    requires h in roots
    ensures Reachable(g, roots, h)
  {
    assert WalkFrom(g, roots, [h], h);
  }

  lemma {:induction false} NextIsReachable(g: Graph, roots: seq<Header>, h: Header, d: Header)
    requires Reachable(g, roots, h) && h in g && d in g[h]
    ensures Reachable(g, roots, d)
  {
    var p :| WalkFrom(g, roots, p, h);
    WalkOn(g, p, d);
    assert WalkFrom(g, roots, p + [d], d);
  }

  ghost predicate Closed(g: Graph, s: set<Header>) {
    forall h, d :: h in s && h in g && d in g[h] ==> d in s
  }

  lemma {:induction false} WalksStayInside(g: Graph, s: set<Header>, p: seq<Header>)
    requires p != [] && p[0] in s && Walk(g, p) && Closed(g, s)
    ensures p[|p| - 1] in s
  {
    if |p| > 1 {
      WalkPart(g, p, 0, |p| - 1);
      WalksStayInside(g, s, p[0..|p| - 1]);
      assert Includes(g, p, |p| - 2);
    }
  }

  lemma {:induction false} ReachableIsInside(g: Graph, roots: seq<Header>, s: set<Header>, h: Header)
    requires Reachable(g, roots, h) && Closed(g, s) && forall r :: r in roots ==> r in s
    ensures h in s
  {
    var p :| WalkFrom(g, roots, p, h);
    WalksStayInside(g, s, p);
  }

  // ---- the closure ----

  /** `KeyError` for a header nobody analysed, or the collected dictionary in insertion order. */
  datatype Collected = KeyError(h: Header) | Found(order: seq<Header>, deps: Graph)

  ghost predicate Distinct(s: seq<Header>) {
    forall i, j :: 0 <= i < j < |s| ==> s[i] != s[j]
  }

  /** Everything `h` includes is collected or still to do. */
  ghost predicate Handled(g: Graph, deps: Graph, todo: seq<Header>, h: Header)
    requires h in g
  {
    forall d :: d in g[h] ==> d in deps || d in todo
  }

  /** What the loop keeps: everything touched is reachable, and what is missing is still to do. */
  ghost predicate Collecting(g: Graph, roots: seq<Header>, order: seq<Header>, deps: Graph, todo: seq<Header>) {
    && (forall h :: h in deps ==> h in g && deps[h] == g[h])
    && KeysOf(deps, order)
    && (forall h {:trigger Reachable(g, roots, h)} :: h in deps || h in todo ==> Reachable(g, roots, h))
    && (forall r :: r in roots ==> r in deps || r in todo)
    && (forall h {:trigger Handled(g, deps, todo, h)} :: h in deps ==> Handled(g, deps, todo, h))
  }

  lemma {:induction false} CollectOne(g: Graph, roots: seq<Header>, order: seq<Header>, deps: Graph, todo: seq<Header>)
    requires Collecting(g, roots, order, deps, todo) && todo != [] && todo[0] in g && todo[0] !in deps
    ensures var h := todo[0];
            Collecting(g, roots, order + [h], deps[h := g[h]], (todo + g[h])[1..])
  {
    var h := todo[0];
    var todo', deps' := (todo + g[h])[1..], deps[h := g[h]];
    assert todo' == todo[1..] + g[h];
    assert todo == [h] + todo[1..];
    forall d | d in deps' || d in todo' ensures Reachable(g, roots, d) {
      assert Reachable(g, roots, h);
      if d in g[h] {
        NextIsReachable(g, roots, h, d);
      }
    }
    forall k | k in deps' ensures Handled(g, deps', todo', k) {
      assert k in deps ==> Handled(g, deps, todo, k);
    }
  }

  lemma {:induction false} SkipOne(g: Graph, roots: seq<Header>, order: seq<Header>, deps: Graph, todo: seq<Header>)
    requires Collecting(g, roots, order, deps, todo) && todo != [] && todo[0] in deps
    ensures Collecting(g, roots, order, deps, todo[1..])
  {
    assert todo == [todo[0]] + todo[1..];
    forall d | d in deps || d in todo[1..] ensures Reachable(g, roots, d) {
    }
    forall k | k in deps ensures Handled(g, deps, todo[1..], k) {
      assert Handled(g, deps, todo, k);
    }
  }

  ghost predicate KeysOf(g: Graph, keys: seq<Header>) {
    Distinct(keys) && forall h :: h in keys <==> h in g
  }

  lemma {:induction false} AllCollected(g: Graph, roots: seq<Header>, order: seq<Header>, deps: Graph)
    requires Collecting(g, roots, order, deps, [])
    ensures forall h :: h in deps <==> Reachable(g, roots, h)
    ensures forall h :: Reachable(g, roots, h) ==> h in g
  {
    assert Closed(g, deps.Keys) by {
      forall h | h in deps ensures Handled(g, deps, [], h) {
      }
    }
    forall h ensures h in deps <==> Reachable(g, roots, h) {
      if Reachable(g, roots, h) {
        ReachableIsInside(g, roots, deps.Keys, h);
      }
    }
  }

  lemma {:induction false} NothingCollected(g: Graph, roots: seq<Header>)
    ensures Collecting(g, roots, [], map[], roots)
  {
    forall h | h in roots ensures Reachable(g, roots, h) {
      RootIsReachable(g, roots, h);
    }
  }

  /** The worklist. It ends on every graph, cyclic ones included, and collects exactly the headers
      reachable from the root's includes, each with its original list. It fails exactly when the
      root or a reachable header was not analysed. */
  method Collect(g: Graph, root: Header) returns (r: Collected)
    ensures r.Found? ==>
              && root in g && KeysOf(r.deps, r.order)
              && (forall h :: h in r.deps <==> Reachable(g, g[root], h))
              && (forall h :: h in r.deps ==> h in g && r.deps[h] == g[h])
    ensures r.KeyError? ==> r.h !in g && (r.h == root || (root in g && Reachable(g, g[root], r.h)))
  {
    if root !in g {
      return KeyError(root);
    }
    ghost var roots := g[root];
    var deps: Graph, order: seq<Header> := map[], [];
    var todo := g[root];
    NothingCollected(g, roots);
    while 0 < |todo|
      invariant Collecting(g, roots, order, deps, todo)
      decreases |g.Keys - deps.Keys|, |todo|
    {
      var h := todo[0];
      assert h in todo;
      if h !in deps {
        assert Reachable(g, roots, h);
        if h !in g {
          return KeyError(h);
        }
        CollectOne(g, roots, order, deps, todo);
        MoreCollected(g, deps, h);
        order := order + [h];
        deps := deps[h := g[h]];
        todo := todo + g[h];
      } else {
        SkipOne(g, roots, order, deps, todo);
      }
      todo := todo[1..];
    }
    assert todo == [];
    AllCollected(g, roots, order, deps);
    return Found(order, deps);
  }

  lemma {:induction false} MoreCollected(g: Graph, deps: Graph, h: Header)
    requires h in g && h !in deps
    ensures |g.Keys - deps[h := g[h]].Keys| < |g.Keys - deps.Keys|
  {
    assert g.Keys - deps.Keys == (g.Keys - deps[h := g[h]].Keys) + {h};
  }

  // ---- the emission ----

  /** The elements of `s` that are not in `gone`, in order. */
  function Unmet(s: seq<Header>, gone: seq<Header>): seq<Header> {
    if s == [] then []
    else (if s[0] in gone then [] else [s[0]]) + Unmet(s[1..], gone)
  }

  lemma {:induction false} UnmetHas(s: seq<Header>, gone: seq<Header>)
    ensures forall h :: h in Unmet(s, gone) <==> h in s && h !in gone
  {
    if s != [] {
      UnmetHas(s[1..], gone);
    }
  }

  lemma {:induction false} UnmetOneMore(s: seq<Header>, gone: seq<Header>, e: Header)
    ensures Unmet(Unmet(s, gone), [e]) == Unmet(s, gone + [e])
  {
    if s != [] {
      UnmetOneMore(s[1..], gone, e);
      var u := Unmet(s[1..], gone);
      if s[0] !in gone {
        assert ([s[0]] + u)[1..] == u;
      } else {
        assert [] + u == u;
      }
    }
  }

  lemma {:induction false} UnmetNothing(s: seq<Header>)
    ensures Unmet(s, []) == s
  {
    if s != [] {
      UnmetNothing(s[1..]);
    }
  }

  /** The keys whose list is empty, in order. */
  function Empties(order: seq<Header>, deps: Graph): seq<Header>
    requires forall h :: h in order ==> h in deps
  {
    if order == [] then []
    else (if deps[order[0]] == [] then [order[0]] else []) + Empties(order[1..], deps)
  }

  lemma {:induction false} EmptiesHas(order: seq<Header>, deps: Graph)
    requires forall h :: h in order ==> h in deps
    ensures forall h :: h in Empties(order, deps) <==> h in order && deps[h] == []
  {
    if order != [] {
      EmptiesHas(order[1..], deps);
    }
  }

  lemma {:induction false} EmptiesDistinct(order: seq<Header>, deps: Graph)
    requires Distinct(order) && forall h :: h in order ==> h in deps
    ensures Distinct(Empties(order, deps))
  {
    if order != [] {
      var rest := order[1..];
      assert forall i, j :: 0 <= i < j < |rest| ==> rest[i] == order[i + 1] && rest[j] == order[j + 1];
      EmptiesDistinct(rest, deps);
      EmptiesHas(rest, deps);
      assert order[0] !in rest;
    }
  }

  /** Everything header i includes was written before it. */
  ghost predicate Ready(g: Graph, written: seq<Header>, i: nat)
    requires i < |written|
  {
    written[i] in g && forall d :: d in g[written[i]] ==> d in written[..i]
  }

  /** Each header is written once, and after everything it includes. */
  ghost predicate Topological(g: Graph, written: seq<Header>) {
    && Distinct(written)
    && (forall h :: h in written ==> h in g)
    && forall i {:trigger Ready(g, written, i)} :: 0 <= i < |written| ==> Ready(g, written, i)
  }

  /** The dictionary in the middle of the emission. */
  function Remaining(g: Graph, written: seq<Header>): Graph {
    map h | h in g && h !in written :: Unmet(g[h], written)
  }

  /** `written` is done, `deps` with its keys in `order` is left. */
  ghost predicate Emitting(g: Graph, keys: seq<Header>, written: seq<Header>, order: seq<Header>, deps: Graph) {
    Topological(g, written) && deps == Remaining(g, written) && order == Unmet(keys, written)
  }

  /** The dictionary without the key `e` and without `e` in any list. */
  function Without(deps: Graph, e: Header): Graph {
    map h | h in deps && h != e :: Unmet(deps[h], [e])
  }

  lemma {:induction false} WriteKeepsOrder(g: Graph, written: seq<Header>, e: Header)
    requires Topological(g, written) && e in Remaining(g, written) && Remaining(g, written)[e] == []
    ensures Topological(g, written + [e])
  {
    var w := written + [e];
    UnmetHas(g[e], written);
    forall i | 0 <= i < |w| ensures Ready(g, w, i) {
      if i < |written| {
        assert Ready(g, written, i) && w[..i] == written[..i];
      } else {
        assert w[..i] == written && forall d :: d in g[e] ==> d in written;
      }
    }
  }

  lemma {:induction false} WithoutIsRemaining(g: Graph, written: seq<Header>, e: Header)
    ensures Without(Remaining(g, written), e) == Remaining(g, written + [e])
  {
    forall h | h in g && h !in written + [e]
      ensures Unmet(g[h], written + [e]) == Unmet(Unmet(g[h], written), [e])
    {
      UnmetOneMore(g[h], written, e);
    }
  }

  lemma {:induction false} WriteOne(g: Graph, keys: seq<Header>, written: seq<Header>, order: seq<Header>,
                                    deps: Graph, e: Header)
    requires Emitting(g, keys, written, order, deps) && e in deps && deps[e] == []
    ensures Emitting(g, keys, written + [e], Unmet(order, [e]), Without(deps, e))
    ensures |Without(deps, e)| == |deps| - 1
  {
    WriteKeepsOrder(g, written, e);
    WithoutIsRemaining(g, written, e);
    UnmetOneMore(keys, written, e);
    RemoveKey(deps, e);
  }

  lemma {:induction false} OrderHasKeys(g: Graph, keys: seq<Header>, written: seq<Header>)
    requires KeysOf(g, keys)
    ensures KeysOf(Remaining(g, written), Unmet(keys, written))
  {
    UnmetHas(keys, written);
    UnmetDistinct(keys, written);
  }

  /** `h` includes a header that is left. */
  ghost predicate Waits(g: Graph, written: seq<Header>, h: Header)
    requires h in g
  {
    exists d :: d in g[h] && d in g && d !in written
  }

  /** Some header is left and every header left waits for another one that is left. */
  ghost predicate Stuck(g: Graph, written: seq<Header>) {
    && (exists h :: h in g && h !in written)
    && forall h {:trigger Waits(g, written, h)} :: h in g && h !in written ==> Waits(g, written, h)
  }

  // ---- order and cycles ----

  function Position(s: seq<Header>, h: Header): (i: nat)
    requires h in s
    ensures i < |s| && s[i] == h
  {
    if s[0] == h then 0 else 1 + Position(s[1..], h)
  }

  /** Along a walk the positions in a topological order fall. */
  lemma {:induction false} PositionsFall(g: Graph, written: seq<Header>, p: seq<Header>)
    requires Topological(g, written) && Walk(g, p) && |p| >= 2 && p[0] in written
    ensures p[|p| - 1] in written
    ensures Position(written, p[|p| - 1]) < Position(written, p[0])
    decreases |p|
  {
    var i := Position(written, p[0]);
    assert Includes(g, p, 0) && Ready(g, written, i);
    var j :| 0 <= j < i && written[j] == p[1];
    assert Position(written, p[1]) == j;
    if |p| > 2 {
      WalkPart(g, p, 1, |p|);
      PositionsFall(g, written, p[1..|p|]);
    }
  }

  lemma {:induction false} OrderedMeansAcyclic(g: Graph, written: seq<Header>)
    requires Topological(g, written) && forall h :: h in g ==> h in written
    ensures Acyclic(g)
  {
    forall p ensures !Cycle(g, p) {
      if Cycle(g, p) {
        assert Includes(g, p, 0);
        PositionsFall(g, written, p);
      }
    }
  }

  /** A walk of any length among the headers that are left. */
  lemma {:induction false} LongWalk(g: Graph, written: seq<Header>, n: nat) returns (p: seq<Header>)
    requires Stuck(g, written) && n >= 1
    ensures |p| == n && Walk(g, p) && forall h :: h in p ==> h in g && h !in written
  {
    if n == 1 {
      var h :| h in g && h !in written;
      p := [h];
    } else {
      var q := LongWalk(g, written, n - 1);
      var last := q[|q| - 1];
      assert last in q;
      assert Waits(g, written, last);
      var d :| d in g[last] && d in g && d !in written;
      WalkOn(g, q, d);
      p := q + [d];
    }
  }

  lemma {:induction false} Pigeonhole(s: seq<Header>, t: set<Header>)
    requires |s| > |t| && forall h :: h in s ==> h in t
    ensures exists i, j :: 0 <= i < j < |s| && s[i] == s[j]
    decreases |s|
  {
    var last, pre := s[|s| - 1], s[..|s| - 1];
    if last in pre {
      var i :| 0 <= i < |pre| && pre[i] == last;
      assert s[i] == s[|s| - 1];
    } else {
      assert forall h :: h in pre ==> h in s;
      assert last in s && |t - {last}| == |t| - 1;
      Pigeonhole(pre, t - {last});
      var i, j :| 0 <= i < j < |pre| && pre[i] == pre[j];
      assert s[i] == s[j];
    }
  }

  /** A finite graph in which everything left waits for something left has a cycle: the other way
      round, a finite acyclic graph always has a header that is free to be written. */
  lemma {:induction false} StuckMeansCycle(g: Graph, written: seq<Header>)
    requires Stuck(g, written)
    ensures !Acyclic(g)
  {
    var p := LongWalk(g, written, |g.Keys| + 1);
    Pigeonhole(p, g.Keys);
    var i, j :| 0 <= i < j < |p| && p[i] == p[j];
    WalkPart(g, p, i, j + 1);
    assert Cycle(g, p[i..j + 1]);
  }

  ghost predicate SelfContained(g: Graph) {
    forall h, d :: h in g && d in g[h] ==> d in g
  }

  lemma {:induction false} NoneEmptyIsStuck(g: Graph, written: seq<Header>)
    requires SelfContained(g) && Remaining(g, written) != map[]
    requires forall h :: h in Remaining(g, written) ==> Remaining(g, written)[h] != []
    ensures Stuck(g, written)
  {
    var h :| h in Remaining(g, written);
    assert h in g && h !in written;
    forall h | h in g && h !in written ensures Waits(g, written, h) {
      assert h in Remaining(g, written);
      var u := Unmet(g[h], written);
      UnmetHas(g[h], written);
      assert u[0] in u;
    }
  }

  lemma {:induction false} NothingWritten(g: Graph, keys: seq<Header>)
    ensures Emitting(g, keys, [], keys, g)
  {
    UnmetNothing(keys);
    forall h | h in g ensures Unmet(g[h], []) == g[h] {
      UnmetNothing(g[h]);
    }
  }

  lemma {:induction false} EverythingWritten(g: Graph, written: seq<Header>)
    requires Topological(g, written) && |Remaining(g, written)| == 0
    ensures Acyclic(g) && forall h :: h in written <==> h in g
  {
    assert Remaining(g, written) == map[];
    forall h | h in g ensures h in written {
      assert h !in written ==> h in Remaining(g, written);
    }
    OrderedMeansAcyclic(g, written);
  }

  lemma {:induction false} StillEmpty(deps: Graph, e: Header, empty: seq<Header>, k: nat)
    requires Distinct(empty) && k < |empty| && e == empty[k]
    requires forall j :: k <= j < |empty| ==> empty[j] in deps && deps[empty[j]] == []
    ensures forall j :: k < j < |empty| ==>
              empty[j] in Without(deps, e) && Without(deps, e)[empty[j]] == []
  {
  }

  /** `w` is `a` followed by the first `k` of `e`. */
  ghost predicate Extends(a: seq<Header>, e: seq<Header>, k: nat, w: seq<Header>) {
    k <= |e| && w == a + e[..k]
  }

  lemma {:induction false} ExtendsOn(a: seq<Header>, e: seq<Header>, k: nat, w: seq<Header>)
    requires Extends(a, e, k, w) && k < |e|
    ensures Extends(a, e, k + 1, w + [e[k]])
  {
    assert e[..k + 1] == e[..k] + [e[k]];
  }

  /** One round: writes the headers without dependencies and takes each out of the dictionary and
      out of every other list. */
  method Round(ghost g: Graph, ghost keys: seq<Header>, written0: seq<Header>, order0: seq<Header>, deps0: Graph)
    returns (empty: seq<Header>, written: seq<Header>, order: seq<Header>, deps: Graph)
    requires Emitting(g, keys, written0, order0, deps0) && KeysOf(deps0, order0)
    ensures empty == Empties(order0, deps0)
    ensures written == written0 + empty && (empty == [] ==> written == written0)
    ensures Emitting(g, keys, written, order, deps)
    ensures |deps| == |deps0| - |empty|
  {
    written, order, deps := written0, order0, deps0;
    empty := Empties(order, deps);
    EmptiesDistinct(order, deps);
    EmptiesHas(order, deps);
    var k := 0;
    while k < |empty|
      invariant k <= |empty| && Extends(written0, empty, k, written)
      invariant Emitting(g, keys, written, order, deps)
      invariant forall j :: k <= j < |empty| ==> empty[j] in deps && deps[empty[j]] == []
      invariant |deps| == |deps0| - k
    {
      var e := empty[k];
      StillEmpty(deps, e, empty, k);
      WriteOne(g, keys, written, order, deps, e);
      ExtendsOn(written0, empty, k, written);
      written := written + [e];
      deps := Without(deps, e);
      order := Unmet(order, [e]);
      k := k + 1;
    }
    assert empty[..k] == empty;
  }

  /** The emission loop. `stuck` stands for what the source does on a cycle: a round that finds no
      header without dependencies changes nothing, and is repeated forever. That happens exactly if
      the dictionary has a cycle; otherwise every header is written, once and after all it includes. */
  method Emit(keys: seq<Header>, deps0: Graph) returns (written: seq<Header>, stuck: bool)
    requires KeysOf(deps0, keys) && SelfContained(deps0)
    ensures Topological(deps0, written)
    ensures stuck <==> !Acyclic(deps0)
    ensures !stuck ==> forall h :: h in written <==> h in deps0
  {
    var deps, order := deps0, keys;
    written := [];
    NothingWritten(deps0, keys);
    while 0 < |deps|
      invariant Emitting(deps0, keys, written, order, deps)
      decreases |deps|
    {
      OrderHasKeys(deps0, keys, written);
      ghost var order', deps' := order, deps;
      var empty, more: seq<Header>;
      empty, more, order, deps := Round(deps0, keys, written, order, deps);
      written := more;
      if empty == [] {
        NoneEmpty(order', deps');
        NoneEmptyIsStuck(deps0, written);
        StuckMeansCycle(deps0, written);
        return written, true;
      }
    }
    EverythingWritten(deps0, written);
    return written, false;
  }

  lemma {:induction false} NoneEmpty(order: seq<Header>, deps: Graph)
    requires KeysOf(deps, order) && Empties(order, deps) == []
    ensures forall h :: h in deps ==> deps[h] != []
  {
    EmptiesHas(order, deps);
  }

  lemma {:induction false} RemoveKey(m: Graph, e: Header)
    requires e in m
    ensures |Without(m, e)| == |m| - 1
  {
    assert m.Keys == Without(m, e).Keys + {e};
  }

  lemma {:induction false} UnmetDistinct(s: seq<Header>, gone: seq<Header>)
    requires Distinct(s)
    ensures Distinct(Unmet(s, gone))
  {
    if s != [] {
      var rest := s[1..];
      assert forall i, j :: 0 <= i < j < |rest| ==> rest[i] == s[i + 1] && rest[j] == s[j + 1];
      UnmetDistinct(rest, gone);
      UnmetHas(rest, gone);
      assert s[0] !in rest;
    }
  }

  /** Some reachable header includes itself, directly or not. */
  ghost predicate CyclicFrom(g: Graph, roots: seq<Header>) {
    exists p :: Cycle(g, p) && Reachable(g, roots, p[0])
  }

  lemma {:induction false} WalksAreReachable(g: Graph, roots: seq<Header>, p: seq<Header>, i: nat)
    requires Walk(g, p) && i < |p| && Reachable(g, roots, p[0])
    ensures Reachable(g, roots, p[i])
  {
    if 0 < i {
      WalksAreReachable(g, roots, p, i - 1);
      assert Includes(g, p, i - 1);
      NextIsReachable(g, roots, p[i - 1], p[i]);
    }
  }

  lemma {:induction false} CyclesAgree(g: Graph, roots: seq<Header>, deps: Graph)
    requires forall h :: h in deps <==> Reachable(g, roots, h)
    requires forall h :: h in deps ==> h in g && deps[h] == g[h]
    ensures Acyclic(deps) <==> !CyclicFrom(g, roots)
  {
    if p :| Cycle(deps, p) {
      forall i | 0 <= i < |p| - 1 ensures Includes(g, p, i) {
        assert Includes(deps, p, i);
      }
      assert Includes(deps, p, 0) && Cycle(g, p);
    }
    if p :| Cycle(g, p) && Reachable(g, roots, p[0]) {
      forall i | 0 <= i < |p| - 1 ensures Includes(deps, p, i) {
        WalksAreReachable(g, roots, p, i);
        assert Includes(g, p, i);
      }
      assert Cycle(deps, p);
    }
  }

  datatype Built = Unknown(h: Header) | Endless | Written(headers: seq<Header>)

  /** `build_header` from end to end. It fails exactly if the root or a reachable header was not
      analysed, and otherwise runs forever exactly if a reachable header includes itself. In all
      other cases it writes the headers reachable from the root's includes, each once and after all
      it includes. */
  method Build(g: Graph, root: Header) returns (r: Built)
    ensures r.Unknown? <==> root !in g || exists h :: Reachable(g, g[root], h) && h !in g
    ensures r.Endless? <==> !r.Unknown? && CyclicFrom(g, g[root])
    ensures r.Written? ==>
              && Distinct(r.headers)
              && (forall h :: h in r.headers <==> Reachable(g, g[root], h))
              && (forall i, d :: 0 <= i < |r.headers| && d in g[r.headers[i]] ==> d in r.headers[..i])
  {
    var c := Collect(g, root);
    match c
    case KeyError(h) => return Unknown(h);
    case Found(order, deps) =>
      forall h, d | h in deps && d in deps[h] ensures d in deps {
        NextIsReachable(g, g[root], h, d);
      }
      CyclesAgree(g, g[root], deps);
      var written, stuck := Emit(order, deps);
      if stuck {
        return Endless;
      }
      forall i, d | 0 <= i < |written| && d in g[written[i]] ensures d in written[..i] {
        assert Ready(deps, written, i);
      }
      return Written(written);
  }
}
