/** `sorted_list`: the intrusive, singly linked list that holds the pending timers. */
module SortedList {

  // ---- the contents, as sequences ----

  /** Where a key goes: in front of the first element whose key is not smaller. */
  function Rank<T>(s: seq<T>, key: T -> int, k: int): (r: nat)
    ensures r <= |s|
    ensures forall i :: 0 <= i < r ==> key(s[i]) < k
    ensures r < |s| ==> k <= key(s[r])
  {
    if s == [] || k <= key(s[0]) then 0 else 1 + Rank(s[1..], key, k)
  }

  function Insert<T>(s: seq<T>, key: T -> int, x: T): seq<T> {
    var r := Rank(s, key, key(x));
    s[..r] + [x] + s[r..]
  }

  /** The index of `x`, or the length when it is absent. */
  function IndexOf<T(==)>(s: seq<T>, x: T): (r: nat)
    ensures r <= |s|
    ensures x !in s[..r]
    ensures r < |s| <==> x in s
    ensures r < |s| ==> s[r] == x
  {
    if s == [] || s[0] == x then 0 else 1 + IndexOf(s[1..], x)
  }

  function Erase<T(==)>(s: seq<T>, x: T): seq<T> {
    var r := IndexOf(s, x);
    if r == |s| then s else s[..r] + s[r + 1..]
  }

  ghost predicate Sorted<T>(s: seq<T>, key: T -> int) {
    forall i, j :: 0 <= i < j < |s| ==> key(s[i]) <= key(s[j])
  }

  ghost predicate Distinct<T>(s: seq<T>) {
    forall i, j :: 0 <= i < j < |s| ==> s[i] != s[j]
  }

  /** The rank is determined by what `Rank` promises. */
  lemma {:induction false} RankIs<T>(s: seq<T>, key: T -> int, k: int, r: nat)
    requires r <= |s|
    requires forall i :: 0 <= i < r ==> key(s[i]) < k
    requires r < |s| ==> k <= key(s[r])
    ensures Rank(s, key, k) == r
  {
    if 0 < r {
      RankIs(s[1..], key, k, r - 1);
    }
  }

  lemma {:induction false} IndexIs<T>(s: seq<T>, x: T, r: nat)
    requires r <= |s|
    requires forall i :: 0 <= i < r ==> s[i] != x
    requires r < |s| ==> s[r] == x
    ensures IndexOf(s, x) == r
  {
    if 0 < r {
      IndexIs(s[1..], x, r - 1);
    }
  }

  /** A relation that holds between all pairs, in order, survives an insertion that respects it. */
  lemma {:induction false} InsertPairwise<T>(R: (T, T) -> bool, s: seq<T>, r: nat, x: T)
    requires r <= |s|
    requires forall i, j :: 0 <= i < j < |s| ==> R(s[i], s[j])
    requires forall i :: 0 <= i < r ==> R(s[i], x)
    requires forall j :: r <= j < |s| ==> R(x, s[j])
    ensures var t := s[..r] + [x] + s[r..]; forall i, j :: 0 <= i < j < |t| ==> R(t[i], t[j])
  {
    var t := s[..r] + [x] + s[r..];
    forall i, j | 0 <= i < j < |t| ensures R(t[i], t[j]) {
      assert t[i] == if i < r then s[i] else if i == r then x else s[i - 1];
      assert t[j] == if j < r then s[j] else if j == r then x else s[j - 1];
    }
  }

  lemma {:induction false} DropPairwise<T>(R: (T, T) -> bool, s: seq<T>, r: nat)
    requires r < |s|
    requires forall i, j :: 0 <= i < j < |s| ==> R(s[i], s[j])
    ensures var t := s[..r] + s[r + 1..]; forall i, j :: 0 <= i < j < |t| ==> R(t[i], t[j])
  {
    var t := s[..r] + s[r + 1..];
    forall i, j | 0 <= i < j < |t| ensures R(t[i], t[j]) {
      assert t[i] == if i < r then s[i] else s[i + 1];
      assert t[j] == if j < r then s[j] else s[j + 1];
    }
  }

  lemma {:induction false} InsertKeepsSorted<T>(s: seq<T>, key: T -> int, x: T)
    requires Sorted(s, key)
    ensures Sorted(Insert(s, key, x), key)
  {
    InsertPairwise((a, b) => key(a) <= key(b), s, Rank(s, key, key(x)), x);
  }

  lemma {:induction false} InsertAdds<T>(s: seq<T>, key: T -> int, x: T)
    requires Distinct(s) && x !in s
    ensures Distinct(Insert(s, key, x))
    ensures forall y :: y in Insert(s, key, x) <==> y == x || y in s
  {
    var r, t := Rank(s, key, key(x)), Insert(s, key, x);
    InsertPairwise((a, b) => a != b, s, r, x);
    forall y ensures y in t <==> y == x || y in s {
      assert s == s[..r] + s[r..];
      assert t[r] == x;
    }
  }

  lemma {:induction false} TailKeeps<T>(s: seq<T>, key: T -> int)
    requires s != [] && Sorted(s, key) && Distinct(s)
    ensures Sorted(s[1..], key) && Distinct(s[1..])
    ensures forall x :: x in s[1..] <==> x in s && x != s[0]
  {
    var t := s[1..];
    assert s == [s[0]] + t;
    forall i, j | 0 <= i < j < |t| ensures key(t[i]) <= key(t[j]) && t[i] != t[j] {
      assert t[i] == s[i + 1] && t[j] == s[j + 1];
    }
    assert forall i :: 0 <= i < |t| ==> t[i] == s[i + 1];
  }

  lemma {:induction false} EraseKeepsSorted<T>(s: seq<T>, key: T -> int, x: T)
    requires Sorted(s, key)
    ensures Sorted(Erase(s, x), key)
  {
    if x in s {
      DropPairwise((a, b) => key(a) <= key(b), s, IndexOf(s, x));
    }
  }

  lemma {:induction false} EraseRemoves<T>(s: seq<T>, x: T)
    requires Distinct(s)
    ensures Distinct(Erase(s, x))
    ensures forall y :: y in Erase(s, x) <==> y != x && y in s
  {
    var r, t := IndexOf(s, x), Erase(s, x);
    if x in s {
      DropPairwise((a, b) => a != b, s, r);
      forall y ensures y in t <==> y != x && y in s {
        assert s == s[..r] + [x] + s[r + 1..];
      }
    }
  }

  /** The order the list promises of a node with key `k`, inserted at `t`, and another: smaller keys
      first, and the newer of two equal keys first. */
  predicate Before(k: int, t: int, k': int, t': int) {
    k < k' || (k == k' && t > t')
  }

  // ---- the linked list ----

  class Node {
    const id: nat  // the operation it belongs to
    const value: int
    var next: Node?

    constructor (id: nat, value: int)
      ensures this.id == id && this.value == value && next == null
    {
      this.id, this.value := id, value;
      next := null;
    }
  }

  function At(nodes: seq<Node>, i: nat): Node? {
    if i < |nodes| then nodes[i] else null
  }

  /** The nodes from `head` on are exactly `nodes`, in order, and the chain ends. */
  ghost predicate Linked(head: Node?, nodes: seq<Node>)
    reads nodes
  {
    && head == At(nodes, 0)
    && forall i {:trigger nodes[i].next} :: 0 <= i < |nodes| ==> nodes[i].next == At(nodes, i + 1)
  }

  const BY_VALUE := (n: Node) => n.value

  /** `dates` says when each node was inserted, before `time`. */
  ghost predicate Dated(nodes: seq<Node>, dates: seq<nat>, time: nat) {
    && |dates| == |nodes|
    && (forall i :: 0 <= i < |dates| ==> dates[i] < time)
    && forall i, j :: 0 <= i < j < |nodes| ==> Before(nodes[i].value, dates[i], nodes[j].value, dates[j])
  }

  /** `t` is `s` with `x` at `r`. */
  ghost predicate InsertedAt<T>(s: seq<T>, r: nat, x: T, t: seq<T>) {
    && r <= |s| && |t| == |s| + 1 && t[r] == x
    && (forall k {:trigger t[k]} :: 0 <= k < r ==> t[k] == s[k])
    && (forall k {:trigger t[k]} :: r < k < |t| ==> t[k] == s[k - 1])
  }

  lemma {:induction false} NewestGoesFirst(nodes: seq<Node>, dates: seq<nat>, time: nat, node: Node, r: nat,
                                           t: seq<Node>, d: seq<nat>)
    requires Dated(nodes, dates, time) && InsertedAt(nodes, r, node, t) && InsertedAt(dates, r, time, d)
    requires forall k :: 0 <= k < r ==> nodes[k].value < node.value
    requires forall k :: r <= k < |nodes| ==> node.value <= nodes[k].value
    ensures Dated(t, d, time + 1)
  {
  }

  lemma {:induction false} InsertKeepsDates(nodes: seq<Node>, dates: seq<nat>, time: nat, node: Node)
    requires Dated(nodes, dates, time)
    ensures var r := Rank(nodes, BY_VALUE, node.value);
            Dated(Insert(nodes, BY_VALUE, node), dates[..r] + [time] + dates[r..], time + 1)
  {
    var r := Rank(nodes, BY_VALUE, node.value);
    forall k | r <= k < |nodes| ensures node.value <= nodes[k].value {
      assert BY_VALUE(nodes[r]) == nodes[r].value;
      assert r < k ==> Before(nodes[r].value, dates[r], nodes[k].value, dates[k]);
    }
    assert forall k :: 0 <= k < r ==> BY_VALUE(nodes[k]) < node.value;
    NewestGoesFirst(nodes, dates, time, node, r,
                    Insert(nodes, BY_VALUE, node), dates[..r] + [time] + dates[r..]);
  }

  lemma {:induction false} DropKeepsDates(nodes: seq<Node>, dates: seq<nat>, time: nat, r: nat)
    requires Dated(nodes, dates, time) && r < |nodes|
    ensures Dated(nodes[..r] + nodes[r + 1..], dates[..r] + dates[r + 1..], time)
  {
    var t, d := nodes[..r] + nodes[r + 1..], dates[..r] + dates[r + 1..];
    forall i, j | 0 <= i < j < |t| ensures Before(t[i].value, d[i], t[j].value, d[j]) {
      assert t[i] == nodes[if i < r then i else i + 1] && d[i] == dates[if i < r then i else i + 1];
      assert t[j] == nodes[if j < r then j else j + 1] && d[j] == dates[if j < r then j else j + 1];
    }
  }

  lemma {:induction false} TailKeepsDates(nodes: seq<Node>, dates: seq<nat>, time: nat)
    requires Dated(nodes, dates, time) && nodes != []
    ensures Dated(nodes[1..], dates[1..], time)
  {
  }

  /** The list. In every valid state its nodes are linked in the promised order: by key, and among
      equal keys the one inserted last comes first. */
  class SortedList {
    var head: Node?
    ghost var nodes: seq<Node>
    ghost var dates: seq<nat>  // when each node was inserted
    ghost var time: nat

    ghost predicate Shaped()
      reads this, nodes
    {
      Linked(head, nodes) && Distinct(nodes) && Sorted(nodes, BY_VALUE)
    }

    ghost predicate Valid()
      reads this, nodes
    {
      Shaped() && Dated(nodes, dates, time)
    }

    constructor ()
      ensures Valid() && nodes == [] && time == 0
    {
      head, nodes, dates, time := null, [], [], 0;
    }

    method Empty() returns (r: bool)
      requires Valid()
      ensures r <==> nodes == []
    {
      r := head == null;
    }

    /** `value_or`: the least key, or `v` for an empty list. */
    method ValueOr(v: int) returns (r: int)
      requires Valid()
      ensures r == if nodes == [] then v else nodes[0].value
      ensures forall n :: n in nodes ==> r <= n.value
    {
      if head == null {
        r := v;
      } else {
        r := head.value;
        assert forall i :: 0 <= i < |nodes| ==> BY_VALUE(nodes[0]) <= BY_VALUE(nodes[i]);
      }
    }

    method TakeFront() returns (rc: Node)
      requires Shaped() && nodes != []
      modifies this`head, this`nodes
      ensures Shaped() && rc == old(nodes[0]) && nodes == old(nodes[1..])
    {
      rc := head;
      head := rc.next;
      ghost var was := nodes;
      nodes := nodes[1..];
      assert forall k :: 0 <= k < |nodes| ==> nodes[k] == was[k + 1];
    }

    method PopFront() returns (rc: Node)
      requires Valid() && nodes != []
      modifies this
      ensures Valid() && rc == old(nodes[0]) && nodes == old(nodes[1..])
      ensures dates == old(dates[1..]) && time == old(time)
    {
      TailKeepsDates(nodes, dates, time);
      rc := TakeFront();
      dates := dates[1..];
    }

    method PopFrontOr(v: int) returns (r: int)
      requires Valid()
      modifies this
      ensures Valid() && nodes == if old(nodes) == [] then [] else old(nodes[1..])
      ensures time == old(time)
      ensures r == if old(nodes) == [] then v else old(nodes[0].value)
    {
      if head == null {
        r := v;
      } else {
        var n := PopFront();
        r := n.value;
      }
    }

    /** `node->next = *it; *it = node;` where `it` refers to `prev.next`, or to `head` if `prev` is
        null. */
    method LinkAt(prev: Node?, node: Node, ghost i: nat)
      requires Linked(head, nodes) && Distinct(nodes) && node !in nodes
      requires i <= |nodes| && prev == if i == 0 then null else nodes[i - 1]
      modifies this`head, this`nodes, node`next, prev
      ensures nodes == old(nodes[..i] + [node] + nodes[i..]) && Linked(head, nodes)
    {
      ghost var was := nodes;
      nodes := was[..i] + [node] + was[i..];
      if prev == null {
        node.next := head;
        head := node;
      } else {
        node.next := prev.next;
        prev.next := node;
      }
      forall k | 0 <= k < |nodes| ensures nodes[k].next == At(nodes, k + 1) {
        assert k < i ==> nodes[k] == was[k] && old(was[k].next) == At(was, k + 1);
        assert k > i ==> nodes[k] == was[k - 1] && old(was[k - 1].next) == At(was, k);
      }
    }

    /** The loop and the writes of `insert`: `prev` is the node whose `next` the cursor refers to, null
        for `head`. */
    method Place(node: Node)
      requires Shaped() && node !in nodes
      modifies this`head, this`nodes, node`next, nodes
      ensures Shaped() && nodes == Insert(old(nodes), BY_VALUE, node)
    {
      var prev: Node?, cur := null, head;
      ghost var i := 0;
      while cur != null && cur.value < node.value
        invariant 0 <= i <= |nodes|
        invariant cur == At(nodes, i)
        invariant prev == if i == 0 then null else nodes[i - 1]
        invariant forall k :: 0 <= k < i ==> nodes[k].value < node.value
        decreases |nodes| - i
      {
        prev, cur, i := cur, cur.next, i + 1;
      }
      RankIs(nodes, BY_VALUE, BY_VALUE(node), i);
      InsertKeepsSorted(nodes, BY_VALUE, node);
      InsertAdds(nodes, BY_VALUE, node);
      LinkAt(prev, node, i);
    }

    /** `insert` */
    method InsertNode(node: Node)
      requires Valid() && node !in nodes
      modifies this, node`next, nodes
      ensures Valid() && nodes == Insert(old(nodes), BY_VALUE, node)
      ensures var r := Rank(old(nodes), BY_VALUE, node.value);
              dates == old(dates)[..r] + [old(time)] + old(dates)[r..] && time == old(time) + 1
    {
      ghost var r := Rank(nodes, BY_VALUE, node.value);
      InsertKeepsDates(nodes, dates, time, node);
      Place(node);
      dates, time := dates[..r] + [time] + dates[r..], time + 1;
    }

    /** `*it = node->next;` where `it` refers to `prev.next`, or to `head` if `prev` is null. */
    method UnlinkAt(prev: Node?, node: Node, ghost i: nat)
      requires Linked(head, nodes) && Distinct(nodes)
      requires i < |nodes| && nodes[i] == node && prev == if i == 0 then null else nodes[i - 1]
      modifies this`head, this`nodes, prev
      ensures nodes == old(nodes[..i] + nodes[i + 1..]) && Linked(head, nodes)
    {
      ghost var was := nodes;
      nodes := was[..i] + was[i + 1..];
      if prev == null {
        head := node.next;
      } else {
        prev.next := node.next;
      }
      forall k | 0 <= k < |nodes| ensures nodes[k].next == At(nodes, k + 1) {
        assert k < i ==> nodes[k] == was[k] && old(was[k].next) == At(was, k + 1);
        assert k >= i ==> nodes[k] == was[k + 1] && old(was[k + 1].next) == At(was, k + 2);
      }
    }

    /** The loop and the write of `erase`; null when the node is not in the list. */
    method Remove(node: Node) returns (r: Node?)
      requires Shaped()
      modifies this`head, this`nodes, nodes
      ensures Shaped() && nodes == Erase(old(nodes), node)
      ensures r == if node in old(nodes) then node else null
    {
      var prev: Node?, cur := null, head;
      ghost var i := 0;
      while cur != node && cur != null
        invariant 0 <= i <= |nodes|
        invariant cur == At(nodes, i)
        invariant prev == if i == 0 then null else nodes[i - 1]
        invariant forall k :: 0 <= k < i ==> nodes[k] != node
        decreases |nodes| - i
      {
        prev, cur, i := cur, cur.next, i + 1;
      }
      if cur != node {
        return null;
      }
      IndexIs(nodes, node, i);
      EraseRemoves(nodes, node);
      EraseKeepsSorted(nodes, BY_VALUE, node);
      UnlinkAt(prev, node, i);
      return node;
    }

    /** `erase`: unlinks `node` by identity. */
    method EraseNode(node: Node) returns (r: Node?)
      requires Valid()
      modifies this, nodes
      ensures Valid() && nodes == Erase(old(nodes), node)
      ensures r == if node in old(nodes) then node else null
      ensures time == old(time)
      ensures dates == if node in old(nodes) then
                         var i := IndexOf(old(nodes), node); old(dates)[..i] + old(dates)[i + 1..]
                       else old(dates)
    {
      ghost var i := IndexOf(nodes, node);
      if i < |nodes| {
        DropKeepsDates(nodes, dates, time, i);
        dates := dates[..i] + dates[i + 1..];
      }
      r := Remove(node);
    }
  }

  // ---- whole runs ----

  /** A node as a run sees it: its identity, its key and when it was inserted. */
  datatype Entry = Entry(id: nat, key: int)

  datatype Action = Put(e: Entry) | Drop(e: Entry) | Pop

  const BY_KEY := (e: Entry) => e.key

  function Step(s: seq<Entry>, a: Action): seq<Entry> {
    match a
    case Put(e) => Insert(s, BY_KEY, e)
    case Drop(e) => Erase(s, e)
    case Pop => if s == [] then s else s[1..]
  }

  function Run(h: seq<Action>): seq<Entry> {
    if h == [] then [] else Step(Run(h[..|h| - 1]), h[|h| - 1])
  }

  /** A node is never inserted while it is in the list. */
  predicate Legal(h: seq<Action>) {
    h == [] ||
    var pre, a := h[..|h| - 1], h[|h| - 1];
    Legal(pre) && (a.Put? ==> a.e !in Run(pre)) && (a.Pop? ==> Run(pre) != [])
  }

  /** Time of the last insertion of `e`, counted from 1; 0 when there is none. */
  function Stamp(h: seq<Action>, e: Entry): (t: nat)
    ensures t <= |h|
  {
    if h == [] then 0
    else if h[|h| - 1] == Put(e) then |h|
    else Stamp(h[..|h| - 1], e)
  }

  function Stamps(h: seq<Action>): Entry -> int {
    (e: Entry) => Stamp(h, e)
  }

  predicate Precedes(stamp: Entry -> int, x: Entry, y: Entry) {
    Before(x.key, stamp(x), y.key, stamp(y))
  }

  ghost predicate Ordered(stamp: Entry -> int, s: seq<Entry>) {
    forall i, j :: 0 <= i < j < |s| ==> Precedes(stamp, s[i], s[j])
  }

  lemma {:induction false} OrderedImplies(st: Entry -> int, s: seq<Entry>)
    requires Ordered(st, s)
    ensures Sorted(s, BY_KEY) && Distinct(s)
  {
    forall i, j | 0 <= i < j < |s| ensures BY_KEY(s[i]) <= BY_KEY(s[j]) && s[i] != s[j] {
      assert Precedes(st, s[i], s[j]);
    }
  }

  ghost predicate SameStamps(st: Entry -> int, st': Entry -> int, s: seq<Entry>) {
    forall i :: 0 <= i < |s| ==> st(s[i]) == st'(s[i])
  }

  lemma {:induction false} SameStampsKeepOrder(st: Entry -> int, st': Entry -> int, s: seq<Entry>)
    requires Ordered(st, s) && SameStamps(st, st', s)
    ensures Ordered(st', s)
  {
    forall i, j | 0 <= i < j < |s| ensures Precedes(st', s[i], s[j]) {
      assert Precedes(st, s[i], s[j]);
    }
  }

  /** A node that is newer than all others goes in front of those with the same key. */
  lemma {:induction false} PutKeepsOrder(st: Entry -> int, s: seq<Entry>, x: Entry)
    requires Ordered(st, s)
    requires forall i :: 0 <= i < |s| ==> st(s[i]) < st(x)
    ensures Ordered(st, Insert(s, BY_KEY, x))
  {
    OrderedImplies(st, s);
    var r := Rank(s, BY_KEY, BY_KEY(x));
    assert forall i :: 0 <= i < r ==> BY_KEY(s[i]) < BY_KEY(x);
    assert forall j :: r <= j < |s| ==> BY_KEY(s[r]) <= BY_KEY(s[j]);
    InsertPairwise((a, b) => Precedes(st, a, b), s, r, x);
  }

  lemma {:induction false} DropKeepsOrder(st: Entry -> int, s: seq<Entry>, r: nat)
    requires Ordered(st, s) && r < |s|
    ensures Ordered(st, s[..r] + s[r + 1..])
  {
    DropPairwise((a, b) => Precedes(st, a, b), s, r);
  }

  lemma {:induction false} StepKeepsOrder(st: Entry -> int, s: seq<Entry>, a: Action)
    requires Ordered(st, s)
    requires a.Put? ==> forall i :: 0 <= i < |s| ==> st(s[i]) < st(a.e)
    ensures Ordered(st, Step(s, a))
  {
    match a
    case Put(e) => PutKeepsOrder(st, s, e);
    case Drop(e) =>
      if e in s {
        DropKeepsOrder(st, s, IndexOf(s, e));
      }
    case Pop =>
      if s != [] {
        DropKeepsOrder(st, s, 0);
        assert s[..0] + s[1..] == s[1..];
      }
  }

  /** Only inserting an entry changes its stamp, and makes it the largest. */
  lemma {:induction false} StampsStep(pre: seq<Action>, h: seq<Action>, s: seq<Entry>)
    requires h != [] && pre == h[..|h| - 1] && (h[|h| - 1].Put? ==> h[|h| - 1].e !in s)
    ensures SameStamps(Stamps(pre), Stamps(h), s)
    ensures h[|h| - 1].Put? ==> forall i :: 0 <= i < |s| ==> Stamps(h)(s[i]) < Stamps(h)(h[|h| - 1].e)
  {
  }

  /** After any run the list holds its entries in the promised order. */
  lemma {:induction false} RunIsOrdered(h: seq<Action>)
    requires Legal(h)
    ensures Ordered(Stamps(h), Run(h))
  {
    if h != [] {
      var pre := h[..|h| - 1];
      RunIsOrdered(pre);
      StampsStep(pre, h, Run(pre));
      SameStampsKeepOrder(Stamps(pre), Stamps(h), Run(pre));
      StepKeepsOrder(Stamps(h), Run(pre), h[|h| - 1]);
    }
  }

  /** The entries that were inserted and neither erased nor popped since. */
  ghost function Live(h: seq<Action>): set<Entry> {
    if h == [] then {} else
    var pre, a := h[..|h| - 1], h[|h| - 1];
    match a
    case Put(e) => Live(pre) + {e}
    case Drop(e) => Live(pre) - {e}
    case Pop => Live(pre) - set e | e in Live(pre) && First(Stamps(pre), e, Live(pre)) :: e
  }

  /** `e` precedes every other entry of `live`. */
  ghost predicate First(st: Entry -> int, e: Entry, live: set<Entry>) {
    forall x :: x in live && x != e ==> Precedes(st, e, x)
  }

  /** In an ordered list the first entry is the one that precedes all others. */
  lemma {:induction false} HeadIsFirst(st: Entry -> int, s: seq<Entry>, live: set<Entry>, e: Entry)
    requires s != [] && Ordered(st, s) && e in live && forall x :: x in s <==> x in live
    ensures First(st, e, live) <==> e == s[0]
  {
    if e == s[0] {
      forall x | x in live && x != e ensures Precedes(st, e, x) {
        var i :| 0 <= i < |s| && s[i] == x;
        assert 0 < i;
      }
    } else {
      var i :| 0 <= i < |s| && s[i] == e;
      assert Precedes(st, s[0], s[i]);
      assert s[0] in live && !Precedes(st, e, s[0]);
    }
  }

  /** After any run the list holds exactly the live entries: erasing takes the given entry and
      nothing else, popping the first in the promised order. */
  lemma {:induction false} RunHoldsLive(h: seq<Action>)
    requires Legal(h)
    ensures forall e :: e in Run(h) <==> e in Live(h)
    decreases |h|
  {
    if h != [] {
      var pre := h[..|h| - 1];
      var s, st := Run(pre), Stamps(pre);
      RunHoldsLive(pre);
      RunIsOrdered(pre);
      OrderedImplies(st, s);
      match h[|h| - 1]
      case Put(e) => InsertAdds(s, BY_KEY, e);
      case Drop(e) => EraseRemoves(s, e);
      case Pop =>
        TailKeeps(s, BY_KEY);
        forall e | e in Live(pre) ensures First(st, e, Live(pre)) <==> e == s[0] {
          HeadIsFirst(st, s, Live(pre), e);
        }
    }
  }
}
