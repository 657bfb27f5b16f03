/** The pending timers of the poll loop, on the linked list: in every run of the loop the list, with the
    calls the loop makes on it, holds exactly the loop's timers. */
module Timers {
  import L = SortedList
  import opened PollLoop

  function TimerOf(n: L.Node): Timer {
    Timer(n.id, n.value)
  }

  /** What the nodes stand for. */
  ghost predicate StandFor(nodes: seq<L.Node>, pending: seq<Timer>) {
    |pending| == |nodes| && forall i {:trigger pending[i]} :: 0 <= i < |nodes| ==> pending[i] == TimerOf(nodes[i])
  }

  lemma {:induction false} RankAgrees(nodes: seq<L.Node>, pending: seq<Timer>, k: int)
    requires StandFor(nodes, pending)
    ensures L.Rank(nodes, L.BY_VALUE, k) == L.Rank(pending, BY_DEADLINE, k)
  {
    var r := L.Rank(nodes, L.BY_VALUE, k);
    assert forall i :: 0 <= i < r ==> L.BY_VALUE(nodes[i]) < k;
    assert r < |nodes| ==> k <= L.BY_VALUE(nodes[r]);
    L.RankIs(pending, BY_DEADLINE, k, r);
  }

  /** Every node in the list is its operation's own. */
  ghost predicate Owned(nodes: seq<L.Node>, node: map<nat, L.Node>) {
    && (forall n :: n in nodes ==> n.id in node && node[n.id] == n)
    && forall op :: op in node ==> node[op].id == op
  }

  lemma {:induction false} NodePends(nodes: seq<L.Node>, pending: seq<Timer>, n: L.Node)
    requires StandFor(nodes, pending) && n in nodes
    ensures TimerOf(n) in pending
  {
    var i :| 0 <= i < |nodes| && nodes[i] == n;
    assert pending[i] == TimerOf(n);
  }

  lemma {:induction false} StandForInsert(nodes: seq<L.Node>, pending: seq<Timer>, n: L.Node)
    requires StandFor(nodes, pending)
    ensures StandFor(L.Insert(nodes, L.BY_VALUE, n), L.Insert(pending, BY_DEADLINE, TimerOf(n)))
  {
    RankAgrees(nodes, pending, n.value);
  }

  lemma {:induction false} OwnedInsert(nodes: seq<L.Node>, node: map<nat, L.Node>, n: L.Node)
    requires Owned(nodes, node) && L.Distinct(nodes) && n !in nodes
    requires forall m :: m in nodes ==> m.id != n.id
    ensures Owned(L.Insert(nodes, L.BY_VALUE, n), node[n.id := n])
  {
    L.InsertAdds(nodes, L.BY_VALUE, n);
  }

  /** The nodes in the list stand for the pending timers, and belong to their operations and to `repr`. */
  ghost predicate Tied(nodes: seq<L.Node>, pending: seq<Timer>, node: map<nat, L.Node>, repr: set<object>) {
    StandFor(nodes, pending) && Owned(nodes, node) && Within(nodes, repr)
  }

  ghost predicate Within(nodes: seq<L.Node>, repr: set<object>) {
    forall n :: n in nodes ==> n in repr
  }

  lemma {:induction false} InsertTies(nodes: seq<L.Node>, pending: seq<Timer>, node: map<nat, L.Node>,
                                      repr: set<object>, n: L.Node)
    requires Tied(nodes, pending, node, repr) && L.Distinct(nodes)
    requires forall t :: t in pending ==> t.op != n.id
    ensures n !in nodes
    ensures Tied(L.Insert(nodes, L.BY_VALUE, n), L.Insert(pending, BY_DEADLINE, TimerOf(n)),
                 node[n.id := n], repr + {n})
  {
    forall m | m in nodes ensures m.id != n.id {
      NodePends(nodes, pending, m);
    }
    StandForInsert(nodes, pending, n);
    OwnedInsert(nodes, node, n);
    L.InsertAdds(nodes, L.BY_VALUE, n);
  }

  /** The node of `t` and `t` itself are at the same places. */
  lemma {:induction false} SamePlace(nodes: seq<L.Node>, pending: seq<Timer>, node: map<nat, L.Node>, t: Timer, k: nat)
    requires StandFor(nodes, pending) && Owned(nodes, node) && t.op in node && k < |nodes|
    requires forall u :: u in pending && u.op == t.op ==> u == t
    ensures pending[k] == t <==> nodes[k] == node[t.op]
  {
    assert nodes[k] in nodes && pending[k] in pending;
  }

  lemma {:induction false} StandForDrop(nodes: seq<L.Node>, pending: seq<Timer>, i: nat)
    requires StandFor(nodes, pending) && i < |nodes|
    ensures StandFor(nodes[..i] + nodes[i + 1..], pending[..i] + pending[i + 1..])
  {
  }

  /** Erasing the operation's node by identity is erasing its timer. */
  lemma {:induction false} EraseAgrees(nodes: seq<L.Node>, pending: seq<Timer>, node: map<nat, L.Node>, t: Timer)
    requires StandFor(nodes, pending) && Owned(nodes, node) && t.op in node
    requires forall u :: u in pending && u.op == t.op ==> u == t
    ensures node[t.op] in nodes <==> t in pending
    ensures StandFor(L.Erase(nodes, node[t.op]), L.Erase(pending, t))
  {
    var i := L.IndexOf(nodes, node[t.op]);
    forall k | 0 <= k < |nodes| && k <= i ensures pending[k] == t <==> nodes[k] == node[t.op] {
      SamePlace(nodes, pending, node, t, k);
    }
    L.IndexIs(pending, t, i);
    if i < |nodes| {
      StandForDrop(nodes, pending, i);
    }
  }

  lemma {:induction false} OwnedPart(nodes: seq<L.Node>, node: map<nat, L.Node>, part: seq<L.Node>)
    requires Owned(nodes, node) && forall n :: n in part ==> n in nodes
    ensures Owned(part, node)
  {
  }

  lemma {:induction false} EraseTies(nodes: seq<L.Node>, pending: seq<Timer>, node: map<nat, L.Node>,
                                     repr: set<object>, t: Timer)
    requires Tied(nodes, pending, node, repr) && L.Distinct(nodes) && t.op in node
    requires forall u :: u in pending && u.op == t.op ==> u == t
    ensures node[t.op] in nodes <==> t in pending
    ensures Tied(L.Erase(nodes, node[t.op]), L.Erase(pending, t), node, repr)
  {
    EraseAgrees(nodes, pending, node, t);
    L.EraseRemoves(nodes, node[t.op]);
    OwnedPart(nodes, node, L.Erase(nodes, node[t.op]));
  }

  lemma {:induction false} PopTies(nodes: seq<L.Node>, pending: seq<Timer>, node: map<nat, L.Node>, repr: set<object>)
    requires Tied(nodes, pending, node, repr) && nodes != []
    ensures Tied(nodes[1..], pending[1..], node, repr) && pending[0] == TimerOf(nodes[0])
  {
    forall n | n in nodes[1..] ensures n in nodes {
    }
    OwnedPart(nodes, node, nodes[1..]);
  }

  lemma {:induction false} NotOwned(nodes: seq<L.Node>, pending: seq<Timer>, node: map<nat, L.Node>, t: Timer)
    requires StandFor(nodes, pending) && Owned(nodes, node) && t.op !in node
    ensures t !in pending
  {
    forall i | 0 <= i < |pending| ensures pending[i] != t {
      assert nodes[i] in nodes;
    }
  }

  class TimerQueue {
    const list: L.SortedList
    var node: map<nat, L.Node>  // the operation's own node
    ghost var pending: seq<Timer>
    ghost var repr: set<object>

    ghost predicate Valid()
      reads this, repr
    {
      && this in repr && list in repr && Within(list.nodes, repr)
      && list.Valid() && Tied(list.nodes, pending, node, repr)
    }

    constructor ()
      ensures Valid() && pending == [] && fresh(repr)
    {
      list := new L.SortedList();
      node, pending := map[], [];
      new;
      repr := {this, list};
    }

    /** `value_or` */
    method ValueOr(v: int) returns (r: int)
      requires Valid()
      ensures r == if pending == [] then v else pending[0].deadline
    {
      r := list.ValueOr(v);
    }

    method Empty() returns (r: bool)
      requires Valid()
      ensures r <==> pending == []
    {
      r := list.Empty();
    }

    /** `pop_front` */
    method PopFront() returns (op: nat)
      requires Valid() && pending != []
      modifies repr
      ensures Valid() && repr == old(repr)
      ensures op == old(pending[0].op) && pending == old(pending[1..])
    {
      PopTies(list.nodes, pending, node, repr);
      var n := list.PopFront();
      op := n.id;
      pending := pending[1..];
    }

    /** `insert` of the operation. */
    method Add(op: nat, deadline: int)
      requires Valid() && forall t :: t in pending ==> t.op != op
      modifies repr
      ensures Valid() && fresh(repr - old(repr))
      ensures pending == L.Insert(old(pending), BY_DEADLINE, Timer(op, deadline))
    {
      var n := new L.Node(op, deadline);
      InsertTies(list.nodes, pending, node, repr, n);
      list.InsertNode(n);
      node, repr := node[op := n], repr + {n};
      pending := L.Insert(pending, BY_DEADLINE, Timer(op, deadline));
    }

    /** `erase` of a node by identity; `t` is its timer if it is pending. */
    method EraseNode(n: L.Node, ghost t: Timer) returns (ok: bool)
      requires Valid() && t.op in node && node[t.op] == n
      requires forall u :: u in pending && u.op == t.op ==> u == t
      modifies repr
      ensures Valid() && repr == old(repr) && (ok <==> t in old(pending))
      ensures pending == L.Erase(old(pending), t)
    {
      ghost var left := L.Erase(list.nodes, n);
      EraseTies(list.nodes, pending, node, repr, t);
      var found := list.EraseNode(n);
      ok := found != null;
      pending := L.Erase(pending, t);
      assert list.nodes == left && Tied(left, pending, node, repr);
    }

    /** `erase` of an operation: false if it is not pending. */
    method Erase(op: nat, ghost deadline: int) returns (ok: bool)
      requires Valid() && forall t :: t in pending && t.op == op ==> t == Timer(op, deadline)
      modifies repr
      ensures Valid() && repr == old(repr) && (ok <==> Timer(op, deadline) in old(pending))
      ensures pending == L.Erase(old(pending), Timer(op, deadline))
    {
      if op in node {
        ok := EraseNode(node[op], Timer(op, deadline));
      } else {
        NotOwned(list.nodes, pending, node, Timer(op, deadline));
        NothingToErase(pending, Timer(op, deadline));
        ok := false;
      }
    }

    /** What an action of the loop does to the list: an operation whose time has not come is inserted, a
        due timer is popped, and a stop request erases, if it comes as far as the list. */
    method Follow(l: Loop, a: Action)
      requires Valid() && Inv(l) && Enabled(l, a) && pending == l.timeouts
      modifies repr
      ensures Valid() && fresh(repr - old(repr)) && pending == Step(l, a).timeouts
    {
      StepTimers(l, a);
      match a {
        case Begin(op, r, _, now) =>
          if r.ResumeAt? && now < r.deadline {
            NotHeldIsNew(l, op);
            Add(op, r.deadline);
          }
        case RequestStop(op) =>
          if l.ops[op].counter.armed && op !in l.outstanding {
            OneTimer(l, op);
            var _ := Erase(op, DeadlineOf(l.ops[op].request));
          }
        case FireTimer(_) =>
          var _ := PopFront();
        case _ =>
      }
    }
  }

  function DeadlineOf(r: Request): int {
    if r.ResumeAt? then r.deadline else 0
  }

  lemma {:induction false} OneTimer(l: Loop, op: nat)
    requires TimersOk(l) && op in l.ops
    ensures forall t :: t in l.timeouts && t.op == op ==> t == Timer(op, DeadlineOf(l.ops[op].request))
  {
    forall t | t in l.timeouts && t.op == op ensures t == Timer(op, DeadlineOf(l.ops[op].request)) {
      TimerEntries(l, t);
    }
  }

  lemma {:induction false} NothingToErase(s: seq<Timer>, t: Timer)
    requires t !in s
    ensures L.Erase(s, t) == s
  {
  }

  lemma {:induction false} StopTimers(l: Loop, op: nat)
    requires Inv(l) && Enabled(l, RequestStop(op))
    ensures StopOp(l, op).timeouts ==
            if l.ops[op].counter.armed && op !in l.outstanding
            then L.Erase(l.timeouts, Timer(op, DeadlineOf(l.ops[op].request))) else l.timeouts
  {
    assert OpOk(l, op);
    var t := Timer(op, DeadlineOf(l.ops[op].request));
    if t !in l.timeouts {
      NothingToErase(l.timeouts, t);
    } else {
      TimerEntries(l, t);
    }
  }

  lemma {:induction false} BeginTimers(l: Loop, op: nat, r: Request, inline: ConnectNow, now: int)
    requires SocketLive(l, r)
    ensures BeginOp(l, op, r, inline, now).timeouts ==
            if r.ResumeAt? && now < r.deadline then L.Insert(l.timeouts, BY_DEADLINE, Timer(op, r.deadline))
            else l.timeouts
  {
  }

  /** What each action makes of the loop's timers. */
  lemma {:induction false} StepTimers(l: Loop, a: Action)
    requires Inv(l) && Enabled(l, a)
    ensures Step(l, a).timeouts ==
            match a
            case Begin(op, r, _, now) =>
              if r.ResumeAt? && now < r.deadline then L.Insert(l.timeouts, BY_DEADLINE, Timer(op, r.deadline))
              else l.timeouts
            case RequestStop(op) =>
              if l.ops[op].counter.armed && op !in l.outstanding
              then L.Erase(l.timeouts, Timer(op, DeadlineOf(l.ops[op].request))) else l.timeouts
            case FireTimer(_) => l.timeouts[1..]
            case _ => l.timeouts
  {
    match a
    case Begin(op, r, inline, now) => BeginTimers(l, op, r, inline, now);
    case RequestStop(op) => StopTimers(l, op);
    case Dispatch(report, _, _) => assert Registered(l, LastHit(l.poll, report, |l.poll|));
    case _ =>
  }

  /** Beside any run of the loop, the list holds exactly the loop's timers; and as a valid list it has them
      linked by deadline, the one inserted last first among equal deadlines. */
  method Replay(h: seq<Action>) returns (q: TimerQueue, l: Loop)
    requires Legal(EMPTY, h)
    ensures l == Exec(EMPTY, h)
    ensures q.Valid() && fresh(q) && fresh(q.repr) && q.pending == l.timeouts
    decreases |h|
  {
    if h == [] {
      q := new TimerQueue();
      l := EMPTY;
    } else {
      var before: Loop;
      q, before := Replay(h[..|h| - 1]);
      q.Follow(before, h[|h| - 1]);
      l := Step(before, h[|h| - 1]);
    }
  }
}
