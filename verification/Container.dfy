/** `container`: the slot table behind socket identifiers, with its free list threaded through the
    unused slots. */
module Container {

  datatype Slot<R> = Free(next: nat) | Used(record: R)

  /** `socket_id` has 32 bits; its largest value means "invalid". */
  const ID_RANGE := 0x1_0000_0000
  const INVALID := 0xFFFF_FFFF

  function SocketId(slot: nat): nat {
    slot % ID_RANGE
  }

  datatype Table<R> = Table(records: seq<Slot<R>>, free: nat)

  /** The finite map a table stands for. */
  function Live<R>(t: Table<R>): map<nat, R> {
    map i: nat | i < |t.records| && t.records[i].Used? :: t.records[i].record
  }

  /** `chain` is what the free list visits from `free` on: every unused slot, each once, no other
      slot, and then the length of the table. */
  ghost predicate Chained<R>(t: Table<R>, chain: seq<nat>) {
    && t.free == Link(t, chain, 0)
    && (forall k :: 0 <= k < |chain| ==> chain[k] < |t.records|)
    && (forall k {:trigger t.records[chain[k]]} :: 0 <= k < |chain| ==>
         t.records[chain[k]] == Free(Link(t, chain, k + 1)))
    && (forall i, j :: 0 <= i < j < |chain| ==> chain[i] != chain[j])
    && (forall i :: 0 <= i < |t.records| && t.records[i].Free? ==> i in chain)
  }

  ghost function Link<R>(t: Table<R>, chain: seq<nat>, k: nat): nat {
    if k < |chain| then chain[k] else |t.records|
  }

  /** What `insert` relies on: the head of the free list is an unused slot or the end. */
  predicate Usable<R>(t: Table<R>) {
    t.free <= |t.records| && (t.free < |t.records| ==> t.records[t.free].Free?)
  }

  /** `insert`; the record goes to slot `t.free`. */
  function Insert<R>(t: Table<R>, r: R): Table<R>
    requires Usable(t)
  {
    if t.free == |t.records| then Table(t.records + [Used(r)], t.free + 1)
    else Table(t.records[t.free := Used(r)], t.records[t.free].next)
  }

  function Erase<R>(t: Table<R>, slot: nat): Table<R>
    requires slot < |t.records|
  {
    Table(t.records[slot := Free(t.free)], slot)
  }

  function Rest(chain: seq<nat>): seq<nat> {
    if chain == [] then [] else chain[1..]
  }

  lemma {:induction false} ReuseKeepsChain<R>(t: Table<R>, chain: seq<nat>, r: R)
    requires Chained(t, chain) && chain != []
    ensures Usable(t) && Chained(Insert(t, r), chain[1..])
  {
    assert t.records[chain[0]] == Free(Link(t, chain, 1));
    var t', rest := Insert(t, r), chain[1..];
    assert forall k :: 0 <= k < |rest| ==> rest[k] == chain[k + 1];
    forall k | 0 <= k < |rest| ensures t'.records[rest[k]] == Free(Link(t', rest, k + 1)) {
      assert t.records[chain[k + 1]] == Free(Link(t, chain, k + 2));
    }
    forall i | 0 <= i < |t'.records| && t'.records[i].Free? ensures i in rest {
      var k :| 0 <= k < |chain| && chain[k] == i;
      assert rest[k - 1] == i;
    }
  }

  lemma {:induction false} InsertKeepsChain<R>(t: Table<R>, chain: seq<nat>, r: R)
    requires Chained(t, chain)
    ensures Usable(t) && Chained(Insert(t, r), Rest(chain))
  {
    if chain != [] {
      ReuseKeepsChain(t, chain, r);
    } else {
      assert t.free == Link(t, chain, 0);
    }
  }

  lemma {:induction false} InsertIsUpdate<R>(t: Table<R>, r: R)
    requires Usable(t)
    ensures t.free !in Live(t) && Live(Insert(t, r)) == Live(t)[t.free := r]
  {
  }

  /** Inserting adds one entry under an identifier that is not live and touches no other; the table
      grows only when every slot is used. */
  lemma {:induction false} InsertRefines<R>(t: Table<R>, chain: seq<nat>, r: R)
    requires Chained(t, chain)
    ensures Usable(t) && t.free !in Live(t)
    ensures Chained(Insert(t, r), Rest(chain))
    ensures Live(Insert(t, r)) == Live(t)[t.free := r]
    ensures |Insert(t, r).records| == |t.records| + if chain == [] then 1 else 0
  {
    InsertKeepsChain(t, chain, r);
    InsertIsUpdate(t, r);
    assert t.free == Link(t, chain, 0);
  }

  lemma {:induction false} EraseKeepsChain<R>(t: Table<R>, chain: seq<nat>, slot: nat)
    requires Chained(t, chain) && slot in Live(t)
    ensures Chained(Erase(t, slot), [slot] + chain)
  {
    var t', chain' := Erase(t, slot), [slot] + chain;
    assert forall k :: 0 <= k < |chain| ==> chain[k] != slot by {
      assert forall k :: 0 <= k < |chain| ==> t.records[chain[k]].Free?;
    }
    forall k | 0 <= k < |chain'| ensures t'.records[chain'[k]] == Free(Link(t', chain', k + 1)) {
      assert k > 0 ==> t.records[chain[k - 1]] == Free(Link(t, chain, k));
    }
    forall i | 0 <= i < |t'.records| && t'.records[i].Free? ensures i in chain' {
      assert i == slot || t.records[i].Free?;
    }
  }

  /** Erasing removes the given entry and touches no other. */
  lemma {:induction false} EraseRefines<R>(t: Table<R>, chain: seq<nat>, slot: nat)
    requires Chained(t, chain) && slot in Live(t)
    ensures Chained(Erase(t, slot), [slot] + chain)
    ensures Live(Erase(t, slot)) == Live(t) - {slot}
  {
    EraseKeepsChain(t, chain, slot);
  }

  class Container<R> {
    var records: seq<Slot<R>>
    var free: nat
    ghost var chain: seq<nat>

    function Model(): Table<R>
      reads this
    {
      Table(records, free)
    }

    ghost predicate Valid()
      reads this
    {
      Chained(Model(), chain)
    }

    /** The live entries. */
    function Entries(): map<nat, R>
      reads this
    {
      Live(Model())
    }

    constructor ()
      ensures Valid() && Model() == Table([], 0) && Entries() == map[]
    {
      records, free, chain := [], 0, [];
    }

    method InsertRecord(r: R) returns (id: nat)
      requires Valid()
      modifies this
      ensures Valid() && Model() == Insert(old(Model()), r)
      ensures old(free) !in old(Entries()) && Entries() == old(Entries())[old(free) := r]
      ensures id == old(free) % 0x1_0000_0000
      ensures id == old(free) && id != INVALID <==> old(free) < INVALID
    {
      InsertRefines(Model(), chain, r);
      if free == |records| {
        records := records + [Used(r)];
        id := SocketId(free);
        free := free + 1;
      } else {
        var rc := free;
        free := records[free].next;
        records := records[rc := Used(r)];
        id := SocketId(rc);
      }
      chain := Rest(chain);
    }

    lemma {:induction false} UsableNow()
      requires Valid()
      ensures Usable(Model())
    {
      assert free == Link(Model(), chain, 0);
    }

    method EraseRecord(id: nat)
      requires Valid() && id in Entries()
      modifies this
      ensures Valid() && Model() == Erase(old(Model()), id)
      ensures Entries() == old(Entries()) - {id}
    {
      EraseRefines(Model(), chain, id);
      records := records[id := Free(free)];
      free := id;
      chain := [id] + chain;
    }

    /** `operator[]`: the precondition is the assertion it makes. */
    method Get(id: nat) returns (r: R)
      requires id in Entries()
      ensures r == Entries()[id]
    {
      r := records[id].record;
    }
  }

  // ---- whole runs ----

  datatype Action<R> = Put(r: R) | Drop(slot: nat)

  function Step<R>(t: Table<R>, a: Action<R>): Table<R> {
    match a
    case Put(r) => if Usable(t) then Insert(t, r) else t
    case Drop(slot) => if slot < |t.records| then Erase(t, slot) else t
  }

  function Run<R>(h: seq<Action<R>>): Table<R> {
    if h == [] then Table([], 0) else Step(Run(h[..|h| - 1]), h[|h| - 1])
  }

  /** Only live entries are erased. */
  ghost predicate Legal<R>(h: seq<Action<R>>) {
    h == [] ||
    var pre, a := h[..|h| - 1], h[|h| - 1];
    Legal(pre) && (a.Drop? ==> a.slot in Live(Run(pre)))
  }

  /** In every run the free list is well formed, so insertion never finds a used slot. */
  lemma {:induction false} RunIsChained<R>(h: seq<Action<R>>) returns (chain: seq<nat>)
    requires Legal(h)
    ensures Chained(Run(h), chain)
  {
    if h == [] {
      chain := [];
    } else {
      var t := Run(h[..|h| - 1]);
      var c := RunIsChained(h[..|h| - 1]);
      match h[|h| - 1]
      case Put(r) =>
        InsertRefines(t, c, r);
        chain := Rest(c);
      case Drop(slot) =>
        EraseRefines(t, c, slot);
        chain := [slot] + c;
    }
  }

  /** The most entries that were ever live at the same time. */
  function Peak<R>(h: seq<Action<R>>): nat
  {
    if h == [] then 0 else
    var before, now := Peak(h[..|h| - 1]), |Live(Run(h))|;
    if before < now then now else before
  }

  ghost function Below(n: nat): (r: set<nat>)
    ensures |r| == n
    ensures forall i: nat :: i in r <==> i < n
  {
    if n == 0 then {} else Below(n - 1) + {n - 1}
  }

  lemma {:induction false} Subset<T>(a: set<T>, b: set<T>)
    requires a <= b
    ensures |a| <= |b|
  {
    assert b == a + (b - a);
  }

  lemma {:induction false} AllUsed<R>(t: Table<R>)
    requires forall i :: 0 <= i < |t.records| ==> t.records[i].Used?
    ensures |Live(t)| == |t.records|
  {
    assert Live(t).Keys == Below(|t.records|);
  }

  lemma {:induction false} OneUnused<R>(t: Table<R>, slot: nat)
    requires slot < |t.records| && t.records[slot].Free?
    ensures |Live(t)| < |t.records|
  {
    assert Live(t).Keys <= Below(|t.records|) - {slot};
    Subset(Live(t).Keys, Below(|t.records|) - {slot});
  }

  /** A table with an unused slot has fewer live entries than slots; one without has as many. */
  lemma {:induction false} LiveCount<R>(t: Table<R>, chain: seq<nat>)
    requires Chained(t, chain)
    ensures if chain == [] then |Live(t)| == |t.records| else |Live(t)| < |t.records|
  {
    if chain == [] {
      AllUsed(t);
    } else {
      assert t.records[chain[0]].Free?;
      OneUnused(t, chain[0]);
    }
  }

  /** The table is never longer than the peak demand, and never shorter. */
  lemma {:induction false} LengthIsPeak<R>(h: seq<Action<R>>)
    requires Legal(h)
    ensures |Run(h).records| == Peak(h)
  {
    if h != [] {
      var pre := h[..|h| - 1];
      var t := Run(pre);
      LengthIsPeak(pre);
      var chain := RunIsChained(pre);
      LiveCount(t, chain);
      match h[|h| - 1]
      case Put(r) =>
        InsertRefines(t, chain, r);
        LiveCount(Run(h), Rest(chain));
      case Drop(slot) =>
        EraseRefines(t, chain, slot);
        Subset(Live(Run(h)).Keys, Live(t).Keys);
    }
  }
}
