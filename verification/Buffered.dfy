/** `basic_buffered`: reading up to a sentinel through a fixed, compacting buffer, over a stream that
    arrives in arbitrary chunks. */
module Buffered {

  const SIZE: nat := 1024

  datatype Sentinel = Char(c: char) | Text(text: string)

  function Pattern(s: Sentinel): string {
    match s case Char(c) => [c] case Text(t) => t
  }

  /** How much of the buffer `consume` holds back when it finds no sentinel: nothing for a character,
      the size of the array for a string literal, which counts the terminating null character. */
  function Kept(s: Sentinel): nat {
    match s case Char(_) => 0 case Text(t) => |t| + 1
  }

  // ---- searching ----

  predicate OccursAt(s: string, p: string, k: nat) {
    k + |p| <= |s| && s[k..k + |p|] == p
  }

  ghost predicate Occurs(s: string, p: string) {
    exists k :: OccursAt(s, p, k)
  }

  /** `std::search` and `std::find`: the first occurrence, or the length when there is none. */
  function Search(s: string, p: string): (r: nat)
    ensures r <= |s|
    ensures r < |s| ==> OccursAt(s, p, r)
    ensures forall k :: 0 <= k < r ==> !OccursAt(s, p, k)
  {
    SearchFrom(s, p, 0)
  }

  function SearchFrom(s: string, p: string, from: nat): (r: nat)
    requires from <= |s|
    ensures from <= r <= |s|
    ensures r < |s| ==> OccursAt(s, p, r)
    ensures forall k :: from <= k < r ==> !OccursAt(s, p, k)
    decreases |s| - from
  {
    if from == |s| || OccursAt(s, p, from) then from else SearchFrom(s, p, from + 1)
  }

  function Min(a: nat, b: nat): nat {
    if a < b then a else b
  }

  // ---- what a read means ----

  /** The result of one read: whether the sentinel was found, what was appended, what is left of the
      buffered and unread bytes together. */
  datatype Result = Result(found: bool, appended: string, rest: string)

  /** What is promised: split at the first sentinel. Without one everything is appended or kept. */
  ghost predicate SplitsAtFirst(all: string, p: string, r: Result) {
    if Occurs(all, p) then
      && r.found
      && all == r.appended + p + r.rest
      && forall k :: 0 <= k < |r.appended| ==> !OccursAt(all, p, k)
    else
      !r.found && all == r.appended + r.rest
  }

  /** The bytes a read can get to see: all of them, unless what it holds back fills the buffer. */
  function Visible(all: string, s: Sentinel): string {
    if Kept(s) < SIZE then all else all[..Min(|all|, SIZE)]
  }

  /** The outcome of a read as a function of the remaining bytes alone. */
  function Outcome(all: string, s: Sentinel): Result {
    var v := Visible(all, s);
    var k := Search(v, Pattern(s));
    if k < |v| then Result(true, all[..k], all[k + |Pattern(s)|..])
    else
      var a := |v| - Min(|v|, Kept(s));
      Result(false, all[..a], all[a..])
  }

  lemma {:induction false} OccursIff(s: string, p: string)
    requires s != ""
    ensures Occurs(s, p) <==> Search(s, p) < |s|
  {
  }

  lemma {:induction false} SearchIs(s: string, p: string, r: nat)
    requires r <= |s| && (r < |s| ==> OccursAt(s, p, r))
    requires forall k :: 0 <= k < r ==> !OccursAt(s, p, k)
    ensures Search(s, p) == r
  {
  }

  lemma {:induction false} VisibleOccurs(all: string, s: Sentinel, k: nat)
    ensures OccursAt(Visible(all, s), Pattern(s), k) ==> OccursAt(all, Pattern(s), k)
  {
    var v := Visible(all, s);
    assert k + |Pattern(s)| <= |v| ==> v[k..k + |Pattern(s)|] == all[k..k + |Pattern(s)|];
  }

  /** What a read consumes: what it appends, and the sentinel it skips. */
  function Passed(r: Result, s: Sentinel): string {
    r.appended + if r.found then Pattern(s) else ""
  }

  lemma {:induction false} CutAround(all: string, p: string, k: nat)
    requires OccursAt(all, p, k)
    ensures all == (all[..k] + p) + all[k + |p|..]
  {
    assert all[..k + |p|] == all[..k] + all[k..k + |p|];
  }

  lemma {:induction false} PartsOf(all: string, s: Sentinel)
    ensures all == Passed(Outcome(all, s), s) + Outcome(all, s).rest
  {
    var v, p := Visible(all, s), Pattern(s);
    var k := Search(v, p);
    if k < |v| {
      VisibleOccurs(all, s, k);
      CutAround(all, p, k);
    }
  }

  /** A sentinel the reader can handle. */
  predicate Manageable(s: Sentinel) {
    s.Char? || 1 <= |s.text| <= SIZE - 2
  }

  lemma {:induction false} ManageableSplits(all: string, s: Sentinel)
    requires Manageable(s)
    ensures SplitsAtFirst(all, Pattern(s), Outcome(all, s))
  {
    PartsOf(all, s);
    if all != "" {
      OccursIff(all, Pattern(s));
    }
  }

  /** For an empty sentinel, an empty stream. For a long one, a stream in which it begins at the third
      byte: the buffer fills up with the first 1024 bytes, which do not contain it, all of them are
      held back, and the empty window then looks like the end of the stream. */
  function Witness(s: Sentinel): string {
    if s.Char? || s.text == "" then "" else
    var c := if s.text[0] == 'a' then 'b' else 'a';
    [c, c] + s.text
  }

  lemma {:induction false} OtherHead(s: string, p: string, k: nat)
    requires k < |s| && p != "" && s[k] != p[0]
    ensures !OccursAt(s, p, k)
  {
    assert k + |p| <= |s| ==> s[k..k + |p|][0] == s[k];
  }

  lemma {:induction false} UnmanageableFails(s: Sentinel)
    requires !Manageable(s)
    ensures !SplitsAtFirst(Witness(s), Pattern(s), Outcome(Witness(s), s))
  {
    var all, p := Witness(s), Pattern(s);
    if p == "" {
      assert OccursAt(all, p, 0);
    } else {
      assert OccursAt(all, p, 2);
      var v := Visible(all, s);
      forall k | 0 <= k < |v| ensures !OccursAt(v, p, k) {
        if k < 2 {
          OtherHead(v, p, k);
        }
      }
      SearchIs(v, p, |v|);
    }
  }

  /** For every stream and every way to cut it into chunks, a read splits at the first sentinel, if
      and only if the sentinel is a character or a literal of 1 to 1022 characters. */
  lemma {:induction false} SplitsExactlyWhen(s: Sentinel)
    ensures (forall all :: SplitsAtFirst(all, Pattern(s), Outcome(all, s))) <==> Manageable(s)
  {
    if Manageable(s) {
      forall all ensures SplitsAtFirst(all, Pattern(s), Outcome(all, s)) {
        ManageableSplits(all, s);
      }
    } else {
      UnmanageableFails(s);
    }
  }

  /** The first occurrence ends within the first `SIZE` bytes of what is still to be read. */
  predicate EndsInBuffer(all: string, p: string) {
    all != "" && Search(all, p) + |p| <= SIZE
  }

  lemma {:induction false} EmptySplits(all: string, s: Sentinel)
    requires Pattern(s) == ""
    ensures SplitsAtFirst(all, "", Outcome(all, s)) <==> all != ""
  {
    assert OccursAt(all, "", 0);
    if all != "" {
      SearchIs(all, "", 0);
      assert Visible(all, s) == all && all[..0] == "" && all[0..] == all;
      assert all == Outcome(all, s).appended + "" + Outcome(all, s).rest;
    }
  }

  /** What a read for a long sentinel finds: an occurrence within the first `SIZE` bytes. */
  lemma {:induction false} LongVisible(all: string, s: Sentinel, k: nat)
    requires Pattern(s) != "" && !Manageable(s)
    ensures OccursAt(Visible(all, s), Pattern(s), k) <==> OccursAt(all, Pattern(s), k) && k + |Pattern(s)| <= SIZE
  {
    var p, v := Pattern(s), Visible(all, s);
    VisibleOccurs(all, s, k);
    assert k + |p| <= |v| ==> v[k..k + |p|] == all[k..k + |p|];
  }

  lemma {:induction false} LongMissed(all: string, s: Sentinel)
    requires Pattern(s) != "" && !Manageable(s)
    requires forall k: nat :: OccursAt(all, Pattern(s), k) ==> k + |Pattern(s)| > SIZE
    ensures !Outcome(all, s).found
  {
    var p, v := Pattern(s), Visible(all, s);
    forall k | 0 <= k < |v| ensures !OccursAt(v, p, k) {
      LongVisible(all, s, k);
    }
    SearchIs(v, p, |v|);
  }

  lemma {:induction false} LongFound(all: string, s: Sentinel)
    requires Pattern(s) != "" && !Manageable(s) && EndsInBuffer(all, Pattern(s)) && Occurs(all, Pattern(s))
    ensures Outcome(all, s).found && |Outcome(all, s).appended| == Search(all, Pattern(s))
  {
    var p, v := Pattern(s), Visible(all, s);
    OccursIff(all, p);
    var r := Search(all, p);
    LongVisible(all, s, r);
    forall k | 0 <= k < r ensures !OccursAt(v, p, k) {
      LongVisible(all, s, k);
    }
    SearchIs(v, p, r);
  }

  lemma {:induction false} LongSplits(all: string, s: Sentinel)
    requires Pattern(s) != "" && !Manageable(s)
    ensures SplitsAtFirst(all, Pattern(s), Outcome(all, s)) <==>
            !Occurs(all, Pattern(s)) || EndsInBuffer(all, Pattern(s))
  {
    var p := Pattern(s);
    PartsOf(all, s);
    if !Occurs(all, p) {
      LongMissed(all, s);
    } else {
      OccursIff(all, p);
      if EndsInBuffer(all, p) {
        LongFound(all, s);
      } else {
        LongMissed(all, s);
      }
    }
  }

  /** Stream by stream: a read splits at the first sentinel if and only if the sentinel is manageable,
      or does not occur, or its first occurrence ends within the first 1024 bytes. */
  lemma {:induction false} SplitsExactly(all: string, s: Sentinel)
    ensures SplitsAtFirst(all, Pattern(s), Outcome(all, s)) <==>
            Manageable(s) || !Occurs(all, Pattern(s)) || EndsInBuffer(all, Pattern(s))
  {
    if Manageable(s) {
      ManageableSplits(all, s);
    } else if Pattern(s) == "" {
      EmptySplits(all, s);
      assert OccursAt(all, "", 0);
      assert all != "" ==> Search(all, "") == 0;
    } else {
      LongSplits(all, s);
    }
  }

  // ---- what a read says of its bytes ----

  /** A read up to a character: it finds it if it is there, appends what precedes it and skips it; if it
      is not there it appends everything. */
  lemma {:induction false} CharacterRead(all: string, c: char)
    ensures var r := Outcome(all, Char(c));
            && (r.found <==> c in all)
            && (r.found ==> all == r.appended + [c] + r.rest && c !in r.appended)
            && (!r.found ==> r.appended == all && r.rest == "")
  {
    var r := Outcome(all, Char(c));
    ManageableSplits(all, Char(c));
    forall k | 0 <= k < |all| ensures OccursAt(all, [c], k) <==> all[k] == c {
      assert all[k..k + 1] == [all[k]];
    }
    if r.found {
      forall k | 0 <= k < |r.appended| ensures r.appended[k] != c {
        assert all[k] == r.appended[k];
      }
      assert all[|r.appended|] == c;
    } else {
      assert all[..|all|] == all;
    }
  }

  /** A read up to a literal of 1 to 1022 characters: the same, except that without the literal it holds
      back as many bytes as the array of the literal has. */
  lemma {:induction false} LiteralRead(all: string, t: string)
    requires 1 <= |t| <= 1022
    ensures var r := Outcome(all, Text(t));
            && (r.found <==> exists k :: OccursAt(all, t, k))
            && (r.found ==> all == r.appended + t + r.rest)
            && (r.found ==> forall k :: 0 <= k < |r.appended| ==> !OccursAt(all, t, k))
            && (!r.found ==> all == r.appended + r.rest && |r.rest| == if |all| < |t| + 1 then |all| else |t| + 1)
  {
    ManageableSplits(all, Text(t));
  }

  /** A read that finds nothing holds back what a later one may need: nothing for a character or an empty
      literal, the size of the literal's array for others, and everything if that fills the buffer. */
  lemma {:induction false} HeldBack(all: string, s: Sentinel)
    requires !Outcome(all, s).found
    ensures all == Outcome(all, s).appended + Outcome(all, s).rest
    ensures var size := match s case Char(_) => 0 case Text(t) => if t == "" then 0 else |t| + 1;
            |Outcome(all, s).rest| == if size >= 1024 || |all| < size then |all| else size
  {
    PartsOf(all, s);
    if Pattern(s) == "" && all != "" {
      assert OccursAt(Visible(all, s), "", 0);
    }
  }

  lemma {:induction false} ReadSays(all: string, s: Sentinel)
    ensures var r := Outcome(all, s);
            && (r.found ==> all == r.appended + (match s case Char(c) => [c] case Text(t) => t) + r.rest)
            && (!r.found ==> all == r.appended + r.rest)
            && (!r.found && s.Char? ==> r.rest == "")
            && (!r.found && s.Text? && 1 <= |s.text| <= 1022 ==>
                  |r.rest| == if |all| < |s.text| + 1 then |all| else |s.text| + 1)
  {
    PartsOf(all, s);
    if !Outcome(all, s).found {
      HeldBack(all, s);
    }
  }

  // ---- many reads ----

  lemma {:induction false} Regroup(a: string, b: string, c: string)
    ensures (a + b) + c == a + (b + c)
  {
  }

  /** What is left after reading with one sentinel after the other. */
  function Left(all: string, ss: seq<Sentinel>): string {
    if ss == [] then all else Outcome(Left(all, ss[..|ss| - 1]), ss[|ss| - 1]).rest
  }

  /** What these reads appended, with the sentinels they skipped. */
  function Taken(all: string, ss: seq<Sentinel>): string {
    if ss == [] then "" else
    var s := ss[|ss| - 1];
    var r := Outcome(Left(all, ss[..|ss| - 1]), s);
    Taken(all, ss[..|ss| - 1]) + Passed(r, s)
  }

  /** Over any sequence of reads, with any sentinels, no byte is lost, duplicated or reordered. */
  lemma {:induction false} NothingIsLost(all: string, ss: seq<Sentinel>)
    ensures Taken(all, ss) + Left(all, ss) == all
  {
    if ss != [] {
      var pre, s := ss[..|ss| - 1], ss[|ss| - 1];
      NothingIsLost(all, pre);
      PartsOf(Left(all, pre), s);
      var r := Outcome(Left(all, pre), s);
      Regroup(Taken(all, pre), Passed(r, s), r.rest);
    }
  }

  /** Until a sentinel was found: `to` was appended and `w` is in the buffer, no sentinel begins in
      `to`, and once something was appended at least the kept bytes are still there. */
  ghost predicate Before(all: string, to: string, w: string, s: Sentinel) {
    && to + w <= all && |w| <= SIZE
    && (to != "" ==> Kept(s) <= |w| && Kept(s) < SIZE)
    && forall k :: 0 <= k < |to| ==> !OccursAt(all, Pattern(s), k)
  }

  /** The same after a search in vain. */
  ghost predicate After(all: string, to: string, w: string, s: Sentinel) {
    && Before(all, to, w, s)
    && |w| == Min(|to| + |w|, Kept(s))
    && forall m :: 0 <= m < |w| ==> !OccursAt(w, Pattern(s), m)
  }

  lemma {:induction false} OccursInside(all: string, to: string, w: string, p: string, k: nat)
    requires to + w <= all && |to| <= k && k + |p| <= |to| + |w|
    ensures OccursAt(all, p, k) <==> OccursAt(w, p, k - |to|)
  {
    assert all[k..k + |p|] == w[k - |to|..k - |to| + |p|] by {
      assert all[..|to| + |w|] == to + w;
    }
  }

  lemma {:induction false} SearchedInVain(all: string, to: string, w: string, s: Sentinel, appended: string, w': string)
    requires Before(all, to, w, s) && w == appended + w'
    requires Search(w, Pattern(s)) == |w| && |w'| == Min(|w|, Kept(s))
    ensures After(all, to + appended, w', s)
  {
    var p := Pattern(s);
    assert to + appended + w' == to + w;
    forall k | 0 <= k < |to + appended| ensures !OccursAt(all, p, k) {
      if |to| <= k {
        OccursInside(all, to, w, p, k);
      }
    }
    forall m | 0 <= m < |w'| ensures !OccursAt(w', p, m) {
      if OccursAt(w', p, m) {
        OccursInside(w, appended, w', p, m + |appended|);
      }
    }
  }

  lemma {:induction false} FirstIsHere(v: string, to: string, w: string, p: string, j: nat)
    requires to + w <= v && j == Search(w, p) < |w|
    requires forall k :: 0 <= k < |to| ==> !OccursAt(v, p, k)
    ensures Search(v, p) == |to| + j
  {
    forall k | 0 <= k < |to| + j ensures !OccursAt(v, p, k) {
      if |to| <= k {
        OccursInside(v, to, w, p, k);
      }
    }
    OccursInside(v, to, w, p, |to| + j);
    SearchIs(v, p, |to| + j);
  }

  /** The bytes appended, in the buffer and unread are all the bytes. */
  ghost predicate Whole(all: string, to: string, w: string, unread: string) {
    all == to + (w + unread)
  }

  lemma {:induction false} WholeShifts(all: string, to: string, w: string, unread: string, more: string, w': string)
    requires Whole(all, to, w, unread) && w == more + w'
    ensures Whole(all, to + more, w', unread)
  {
    assert (more + w') + unread == more + (w' + unread);
    assert to + (more + (w' + unread)) == (to + more) + (w' + unread);
  }

  lemma {:induction false} WholeRefills(all: string, to: string, w: string, unread: string, w': string, unread': string)
    requires Whole(all, to, w, unread) && w + unread == w' + unread'
    ensures Whole(all, to, w', unread') && to + w' <= all
  {
    assert to + (w' + unread') == (to + w') + unread';
  }

  lemma {:induction false} Pieces(all: string, a: string, b: string, unread: string, n: nat)
    requires Whole(all, a, b, unread) && n <= |b|
    ensures all[..|a|] == a && all[|a| + n..] == b[n..] + unread
  {
  }

  lemma {:induction false} FoundIn(all: string, to: string, w: string, s: Sentinel, j: nat)
    requires Before(all, to, w, s) && j == Search(w, Pattern(s)) < |w|
    ensures var v := Visible(all, s); Search(v, Pattern(s)) == |to| + j < |v|
  {
    var p, v := Pattern(s), Visible(all, s);
    assert to + w <= v;
    forall k | 0 <= k < |to| ensures !OccursAt(v, p, k) {
      VisibleOccurs(all, s, k);
    }
    FirstIsHere(v, to, w, p, j);
  }

  /** A chunk that arrives moves from the stream to the end of the window. */
  lemma {:induction false} Arrives(b: string, b': string, it: nat, end: nat, n: nat, u: string)
    requires it <= end && end + n <= |b| == |b'| && n <= |u|
    requires b'[..end] == b[..end] && b'[end..end + n] == u[..n]
    ensures b'[it..end + n] == b[it..end] + u[..n]
    ensures b'[it..end + n] + u[n..] == b[it..end] + u
  {
    assert b'[it..end + n] == b'[..end][it..] + b'[end..end + n];
    assert u == u[..n] + u[n..];
  }

  lemma {:induction false} Finish(all: string, to: string, w: string, unread: string, s: Sentinel,
                                  more: string, w': string)
    requires Before(all, to, w, s) && Whole(all, to, w, unread) && w == more + w'
    requires |more| == Search(w, Pattern(s)) < |w|
    ensures |Pattern(s)| <= |w'|
    ensures Outcome(all, s) == Result(true, to + more, w'[|Pattern(s)|..] + unread)
  {
    assert OccursAt(w, Pattern(s), |more|);
    FoundIn(all, to, w, s, |more|);
    WholeShifts(all, to, w, unread, more, w');
    Pieces(all, to + more, w', unread, |Pattern(s)|);
  }

  /** The end of the stream, or a window of size zero. */
  lemma {:induction false} NothingMore(all: string, to: string, w: string, unread: string, s: Sentinel)
    requires After(all, to, w, s) && Whole(all, to, w, unread)
    requires unread == "" || |w| == SIZE
    ensures Outcome(all, s) == Result(false, to, w + unread)
  {
    var p, v := Pattern(s), Visible(all, s);
    assert all[..|to| + |w|] == to + w;
    assert v == to + w;
    forall k | 0 <= k < |v| ensures !OccursAt(v, p, k) {
      if OccursAt(v, p, k) {
        OccursInside(v, to, w, p, k);
      }
    }
    SearchIs(v, p, |v|);
    Pieces(all, to, w, unread, 0);
  }

  /** One search in vain. */
  lemma {:induction false} NotYet(all: string, to: string, w: string, unread: string, s: Sentinel,
                                  more: string, w': string)
    requires Before(all, to, w, s) && Whole(all, to, w, unread) && w == more + w'
    requires Search(w, Pattern(s)) == |w| && |more| == |w| - Min(|w|, Kept(s))
    ensures After(all, to + more, w', s) && Whole(all, to + more, w', unread)
  {
    SearchedInVain(all, to, w, s, more, w');
    WholeShifts(all, to, w, unread, more, w');
  }

  /** One chunk more. */
  lemma {:induction false} Refilled(all: string, to: string, w: string, unread: string,
                                    w': string, unread': string, s: Sentinel)
    requires After(all, to, w, s) && Whole(all, to, w, unread) && w + unread == w' + unread'
    requires |w| <= |w'| <= SIZE
    ensures Whole(all, to, w', unread') && Before(all, to, w', s)
  {
    WholeRefills(all, to, w, unread, w', unread');
  }

  // ---- the stream and the buffer ----

  /** A byte stream: what is still to come, and how the environment cuts it into chunks. A positive
      entry of `plan` is the size of the next chunk; the end is reported by a chunk of size zero. */
  class Stream {
    var unread: string
    var plan: seq<nat>

    constructor (unread: string, plan: seq<nat>)
      ensures this.unread == unread && this.plan == plan
    {
      this.unread, this.plan := unread, plan;
    }

    /** Any positive number of bytes that fits; zero only at the end or into an empty window. */
    method Receive(to: array<char>, from: nat) returns (n: nat)
      requires from <= to.Length
      modifies this, to
      ensures from + n <= to.Length && n <= |old(unread)|
      ensures n == 0 <==> from == to.Length || old(unread) == ""
      ensures old(plan) != [] && 0 < old(plan)[0] <= Min(|old(unread)|, to.Length - from) ==> n == old(plan)[0]
      ensures to[..from] == old(to[..from]) && to[from..from + n] == old(unread[..n])
      ensures unread == old(unread[n..])
    {
      var want := if plan == [] then |unread| else if plan[0] == 0 then 1 else plan[0];
      plan := if plan == [] then [] else plan[1..];
      n := Min(want, Min(|unread|, to.Length - from));
      forall i | 0 <= i < n {
        to[from + i] := unread[i];
      }
      unread := unread[n..];
    }
  }

  class Reader {
    const stream: Stream
    const buffer: array<char>
    var it: nat
    var end: nat

    predicate Valid()
      reads this
    {
      buffer.Length == SIZE && it <= end <= SIZE
    }

    /** The bytes received and not yet consumed. */
    function Window(): string
      requires Valid()
      reads this, buffer
    {
      buffer[it..end]
    }

    /** All the bytes still to be read. */
    function Remaining(): string
      requires Valid()
      reads this, buffer, stream
    {
      Window() + stream.unread
    }

    constructor (unread: string, plan: seq<nat>)
      ensures Valid() && fresh(buffer) && fresh(stream) && Remaining() == unread
    {
      stream := new Stream(unread, plan);
      buffer := new char[SIZE];
      it, end := 0, 0;
    }

    /** `consume`: true when the sentinel was not found. */
    method Consume(s: Sentinel) returns (missing: bool, appended: string)
      requires Valid()
      modifies this`it
      ensures Valid()
      ensures missing <==> Search(old(Window()), Pattern(s)) == |old(Window())|
      ensures old(Window()) == appended + Window()
      ensures |appended| == if missing then |old(Window())| - Min(|old(Window())|, Kept(s))
                            else Search(old(Window()), Pattern(s))
    {
      var stop := it + Search(buffer[it..end], Pattern(s));
      missing := stop == end;
      if missing {
        stop := stop - Min(stop - it, Kept(s));
      }
      appended := buffer[it..stop];
      it := stop;
    }

    /** Moves the unconsumed bytes to the front of the buffer. */
    method Compact()
      requires Valid()
      modifies this, buffer
      ensures Valid() && it == 0 && Window() == old(Window())
      ensures end == old(end - it)
    {
      var w := buffer[it..end];
      forall i | 0 <= i < |w| {
        buffer[i] := w[i];
      }
      end := end - it;
      it := 0;
    }

    /** Makes room if less than half the buffer is free, and receives once, into a window of `room`
        bytes. Unless the bytes held back fill the buffer, that window is open, and a count of zero can
        only mean the end. */
    method Refill(ghost kept: nat) returns (n: nat, ghost room: nat)
      requires Valid()
      modifies this, buffer, stream
      ensures Valid() && Remaining() == old(Remaining())
      ensures |old(Window())| <= kept < SIZE ==> room >= Min(SIZE / 2, SIZE - kept) > 0
      ensures n == 0 ==> Window() == old(Window()) && (stream.unread == "" || room == 0)
      ensures room == 0 ==> |old(Window())| == SIZE
      ensures n > 0 ==> |stream.unread| < old(|stream.unread|) && |Window()| > old(|Window()|)
    {
      if SIZE - end < SIZE / 2 {
        Compact();
      }
      room := SIZE - end;
      ghost var b, u := buffer[..], stream.unread;
      n := stream.Receive(buffer, end);
      assert b[..end] == buffer[..][..end] && buffer[..][end..end + n] == buffer[end..end + n];
      Arrives(b, buffer[..], it, end, n, u);
      assert b[it..end] == old(Window()) && buffer[..][it..end + n] == buffer[it..end + n];
      end := end + n;
    }

    method SkipBytes(n: nat)
      requires Valid() && n <= |Window()|
      modifies this`it
      ensures Valid() && Window() == old(Window())[n..]
    {
      it := it + n;
    }

    /** The body of the loop in `read`, once a search was in vain and appended `more`. 0 at the
        end of the stream. */
    method NextChunk(s: Sentinel, ghost all: string, ghost before: string, ghost w: string, ghost more: string)
      returns (n: nat)
      requires Valid() && Before(all, before, w, s) && Whole(all, before, w, stream.unread)
      requires w == more + Window() && Search(w, Pattern(s)) == |w| && |more| == |w| - Min(|w|, Kept(s))
      modifies this, buffer, stream
      ensures Valid()
      ensures n == 0 ==> Result(false, before + more, Remaining()) == Outcome(all, s)
      ensures n > 0 ==>
                && Before(all, before + more, Window(), s)
                && Whole(all, before + more, Window(), stream.unread)
                && |stream.unread| < old(|stream.unread|)
    {
      NotYet(all, before, w, stream.unread, s, more, Window());
      ghost var kept, unread := Window(), stream.unread;
      ghost var room: nat;
      n, room := Refill(Kept(s));
      if n == 0 {
        NothingMore(all, before + more, Window(), stream.unread, s);
      } else {
        Refilled(all, before + more, kept, unread, Window(), stream.unread, s);
      }
    }

    /** The loop of `read`. */
    method ReadOn(s: Sentinel) returns (found: bool, to: string)
      requires Valid()
      modifies this, buffer, stream
      ensures Valid()
      ensures Result(found, to, Remaining()) == Outcome(old(Remaining()), s)
    {
      ghost var all := Remaining();
      ghost var w := Window();
      to := "";
      var missing, more := Consume(s);
      while missing
        invariant Valid() && w == more + Window()
        invariant Whole(all, to, w, stream.unread) && Before(all, to, w, s)
        invariant missing <==> Search(w, Pattern(s)) == |w|
        invariant |more| == if missing then |w| - Min(|w|, Kept(s)) else Search(w, Pattern(s))
        decreases |stream.unread|
      {
        var n := NextChunk(s, all, to, w, more);
        to := to + more;
        if n == 0 {
          return false, to;
        }
        w := Window();
        missing, more := Consume(s);
      }
      Finish(all, to, w, stream.unread, s, more, Window());
      to := to + more;
      SkipBytes(|Pattern(s)|);
      return true, to;
    }

    /** `read`: appends up to the sentinel and skips it. False at the end of the stream. */
    method Read(s: Sentinel) returns (found: bool, to: string)
      requires Valid()
      modifies this, buffer, stream
      ensures Valid()
      ensures Result(found, to, Remaining()) == Outcome(old(Remaining()), s)
      ensures found ==> old(Remaining()) == to + (match s case Char(c) => [c] case Text(t) => t) + Remaining()
      ensures !found ==> old(Remaining()) == to + Remaining()
      ensures !found && s.Char? ==> Remaining() == ""
      ensures !found && s.Text? && 1 <= |s.text| <= 1022 ==>
                |Remaining()| == if |old(Remaining())| < |s.text| + 1 then |old(Remaining())| else |s.text| + 1
    {
      ReadSays(Remaining(), s);
      found, to := ReadOn(s);
    }
  }
}
