/** The round-robin broadcasts of the parameter-server engine: every rank in turn broadcasts its
    next bucket into alternating halves of one buffer. */
module Kimi {
  import opened Buckets

  /** A host-to-device bucket: the items' slots and the bytes they lie in. */
  datatype Chunk = Chunk(items: Meta, bytes: seq<Byte>)

  /** `(receiver_rank, owner_rank, bucket)` */
  datatype Entry = Entry(receiver: nat, owner: nat, chunk: Chunk)

  type Group = (nat, seq<Chunk>)
  type Turn = (nat, Chunk)

  // ---- the order of broadcasts -------------------------------------------------------------

  /** `buckets_by_receiver_rank[r].append(c)` on an insertion-ordered dict of lists. */
  function AddTo(gs: seq<Group>, r: nat, c: Chunk): seq<Group> {
    if gs == [] then [(r, [c])]
    else if gs[0].0 == r then [(r, gs[0].1 + [c])] + gs[1..]
    else [gs[0]] + AddTo(gs[1..], r, c)
  }

  function GroupsOf(es: seq<Entry>): seq<Group> {
    if es == [] then [] else AddTo(GroupsOf(es[..|es| - 1]), es[|es| - 1].receiver, es[|es| - 1].chunk)
  }

  /** The i-th bucket of every rank that has one, in dict order. */
  function RoundOf(gs: seq<Group>, i: nat): seq<Turn> {
    if gs == [] then []
    else
      var n := |gs| - 1;
      RoundOf(gs[..n], i) + if i < |gs[n].1| then [(gs[n].0, gs[n].1[i])] else []
  }

  /** The first n rounds.  No rank's own number occurs in it: all ranks agree on it. */
  function Rounds(gs: seq<Group>, n: nat): seq<Turn> {
    if n == 0 then [] else Rounds(gs, n - 1) + RoundOf(gs, n - 1)
  }

  function TurnsOf(es: seq<Entry>): (ts: seq<Turn>)
    ensures |ts| == |es| && forall i :: 0 <= i < |es| ==> ts[i] == (es[i].receiver, es[i].chunk)
  {
    seq(|es|, i requires 0 <= i < |es| => (es[i].receiver, es[i].chunk))
  }

  /** A group's first n buckets, as turns. */
  function FirstTurns(g: Group, n: nat): (ts: seq<Turn>)
    ensures |ts| == if n < |g.1| then n else |g.1|
  {
    seq(if n < |g.1| then n else |g.1|, i requires 0 <= i < |g.1| => (g.0, g.1[i]))
  }

  ghost function Bag(gs: seq<Group>, n: nat): multiset<Turn> {
    if gs == [] then multiset{} else multiset(FirstTurns(gs[0], n)) + Bag(gs[1..], n)
  }

  lemma {:induction false} BagSnoc(gs: seq<Group>, g: Group, n: nat)
    ensures Bag(gs + [g], n) == Bag(gs, n) + multiset(FirstTurns(g, n))
  {
    if gs == [] {
      assert ([] + [g])[1..] == [];
    } else {
      BagSnoc(gs[1..], g, n);
      assert (gs + [g])[1..] == gs[1..] + [g];
    }
  }

  lemma FirstTurnsNext(g: Group, n: nat)
    ensures multiset(FirstTurns(g, n + 1)) ==
            multiset(FirstTurns(g, n)) + multiset(if n < |g.1| then [(g.0, g.1[n])] else [])
  {
    assert FirstTurns(g, n + 1) == FirstTurns(g, n) + if n < |g.1| then [(g.0, g.1[n])] else [];
  }

  lemma RoundSnoc(gs: seq<Group>, n: nat)
    requires gs != []
    ensures var k := |gs| - 1;
            multiset(RoundOf(gs, n)) ==
            multiset(RoundOf(gs[..k], n)) + multiset(if n < |gs[k].1| then [(gs[k].0, gs[k].1[n])] else [])
  {
  }

  lemma EmptyRound(n: nat)
    ensures RoundOf([], n) == [] && Bag([], n) == multiset{}
  {
  }

  lemma {:induction false} RoundIsStep(gs: seq<Group>, n: nat)
    ensures Bag(gs, n + 1) == Bag(gs, n) + multiset(RoundOf(gs, n))
    decreases |gs|
  {
    hide *;
    if gs == [] {
      EmptyRound(n);
      EmptyRound(n + 1);
    } else {
      var k := |gs| - 1;
      var g := gs[k];
      RoundIsStep(gs[..k], n);
      BagSnoc(gs[..k], g, n);
      BagSnoc(gs[..k], g, n + 1);
      assert gs == gs[..k] + [g];
      FirstTurnsNext(g, n);
      RoundSnoc(gs, n);
    }
  }

  lemma RoundsStep(gs: seq<Group>, n: nat)
    ensures Rounds(gs, 0) == [] && Rounds(gs, n + 1) == Rounds(gs, n) + RoundOf(gs, n)
  {
  }

  lemma {:induction false} RoundsBag(gs: seq<Group>, n: nat)
    ensures multiset(Rounds(gs, n)) == Bag(gs, n)
  {
    hide *;
    if n == 0 {
      EmptyBag(gs);
      RoundsStep(gs, 0);
    } else {
      RoundsBag(gs, n - 1);
      RoundsStep(gs, n - 1);
      RoundIsStep(gs, n - 1);
    }
  }

  lemma {:induction false} EmptyBag(gs: seq<Group>)
    ensures Bag(gs, 0) == multiset{}
  {
    if gs != [] {
      EmptyBag(gs[1..]);
    }
  }

  predicate Covers(gs: seq<Group>, n: nat) {
    forall i :: 0 <= i < |gs| ==> |gs[i].1| <= n
  }

  lemma {:induction false} AddToBag(gs: seq<Group>, r: nat, c: Chunk, n: nat)
    requires Covers(AddTo(gs, r, c), n)
    ensures Covers(gs, n) && Bag(AddTo(gs, r, c), n) == Bag(gs, n) + multiset{(r, c)}
  {
    var all := AddTo(gs, r, c);
    if gs == [] {
      assert all[1..] == [];
      assert FirstTurns((r, [c]), n) == [(r, c)] by { assert |all[0].1| <= n; }
    } else if gs[0].0 == r {
      assert all[1..] == gs[1..];
      assert |all[0].1| <= n;
      assert FirstTurns(all[0], n) == FirstTurns(gs[0], n) + [(r, c)];
      forall i | 0 <= i < |gs| ensures |gs[i].1| <= n { assert |all[i].1| <= n; }
    } else {
      assert all[1..] == AddTo(gs[1..], r, c);
      forall i | 0 <= i < |all[1..]| ensures |all[1..][i].1| <= n { assert all[1..][i] == all[i + 1]; }
      AddToBag(gs[1..], r, c, n);
      forall i | 0 <= i < |gs| ensures |gs[i].1| <= n {
        if i == 0 { assert |all[0].1| <= n; } else { assert gs[i] == gs[1..][i - 1]; }
      }
    }
  }

  lemma GroupsStep(es: seq<Entry>)
    requires es != []
    ensures var k := |es| - 1; GroupsOf(es) == AddTo(GroupsOf(es[..k]), es[k].receiver, es[k].chunk)
  {
  }

  lemma TurnsStep(es: seq<Entry>)
    requires es != []
    ensures var k := |es| - 1; multiset(TurnsOf(es)) == multiset(TurnsOf(es[..k])) + multiset{(es[k].receiver, es[k].chunk)}
  {
    var k := |es| - 1;
    assert TurnsOf(es) == TurnsOf(es[..k]) + [(es[k].receiver, es[k].chunk)];
  }

  lemma {:induction false} GroupsBag(es: seq<Entry>, n: nat)
    requires Covers(GroupsOf(es), n)
    ensures Bag(GroupsOf(es), n) == multiset(TurnsOf(es))
  {
    if es == [] {
      assert Bag(GroupsOf(es), n) == multiset{};
    } else {
      hide *;
      GroupsStep(es);
      TurnsStep(es);
      var k := |es| - 1;
      AddToBag(GroupsOf(es[..k]), es[k].receiver, es[k].chunk, n);
      GroupsBag(es[..k], n);
    }
  }

  /** `max_len` */
  function Longest(gs: seq<Group>): (n: nat)
    ensures Covers(gs, n)
  {
    if gs == [] then 0
    else
      var rest := Longest(gs[1..]);
      var n := if |gs[0].1| > rest then |gs[0].1| else rest;
      assert forall i :: 0 < i < |gs| ==> gs[i] == gs[1..][i - 1];
      n
  }

  /** The order of all broadcasts, as every rank computes it. */
  function Schedule(es: seq<Entry>): seq<Turn> {
    Rounds(GroupsOf(es), Longest(GroupsOf(es)))
  }

  /** Keeping the maximum while the lists grow. */
  lemma {:induction false} LongestGrows(gs: seq<Group>, r: nat, c: Chunk)
    ensures var n := |Listed(AddTo(gs, r, c), r)|;
            Longest(AddTo(gs, r, c)) == if n > Longest(gs) then n else Longest(gs)
    ensures |Listed(gs, r)| <= Longest(gs)
  {
    var all := AddTo(gs, r, c);
    if gs == [] {
      assert all[1..] == [];
    } else {
      LongestGrows(gs[1..], r, c);
      assert all[1..] == if gs[0].0 == r then gs[1..] else AddTo(gs[1..], r, c);
    }
  }

  /** Enough rounds broadcast every bucket exactly once, from its own rank. */
  lemma EveryBucketOnce(es: seq<Entry>, n: nat)
    requires Covers(GroupsOf(es), n)
    ensures multiset(Rounds(GroupsOf(es), n)) == multiset(TurnsOf(es))
  {
    RoundsBag(GroupsOf(es), n);
    GroupsBag(es, n);
  }

  // ---- a rank's own buckets ----------------------------------------------------------------

  /** `receiver_rank_buckets` */
  function Own(es: seq<Entry>, r: nat): seq<Chunk> {
    if es == [] then []
    else
      var k := |es| - 1;
      Own(es[..k], r) + if es[k].receiver == r then [es[k].chunk] else []
  }

  /** The list a rank's group holds. */
  function Listed(gs: seq<Group>, r: nat): seq<Chunk> {
    if gs == [] then [] else if gs[0].0 == r then gs[0].1 else Listed(gs[1..], r)
  }

  predicate Keyed(gs: seq<Group>) {
    forall i, j :: 0 <= i < j < |gs| ==> gs[i].0 != gs[j].0
  }

  lemma {:induction false} AddToListed(gs: seq<Group>, r: nat, c: Chunk, q: nat)
    requires Keyed(gs)
    ensures Keyed(AddTo(gs, r, c))
    ensures forall i :: 0 <= i < |AddTo(gs, r, c)| ==> AddTo(gs, r, c)[i].0 == r || exists j :: 0 <= j < |gs| && gs[j].0 == AddTo(gs, r, c)[i].0
    ensures Listed(AddTo(gs, r, c), q) == Listed(gs, q) + if q == r then [c] else []
  {
    if gs != [] && gs[0].0 != r {
      var tl := AddTo(gs[1..], r, c);
      AddToListed(gs[1..], r, c, q);
      assert AddTo(gs, r, c)[1..] == tl;
      forall i | 0 <= i < |tl| ensures tl[i].0 == r || exists j :: 0 <= j < |gs| && gs[j].0 == tl[i].0 {
        if tl[i].0 != r {
          var j :| 0 <= j < |gs[1..]| && gs[1..][j].0 == tl[i].0;
          assert gs[j + 1].0 == tl[i].0;
        }
      }
      forall i | 0 <= i < |tl| ensures tl[i].0 != gs[0].0 {
        if tl[i].0 != r {
          var j :| 0 <= j < |gs[1..]| && gs[1..][j].0 == tl[i].0;
          assert gs[j + 1].0 == tl[i].0;
        }
      }
    } else if gs != [] {
      assert AddTo(gs, r, c)[1..] == gs[1..];
    }
  }

  lemma {:induction false} OwnIsListed(es: seq<Entry>, r: nat)
    ensures Keyed(GroupsOf(es)) && Listed(GroupsOf(es), r) == Own(es, r)
  {
    if es != [] {
      var k := |es| - 1;
      OwnIsListed(es[..k], r);
      AddToListed(GroupsOf(es[..k]), es[k].receiver, es[k].chunk, r);
    }
  }

  lemma {:induction false} ListedAt(gs: seq<Group>, i: nat)
    requires Keyed(gs) && i < |gs|
    ensures Listed(gs, gs[i].0) == gs[i].1
  {
    if i > 0 {
      assert gs[0].0 != gs[i].0;
      ListedAt(gs[1..], i - 1);
    }
  }

  // ---- taking turns --------------------------------------------------------------------------

  /** How many of the turns are rank q's. */
  function Turns(ts: seq<Turn>, q: nat): nat {
    if ts == [] then 0 else Turns(ts[..|ts| - 1], q) + if ts[|ts| - 1].0 == q then 1 else 0
  }

  lemma {:induction false} TurnsConcat(xs: seq<Turn>, ys: seq<Turn>, q: nat)
    ensures Turns(xs + ys, q) == Turns(xs, q) + Turns(ys, q)
  {
    if ys == [] {
      assert xs + ys == xs;
    } else {
      var n := |ys| - 1;
      TurnsConcat(xs, ys[..n], q);
      assert (xs + ys)[..|xs| + n] == xs + ys[..n];
    }
  }

  lemma KeyedRest(gs: seq<Group>)
    requires Keyed(gs) && gs != []
    ensures Keyed(gs[1..])
  {
  }

  lemma {:induction false} ListedAppend(gs: seq<Group>, g: Group, q: nat)
    requires Keyed(gs + [g])
    ensures Keyed(gs)
    ensures Listed(gs + [g], q) == if g.0 == q then g.1 else Listed(gs, q)
    ensures g.0 == q ==> Listed(gs, q) == []
  {
    assert forall i :: 0 <= i < |gs| ==> (gs + [g])[i] == gs[i];
    assert (gs + [g])[|gs|] == g;
    if gs != [] {
      assert (gs + [g])[1..] == gs[1..] + [g];
      KeyedRest(gs + [g]);
      ListedAppend(gs[1..], g, q);
      assert gs[0].0 != g.0;
    }
  }

  /** In one round every rank whose list is long enough has one turn. */
  lemma {:induction false} RoundTurns(gs: seq<Group>, i: nat, q: nat)
    requires Keyed(gs)
    ensures Turns(RoundOf(gs, i), q) == if i < |Listed(gs, q)| then 1 else 0
    decreases |gs|
  {
    if gs != [] {
      var n := |gs| - 1;
      assert gs == gs[..n] + [gs[n]];
      ListedAppend(gs[..n], gs[n], q);
      RoundTurns(gs[..n], i, q);
      var last := if i < |gs[n].1| then [(gs[n].0, gs[n].1[i])] else [];
      TurnsConcat(RoundOf(gs[..n], i), last, q);
      assert last != [] ==> last[..0] == [];
    }
  }

  lemma {:induction false} RoundsTurns(gs: seq<Group>, n: nat, q: nat)
    requires Keyed(gs)
    ensures Turns(Rounds(gs, n), q) == if n < |Listed(gs, q)| then n else |Listed(gs, q)|
  {
    hide *;
    if n > 0 {
      RoundsTurns(gs, n - 1, q);
      RoundTurns(gs, n - 1, q);
      RoundsStep(gs, n - 1);
      TurnsConcat(Rounds(gs, n - 1), RoundOf(gs, n - 1), q);
    } else {
      RoundsStep(gs, 0);
      NoTurns(q);
    }
  }

  lemma NoTurns(q: nat)
    ensures Turns([], q) == 0
  {
  }

  /** The g-th turn of a round belongs to some group j, and those before it are the groups' before j. */
  lemma {:induction false} RoundAt(gs: seq<Group>, i: nat, g: nat) returns (j: nat)
    requires g < |RoundOf(gs, i)|
    ensures j < |gs| && i < |gs[j].1| && RoundOf(gs, i)[g] == (gs[j].0, gs[j].1[i]) && RoundOf(gs, i)[..g] == RoundOf(gs[..j], i)
    decreases |gs|
  {
    var n := |gs| - 1;
    var init := RoundOf(gs[..n], i);
    if g < |init| {
      j := RoundAt(gs[..n], i, g);
      assert gs[..n][..j] == gs[..j];
      assert RoundOf(gs, i)[..g] == init[..g];
    } else {
      j := n;
      assert RoundOf(gs, i)[..g] == init;
    }
  }

  lemma {:induction false} RoundsAt(gs: seq<Group>, n: nat, g: nat) returns (i: nat, j: nat)
    requires g < |Rounds(gs, n)|
    ensures j < |gs| && i < n && i < |gs[j].1| && Rounds(gs, n)[g] == (gs[j].0, gs[j].1[i])
    ensures Rounds(gs, n)[..g] == Rounds(gs, i) + RoundOf(gs[..j], i)
  {
    var init := Rounds(gs, n - 1);
    if g < |init| {
      i, j := RoundsAt(gs, n - 1, g);
      assert Rounds(gs, n)[..g] == init[..g];
    } else {
      i := n - 1;
      j := RoundAt(gs, i, g - |init|);
      assert Rounds(gs, n)[..g] == init + RoundOf(gs, i)[..g - |init|];
    }
  }

  lemma KeyedFront(gs: seq<Group>, j: nat)
    requires Keyed(gs) && j < |gs|
    ensures Keyed(gs[..j]) && Keyed(gs[..j + 1])
  {
  }

  /** A front of the groups lists a rank as a whole or not at all. */
  lemma {:induction false} ListedFront(gs: seq<Group>, j: nat, q: nat)
    requires Keyed(gs) && j <= |gs|
    ensures Listed(gs[..j], q) == [] || Listed(gs[..j], q) == Listed(gs, q)
    decreases |gs|
  {
    if j < |gs| {
      var n := |gs| - 1;
      assert gs == gs[..n] + [gs[n]] && gs[..n][..j] == gs[..j];
      ListedAppend(gs[..n], gs[n], q);
      ListedFront(gs[..n], j, q);
    } else {
      assert gs[..j] == gs;
    }
  }

  /** Round robin: before a rank's i-th turn every other rank has had i turns, or i + 1, or all of its
      own; and in its i-th turn a rank broadcasts its i-th bucket. */
  lemma RoundRobin(es: seq<Entry>, g: nat, q: nat)
    requires g < |Schedule(es)|
    ensures var (r, before) := (Schedule(es)[g].0, Schedule(es)[..g]);
            var i := Turns(before, r);
            && i < |Own(es, r)| && Schedule(es)[g].1 == Own(es, r)[i]
            && (if i < |Own(es, q)| then i <= Turns(before, q) <= i + 1 else Turns(before, q) == |Own(es, q)|)
  {
    var gs := GroupsOf(es);
    var i, j := RoundsAt(gs, Longest(gs), g);
    var r := gs[j].0;
    OwnIsListed(es, r);
    OwnIsListed(es, q);
    KeyedFront(gs, j);
    ListedAt(gs, j);
    hide GroupsOf, Longest, Own, RoundOf, Rounds;
    TurnsConcat(Rounds(gs, i), RoundOf(gs[..j], i), r);
    TurnsConcat(Rounds(gs, i), RoundOf(gs[..j], i), q);
    RoundsTurns(gs, i, r);
    RoundsTurns(gs, i, q);
    RoundTurns(gs[..j], i, r);
    RoundTurns(gs[..j], i, q);
    ListedFront(gs, j, q);
    NotListedYet(gs, j);
  }

  lemma NotListedYet(gs: seq<Group>, j: nat)
    requires Keyed(gs) && j < |gs|
    ensures Listed(gs[..j], gs[j].0) == []
  {
    KeyedFront(gs, j);
    assert gs[..j + 1] == gs[..j] + [gs[j]];
    ListedAppend(gs[..j], gs[j], gs[j].0);
  }

  // ---- receiving ---------------------------------------------------------------------------

  /** Where the half of the buffer for broadcast g begins. */
  function Base(g: nat, size: nat): (b: nat)
    ensures b == 0 || b == size
  {
    if g % 2 == 0 then 0 else size
  }

  lemma HalvesAlternate(g: nat, size: nat)
    ensures Base(g, size) + Base(g + 1, size) == size
  {
  }

  predicate Fits(c: Chunk, size: nat) {
    |c.bytes| <= size && forall i :: 0 <= i < |c.items| ==> InBounds(c.items[i].1, c.bytes)
  }

  /** Everything the turns carry, item by item. */
  function Yields(ts: seq<Turn>, size: nat): seq<Weight>
    requires forall i :: 0 <= i < |ts| ==> Fits(ts[i].1, size)
  {
    if ts == [] then []
    else
      var k := |ts| - 1;
      assert Fits(ts[k].1, size);
      Yields(ts[..k], size) + ReadAll(ts[k].1.bytes, ts[k].1.items)
  }

  lemma YieldsNext(ts: seq<Turn>, size: nat, k: nat)
    requires k < |ts| && forall i :: 0 <= i < |ts| ==> Fits(ts[i].1, size)
    ensures Fits(ts[k].1, size)
    ensures Yields(ts[..k + 1], size) == Yields(ts[..k], size) + ReadAll(ts[k].1.bytes, ts[k].1.items)
  {
    assert ts[..k + 1][..k] == ts[..k];
  }

  /** A copy into one half of the buffer. */
  method CopyInto(buf: array<Byte>, start: nat, data: seq<Byte>)
    requires start + |data| <= buf.Length
    modifies buf
    ensures buf[start..start + |data|] == data
    ensures forall i :: 0 <= i < buf.Length && !(start <= i < start + |data|) ==> buf[i] == old(buf[i])
  {
    forall i | 0 <= i < |data| {
      buf[start + i] := data[i];
    }
  }

  /** The broadcast is running: part of the slice may already have been overwritten. */
  method Arriving(buf: array<Byte>, start: nat, data: seq<Byte>)
    requires start + |data| <= buf.Length
    modifies buf
    ensures forall i :: 0 <= i < buf.Length && !(start <= i < start + |data|) ==> buf[i] == old(buf[i])
  {
    var n :| 0 <= n <= |data|;
    forall i | 0 <= i < n {
      buf[start + i] := data[i];
    }
  }

  /** The yield loop over the previous bucket's items. */
  method YieldHalf(buf: array<Byte>, base: nat, c: Chunk, ghost size: nat, out: seq<Weight>) returns (out': seq<Weight>)
    requires Fits(c, size) && base + |c.bytes| <= buf.Length && buf[base..base + |c.bytes|] == c.bytes
    ensures out' == out + ReadAll(c.bytes, c.items)
  {
    ghost var items := ReadAll(c.bytes, c.items);
    out' := [];
    for i := 0 to |c.items|
      invariant out' == items[..i]
    {
      var (name, slot) := c.items[i];
      SliceOfSlice(buf[..], base, c.bytes, slot);
      out' := out' + [(name, buf[base + slot.offset..base + slot.offset + slot.size])];
    }
    out' := out + out';
  }

  lemma SliceOfSlice(buf: seq<Byte>, base: nat, bytes: seq<Byte>, s: Slot)
    requires base + |bytes| <= |buf| && buf[base..base + |bytes|] == bytes && InBounds(s, bytes)
    ensures buf[base + s.offset..base + s.offset + s.size] == Read(bytes, s)
  {
    var x, y := buf[base + s.offset..base + s.offset + s.size], Read(bytes, s);
    forall i | 0 <= i < |x| ensures x[i] == y[i] {
      assert x[i] == buf[base + (s.offset + i)] == buf[base..base + |bytes|][s.offset + i];
    }
  }

  /** The turns completed: their items are out except the last one's, which waits in its half. */
  ghost predicate Behind(done: seq<Turn>, size: nat, buf: seq<Byte>, out: seq<Weight>, last: Chunk)
    requires forall i :: 0 <= i < |done| ==> Fits(done[i].1, size)
  {
    && |buf| == 2 * size
    && if done == [] then out == []
       else
         var k := |done| - 1;
         && last == done[k].1 && Fits(last, size) && out == Yields(done[..k], size)
         && buf[Base(k, size)..Base(k, size) + |last.bytes|] == last.bytes
  }

  /** Writing within one half leaves the other. */
  lemma HalfKept(b0: seq<Byte>, b1: seq<Byte>, size: nat, k: nat, len: nat, last: nat)
    requires |b0| == |b1| == 2 * size && len <= size && last <= size
    requires forall i :: 0 <= i < 2 * size && !(Base(k + 1, size) <= i < Base(k + 1, size) + len) ==> b1[i] == b0[i]
    ensures b1[Base(k, size)..Base(k, size) + last] == b0[Base(k, size)..Base(k, size) + last]
  {
    HalvesAlternate(k, size);
  }

  lemma BehindParts(done: seq<Turn>, size: nat, buf: seq<Byte>, out: seq<Weight>, last: Chunk)
    requires (forall i :: 0 <= i < |done| ==> Fits(done[i].1, size)) && Behind(done, size, buf, out, last)
    ensures |buf| == 2 * size && (done == [] ==> out == Yields(done, size))
    ensures done != [] ==>
      var k := |done| - 1;
      && |last.bytes| <= size && Fits(last, size) && buf[Base(k, size)..Base(k, size) + |last.bytes|] == last.bytes
      && out + ReadAll(last.bytes, last.items) == Yields(done, size)
  {
    if done != [] {
      YieldsNext(done, size, |done| - 1);
      assert done[..|done|] == done;
    }
  }

  lemma BehindNext(done: seq<Turn>, turn: Turn, size: nat, buf: seq<Byte>, out: seq<Weight>)
    requires (forall i :: 0 <= i < |done| ==> Fits(done[i].1, size)) && Fits(turn.1, size)
    requires |buf| == 2 * size && out == Yields(done, size)
    requires buf[Base(|done|, size)..Base(|done|, size) + |turn.1.bytes|] == turn.1.bytes
    ensures forall i :: 0 <= i <= |done| ==> Fits((done + [turn])[i].1, size)
    ensures Behind(done + [turn], size, buf, out, turn.1)
  {
    assert (done + [turn])[..|done|] == done;
  }

  /** The sending rank's half is filled before the broadcast; elsewhere it may start to change. */
  method Start(self: nat, turn: Turn, staged: array<Byte>, direct: bool, start: nat, buf: array<Byte>) returns (ghost sent: seq<Byte>)
    requires buf != staged && |turn.1.bytes| <= staged.Length && start + |turn.1.bytes| <= buf.Length
    requires turn.0 == self && !direct ==> staged[..|turn.1.bytes|] == turn.1.bytes
    modifies buf
    ensures turn.0 == self ==> sent == turn.1.bytes && buf[start..start + |turn.1.bytes|] == turn.1.bytes
    ensures forall i :: 0 <= i < buf.Length && !(start <= i < start + |turn.1.bytes|) ==> buf[i] == old(buf[i])
  {
    var bytes := turn.1.bytes;
    if turn.0 == self {
      var source := if direct then bytes else staged[..|bytes|];
      CopyInto(buf, start, source);
      sent := buf[start..start + |bytes|];
    } else {
      Arriving(buf, start, bytes);
      sent := [];
    }
  }

  /** One broadcast: the sending rank fills the half from its staging buffer or its own memory, the
      others receive into it, and meanwhile everyone yields the other half. */
  method Broadcast(self: nat, turn: Turn, staged: array<Byte>, direct: bool, g: nat, size: nat, buf: array<Byte>,
                   out: seq<Weight>, last: Chunk, ghost done: seq<Turn>)
    returns (out': seq<Weight>, ghost sent: seq<Byte>)
    requires (forall i :: 0 <= i < |done| ==> Fits(done[i].1, size)) && Fits(turn.1, size) && g == |done|
    requires Behind(done, size, buf[..], out, last) && buf != staged && staged.Length == size
    requires turn.0 == self && !direct ==> |turn.1.bytes| <= size && staged[..|turn.1.bytes|] == turn.1.bytes
    modifies buf
    ensures forall i :: 0 <= i <= |done| ==> Fits((done + [turn])[i].1, size)
    ensures Behind(done + [turn], size, buf[..], out', turn.1)
    ensures turn.0 == self ==> sent == turn.1.bytes
  {
    hide *;
    var start := Base(g, size);
    BytesFit(turn.1, size);
    BehindParts(done, size, buf[..], out, last);
    label begin:
    sent := Start(self, turn, staged, direct, start, buf);
    out' := out;
    if g > 0 {
      HalfKept(old@begin(buf[..]), buf[..], size, g - 1, |turn.1.bytes|, |last.bytes|);
      out' := YieldHalf(buf, Base(g - 1, size), last, size, out);
    }
    if turn.0 != self {
      CopyInto(buf, start, turn.1.bytes);
    }
    BehindNext(done, turn, size, buf[..], out');
  }

  lemma BytesFit(c: Chunk, size: nat)
    requires Fits(c, size)
    ensures |c.bytes| <= size
  {
  }

  // ---- the whole reception -----------------------------------------------------------------

  ghost predicate Ready(es: seq<Entry>, size: nat) {
    forall i :: 0 <= i < |es| ==> Fits(es[i].chunk, size)
  }

  ghost predicate GroupsFit(gs: seq<Group>, size: nat) {
    forall i, j :: 0 <= i < |gs| && 0 <= j < |gs[i].1| ==> Fits(gs[i].1[j], size)
  }

  lemma {:induction false} AddToFits(gs: seq<Group>, r: nat, c: Chunk, size: nat)
    requires GroupsFit(gs, size) && Fits(c, size)
    ensures GroupsFit(AddTo(gs, r, c), size)
  {
    hide Fits;
    if gs != [] && gs[0].0 != r {
      AddToFits(gs[1..], r, c, size);
      var all, tl := AddTo(gs, r, c), AddTo(gs[1..], r, c);
      assert forall i :: 0 < i < |all| ==> all[i] == tl[i - 1];
    }
  }

  lemma {:induction false} GroupsOfFit(es: seq<Entry>, size: nat)
    requires Ready(es, size)
    ensures GroupsFit(GroupsOf(es), size)
  {
    if es != [] {
      GroupsOfFit(es[..|es| - 1], size);
      AddToFits(GroupsOf(es[..|es| - 1]), es[|es| - 1].receiver, es[|es| - 1].chunk, size);
    }
  }

  /** The turns before group j's in round i. */
  ghost function DoneBefore(gs: seq<Group>, i: nat, j: nat): seq<Turn>
    requires j <= |gs|
  {
    Rounds(gs, i) + RoundOf(gs[..j], i)
  }

  lemma DoneNext(gs: seq<Group>, i: nat, j: nat)
    requires j < |gs|
    ensures DoneBefore(gs, i, j + 1) == DoneBefore(gs, i, j) + if i < |gs[j].1| then [(gs[j].0, gs[j].1[i])] else []
    ensures DoneBefore(gs, 0, 0) == []
  {
    assert gs[..j + 1][..j] == gs[..j];
  }

  lemma DoneRound(gs: seq<Group>, i: nat)
    ensures DoneBefore(gs, i, |gs|) == DoneBefore(gs, i + 1, 0)
    ensures DoneBefore(gs, i, 0) == Rounds(gs, i)
  {
    assert gs[..|gs|] == gs;
  }

  /** `buckets_by_receiver_rank` and `max_len`. */
  method Grouped(es: seq<Entry>) returns (gs: seq<Group>, maxLen: nat)
    ensures gs == GroupsOf(es) && maxLen == Longest(gs)
  {
    gs, maxLen := [], 0;
    for k := 0 to |es|
      invariant gs == GroupsOf(es[..k]) && maxLen == Longest(gs)
    {
      assert es[..k + 1][..k] == es[..k];
      LongestGrows(gs, es[k].receiver, es[k].chunk);
      gs := AddTo(gs, es[k].receiver, es[k].chunk);
      var n := |Listed(gs, es[k].receiver)|;
      if n > maxLen {
        maxLen := n;
      }
    }
    assert es[..|es|] == es;
  }

  // ---- what travels --------------------------------------------------------------------------

  /** Each broadcast carries as many bytes as its bucket has. */
  predicate Carries(ts: seq<Turn>, wire: seq<seq<Byte>>) {
    |wire| == |ts| && forall g :: 0 <= g < |ts| ==> |wire[g]| == |ts[g].1.bytes|
  }

  /** The turns as rank `self` experiences them: in its own it has its bucket's bytes, in the
      others' it has what came over the wire. */
  function Arrived(ts: seq<Turn>, self: nat, wire: seq<seq<Byte>>): (r: seq<Turn>)
    requires |ts| <= |wire|
    ensures |r| == |ts|
  {
    seq(|ts|, g requires 0 <= g < |ts| => if ts[g].0 == self then ts[g] else (ts[g].0, Chunk(ts[g].1.items, wire[g])))
  }

  lemma ArrivedNext(ts: seq<Turn>, self: nat, wire: seq<seq<Byte>>, turn: Turn)
    requires |ts| < |wire|
    ensures Arrived(ts + [turn], self, wire) ==
            Arrived(ts, self, wire) + [if turn.0 == self then turn else (turn.0, Chunk(turn.1.items, wire[|ts|]))]
  {
  }

  lemma ArrivedFits(c: Chunk, bytes: seq<Byte>, size: nat)
    requires Fits(c, size) && |bytes| == |c.bytes|
    ensures Fits(Chunk(c.items, bytes), size)
  {
  }

  lemma {:induction false} RoundPrefix(gs: seq<Group>, i: nat, j: nat)
    requires j <= |gs|
    ensures RoundOf(gs[..j], i) <= RoundOf(gs, i)
    decreases |gs|
  {
    if j < |gs| {
      var n := |gs| - 1;
      RoundPrefix(gs[..n], i, j);
      assert gs[..n][..j] == gs[..j];
    } else {
      assert gs[..j] == gs;
    }
  }

  lemma {:induction false} RoundsPrefix(gs: seq<Group>, i: nat, n: nat)
    requires i <= n
    ensures Rounds(gs, i) <= Rounds(gs, n)
  {
    if i < n {
      RoundsPrefix(gs, i, n - 1);
    }
  }

  /** The turns so far and the next one begin the schedule. */
  lemma DonePrefix(gs: seq<Group>, i: nat, j: nat, n: nat)
    requires i < n && j <= |gs|
    ensures DoneBefore(gs, i, j) <= Rounds(gs, n)
  {
    RoundPrefix(gs, i, j);
    RoundsPrefix(gs, i + 1, n);
  }

  ghost predicate TurnsFit(ts: seq<Turn>, size: nat) {
    forall i :: 0 <= i < |ts| ==> Fits(ts[i].1, size)
  }

  /** What this rank put on the wire is what its turns say. */
  ghost predicate SentRight(self: nat, done: seq<Turn>, sent: seq<seq<Byte>>) {
    |sent| == |done| && forall g :: 0 <= g < |done| && done[g].0 == self ==> sent[g] == done[g].1.bytes
  }

  lemma SentNext(self: nat, done: seq<Turn>, sent: seq<seq<Byte>>, turn: Turn, bytes: seq<Byte>)
    requires SentRight(self, done, sent) && (turn.0 == self ==> bytes == turn.1.bytes)
    ensures SentRight(self, done + [turn], sent + [bytes])
  {
  }

  /** `_copy_to_buffer` of the rank's own i-th bucket before round i. */
  method Stage(es: seq<Entry>, self: nat, i: nat, size: nat, staged: array<Byte>, direct: bool, own: seq<Chunk>)
    requires own == Own(es, self) && Ready(es, size) && staged.Length == size
    modifies staged
    ensures !direct && i < |own| ==> |own[i].bytes| <= size && staged[..|own[i].bytes|] == own[i].bytes
  {
    if i < |own| && !direct {
      OwnFits(es, self, size, i);
      CopyInto(staged, 0, own[i].bytes);
      assert staged[0..0 + |own[i].bytes|] == staged[..|own[i].bytes|];
    }
  }

  lemma {:induction false} OwnFits(es: seq<Entry>, r: nat, size: nat, i: nat)
    requires Ready(es, size) && i < |Own(es, r)|
    ensures |Own(es, r)[i].bytes| <= size
  {
    var k := |es| - 1;
    if i < |Own(es[..k], r)| {
      OwnFits(es[..k], r, size, i);
    } else {
      assert Fits(es[k].chunk, size);
    }
  }

  lemma OwnTurn(es: seq<Entry>, self: nat, j: nat, size: nat)
    requires Ready(es, size) && j < |GroupsOf(es)|
    ensures GroupsOf(es)[j].0 == self ==> GroupsOf(es)[j].1 == Own(es, self)
    ensures forall i :: 0 <= i < |GroupsOf(es)[j].1| ==> Fits(GroupsOf(es)[j].1[i], size)
  {
    OwnIsListed(es, self);
    ListedAt(GroupsOf(es), j);
    GroupsOfFit(es, size);
  }

  /** `receive_tensor` on rank `self`, whatever bytes come over the wire in the other ranks' turns:
      the broadcasts follow the schedule, the rank sends its own buckets' bytes in its turns, and it
      yields all items of all buckets in that order, read from what arrived. */
  method ReceiveTensor(es: seq<Entry>, self: nat, size: nat, wire: seq<seq<Byte>>,
                       buf: array<Byte>, staged: array<Byte>, direct: bool)
    returns (out: seq<Weight>, ghost order: seq<Turn>, ghost sent: seq<seq<Byte>>)
    requires es != [] && Ready(es, size) && buf.Length == 2 * size && staged.Length == size && buf != staged
    requires Carries(Schedule(es), wire)
    modifies buf, staged
    ensures order == Schedule(es) && multiset(order) == multiset(TurnsOf(es))
    ensures TurnsFit(Arrived(order, self, wire), size) && out == Yields(Arrived(order, self, wire), size)
    ensures SentRight(self, order, sent)
  {
    hide *;
    var own := OwnOf(es, self);
    var gs, maxLen := Grouped(es);
    out, order, sent := [], [], [];
    ghost var done: seq<Turn> := [];
    var last := Chunk([], []);
    var g := 0;
    NothingYet(self, size, buf[..], last, wire);
    DoneRound(gs, 0);
    RoundsStep(gs, 0);
    ScheduleIs(es, gs, maxLen, wire);
    for i := 0 to maxLen
      invariant order == DoneBefore(gs, i, 0) && g == |order| == |done| <= |wire|
      invariant done == Arrived(order, self, wire)
      invariant TurnsFit(done, size) && SentRight(self, order, sent)
      invariant BehindAll(done, size, buf[..], out, last)
    {
      Stage(es, self, i, size, staged, direct, own);
      for j := 0 to |gs|
        invariant order == DoneBefore(gs, i, j) && g == |order| == |done| <= |wire|
        invariant done == Arrived(order, self, wire)
        invariant TurnsFit(done, size) && SentRight(self, order, sent)
        invariant BehindAll(done, size, buf[..], out, last)
        invariant !direct && i < |own| ==> |own[i].bytes| <= size && staged[..|own[i].bytes|] == own[i].bytes
      {
        DoneNext(gs, i, j);
        if i < |gs[j].1| {
          ghost var planned := (gs[j].0, gs[j].1[i]);
          NextPlanned(es, gs, i, j, wire);
          var turn := (gs[j].0, if gs[j].0 == self then gs[j].1[i] else Chunk(gs[j].1[i].items, wire[g]));
          OwnTurn(es, self, j, size);
          ArrivedFits(gs[j].1[i], wire[g], size);
          ArrivedNext(order, self, wire, planned);
          BehindOpen(done, size, buf[..], out, last);
          ghost var bytes;
          out, bytes := Broadcast(self, turn, staged, direct, g, size, buf, out, last, done);
          SentNext(self, order, sent, planned, bytes);
          order, done := order + [planned], done + [turn];
          BehindClosed(done, size, buf[..], out, turn.1);
          sent := sent + [bytes];
          last := turn.1;
          g := g + 1;
        }
      }
      DoneRound(gs, i);
      DoneRound(gs, i + 1);
    }
    DoneRound(gs, maxLen);
    LongestCovers(gs);
    EveryBucketOnce(es, maxLen);
    SomeTurn(es, order);
    BehindOpen(done, size, buf[..], out, last);
    BehindParts(done, size, buf[..], out, last);
    out := YieldHalf(buf, Base(g - 1, size), last, size, out);
  }

  lemma ScheduleIs(es: seq<Entry>, gs: seq<Group>, maxLen: nat, wire: seq<seq<Byte>>)
    requires gs == GroupsOf(es) && maxLen == Longest(gs) && Carries(Schedule(es), wire)
    ensures Schedule(es) == Rounds(gs, maxLen) && |wire| == |Schedule(es)|
  {
    hide Rounds, Longest, GroupsOf;
  }

  lemma LongestCovers(gs: seq<Group>)
    ensures Covers(gs, Longest(gs))
  {
  }

  lemma NextPlanned(es: seq<Entry>, gs: seq<Group>, i: nat, j: nat, wire: seq<seq<Byte>>)
    requires gs == GroupsOf(es) && i < Longest(gs) && j < |gs| && i < |gs[j].1| && Carries(Schedule(es), wire)
    ensures var g := |DoneBefore(gs, i, j)|; g < |wire| && |wire[g]| == |gs[j].1[i].bytes|
  {
    hide GroupsOf, Longest, Rounds, DoneBefore, Carries;
    DoneNext(gs, i, j);
    DonePrefix(gs, i, j + 1, Longest(gs));
    var g := |DoneBefore(gs, i, j)|;
    assert DoneBefore(gs, i, j + 1)[g] == (gs[j].0, gs[j].1[i]);
    assert Schedule(es)[g] == (gs[j].0, gs[j].1[i]);
    CarriesAt(Schedule(es), wire, g);
  }

  lemma CarriesAt(ts: seq<Turn>, wire: seq<seq<Byte>>, g: nat)
    requires Carries(ts, wire) && g < |ts|
    ensures |wire| == |ts| && |wire[g]| == |ts[g].1.bytes|
  {
  }

  /** The broadcasts as a collective: in each turn every rank has on its wire what the turn's rank
      sent in it. */
  ghost predicate Connected(ts: seq<Turn>, wires: seq<seq<seq<Byte>>>, sents: seq<seq<seq<Byte>>>) {
    && |wires| == |sents|
    && (forall r :: 0 <= r < |wires| ==> |wires[r]| == |sents[r]| == |ts|)
    && forall r, g :: 0 <= r < |wires| && 0 <= g < |ts| && ts[g].0 < |sents| && r != ts[g].0 ==>
         wires[r][g] == sents[ts[g].0][g]
  }

  /** All ranks receive alike: what arrives at any rank in turn g is what the turn's rank sent, its
      bucket's bytes, so every rank yields the same items of all buckets in the same order. */
  lemma RanksAgree(es: seq<Entry>, size: nat, wires: seq<seq<seq<Byte>>>, sents: seq<seq<seq<Byte>>>, r: nat)
    requires Ready(es, size) && Connected(Schedule(es), wires, sents) && r < |wires|
    requires forall k :: 0 <= k < |es| ==> es[k].receiver < |wires|
    requires forall q: nat :: q < |wires| ==> SentRight(q, Schedule(es), sents[q])
    ensures Arrived(Schedule(es), r, wires[r]) == Schedule(es)
    ensures TurnsFit(Schedule(es), size)
    ensures Yields(Arrived(Schedule(es), r, wires[r]), size) == Yields(Schedule(es), size)
  {
    hide Ready, Fits, Schedule, Yields;
    var ts := Schedule(es);
    forall g | 0 <= g < |ts| ensures Fits(ts[g].1, size) && ts[g].0 < |wires| {
      TurnIsEntry(es, ts[g], size, |wires|);
    }
    var got := Arrived(ts, r, wires[r]);
    forall g | 0 <= g < |ts| ensures got[g] == ts[g] {
      if ts[g].0 != r {
        assert SentRight(ts[g].0, ts, sents[ts[g].0]);
      }
    }
    assert got == ts;
  }

  lemma TurnIsEntry(es: seq<Entry>, turn: Turn, size: nat, n: nat)
    requires Ready(es, size) && turn in Schedule(es) && forall k :: 0 <= k < |es| ==> es[k].receiver < n
    ensures Fits(turn.1, size) && turn.0 < n
  {
    hide Rounds, GroupsOf, Longest, Fits;
    EveryBucketOnce(es, Longest(GroupsOf(es)));
    assert turn in multiset(Schedule(es));
    assert turn in multiset(TurnsOf(es));
    assert turn in TurnsOf(es);
    var k :| 0 <= k < |es| && TurnsOf(es)[k] == turn;
    assert Fits(es[k].chunk, size);
  }

  method OwnOf(es: seq<Entry>, self: nat) returns (own: seq<Chunk>)
    ensures own == Own(es, self)
  {
    own := [];
    for k := 0 to |es|
      invariant own == Own(es[..k], self)
    {
      assert es[..k + 1][..k] == es[..k];
      if es[k].receiver == self {
        own := own + [es[k].chunk];
      }
    }
    assert es[..|es|] == es;
  }

  ghost predicate BehindAll(done: seq<Turn>, size: nat, buf: seq<Byte>, out: seq<Weight>, last: Chunk) {
    TurnsFit(done, size) && Behind(done, size, buf, out, last)
  }

  lemma BehindOpen(done: seq<Turn>, size: nat, buf: seq<Byte>, out: seq<Weight>, last: Chunk)
    requires BehindAll(done, size, buf, out, last)
    ensures (forall i :: 0 <= i < |done| ==> Fits(done[i].1, size)) && Behind(done, size, buf, out, last)
  {
  }

  lemma BehindClosed(done: seq<Turn>, size: nat, buf: seq<Byte>, out: seq<Weight>, last: Chunk)
    requires (forall i :: 0 <= i < |done| ==> Fits(done[i].1, size)) && Behind(done, size, buf, out, last)
    ensures BehindAll(done, size, buf, out, last) && TurnsFit(done, size)
  {
  }

  lemma NothingYet(self: nat, size: nat, buf: seq<Byte>, last: Chunk, wire: seq<seq<Byte>>)
    requires |buf| == 2 * size
    ensures BehindAll([], size, buf, [], last) && TurnsFit([], size) && SentRight(self, [], [])
    ensures Arrived([], self, wire) == []
  {
  }

  lemma SomeTurn(es: seq<Entry>, order: seq<Turn>)
    requires es != [] && multiset(order) == multiset(TurnsOf(es))
    ensures order != []
  {
    assert |multiset(order)| == |order| && |multiset(TurnsOf(es))| == |es|;
  }
}
