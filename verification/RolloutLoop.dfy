/** The rollout as it runs: item objects updated in place, replies settling in any order within a
    turn, records appended as items finish. */
module RolloutLoop {
  import opened Options
  import opened Rollout
  import opened Sequences
  import opened Scoring

  class Output {
    var records: seq<Record>
    var written: nat
    var positive: nat
    var rejected: nat

    ghost predicate Valid()
      reads this
    {
      written == |records| == positive + rejected && positive == Positives(records)
    }

    constructor ()
      ensures Valid() && records == []
    {
      records, written, positive, rejected := [], 0, 0, 0;
    }

    /** The counters and the appended line. */
    method Write(r: Record)
      requires Valid()
      modifies this
      ensures Valid() && records == old(records) + [r]
      ensures positive == old(positive) + (if r.score > 0.0 then 1 else 0)
    {
      written := written + 1;
      if r.score > 0.0 {
        positive := positive + 1;
      } else {
        rejected := rejected + 1;
      }
      records := records + [r];
      assert records[..|records| - 1] == old(records);
    }
  }

  ghost function Positives(rs: seq<Record>): nat {
    if rs == [] then 0 else Positives(rs[..|rs| - 1]) + if rs[|rs| - 1].score > 0.0 then 1 else 0
  }

  /** How many records an item has. */
  ghost function Count(rs: seq<Record>, idx: nat): nat {
    if rs == [] then 0 else Count(rs[..|rs| - 1], idx) + if rs[|rs| - 1].idx == idx then 1 else 0
  }

  lemma CountNext(rs: seq<Record>, r: Record)
    ensures forall idx :: Count(rs + [r], idx) == Count(rs, idx) + if r.idx == idx then 1 else 0
  {
    assert (rs + [r])[..|rs|] == rs;
  }

  class ItemState {
    const idx: nat
    const item: Item
    var active: bool
    var preds: seq<seq<Json>>
    var messages: seq<string>
    var written: bool

    constructor (idx: nat, item: Item)
      ensures this.idx == idx && this.item == item && !written && View() == Opening(item)
    {
      this.idx, this.item, active, messages, written := idx, item, true, item.opening, false;
      preds := seq(|item.expected|, _ => []);
    }

    function View(): Course
      reads this
    {
      Course(active, preds, messages)
    }

    /** `_advance_one` */
    method AdvanceOne(env: Env, t: nat, r: Reply)
      requires env.Valid() && r.Text? && t < |preds| && t < |item.expected|
      modifies this
      ensures View() == Advance(env, item.expected[t], t, r, old(View())) && written == old(written)
    {
      hide Matches, Expected, Env.Valid, Coercion.Valid;
      var expected := item.expected[t];
      messages := messages + [r.content];
      if expected != [] {
        if r.calls.None? || |r.calls.value| != |expected| {
          preds := preds[t := preds[t] + [MISMATCH]];
          active := false;
          return;
        }
        EnvHas(env);
        for j := 0 to |expected|
          invariant forall i :: 0 <= i < j ==> Matches(env.co, r.calls.value[i], Expected(env.co, expected[i]))
          invariant View() == old(View()).(messages := messages) && written == old(written)
          invariant messages == old(messages) + [r.content]
        {
          var e := ParseExpectedCall(env.co, expected[j]);
          if !Matches(env.co, r.calls.value[j], e) {
            preds := preds[t := preds[t] + [MISMATCH]];
            active := false;
            return;
          }
        }
        preds := preds[t := preds[t] + r.calls.value];
      } else if !r.thinks {
        active := false;
      }
    }

    /** The request, the cutoff: one turn of `post_and_finalize` before it writes. */
    method Post(env: Env, t: nat, r: Reply)
      requires env.Valid() && t < |preds| && t < |item.expected|
      modifies this
      ensures View() == TurnOf(env, item, t, r, old(View())) && written == old(written)
    {
      hide Advance, Env.Valid;
      if r.Failed? {
        active := false;
      } else {
        AdvanceOne(env, t, r);
      }
      if active {
        var n := env.tokens(messages);
        if n.Some? && n.value > env.limit {
          active := false;
        }
      }
    }

    /** `_score_and_write_one` */
    method ScoreAndWriteOne(env: Env, out: Output)
      requires env.Valid() && out.Valid()
      modifies out
      ensures out.Valid() && out.records == old(out.records) + [RecordOf(env, idx, item, View())]
      ensures RecordScored(env, item, View(), RecordOf(env, idx, item, View()))
    {
      EnvHas(env);
      RecordIsScored(env, idx, item, View());
      hide RecordScored;
      var expected := FlatOf(item.expected);
      var called := FlatOf(preds);
      var reward, correct := ScoreEpisode(env.co, called, expected);
      var n := env.tokens(messages);
      var tokens := if n.Some? then n.value else 0;
      if reward > 0.99 && (tokens as real) > (env.limit as real) * 0.5 {
        var cutoff := (env.limit as real) * 0.5;
        var ratio := ((tokens as real) - cutoff) / ((env.limit as real) - cutoff);
        var frac := if ratio < 1.0 then ratio else 1.0;
        reward := if reward - frac > 0.0 then reward - frac else 0.0;
      }
      var final := if reward > 0.0 then reward else -1.0;
      out.Write(Record(idx, final, correct, preds, messages));
    }
  }

  lemma EnvHas(env: Env)
    requires env.Valid()
    ensures env.co.Valid() && env.limit > 0
  {
  }

  method FlatOf<T>(xs: seq<seq<T>>) returns (r: seq<T>)
    ensures r == Flatten(xs)
  {
    r := [];
    for i := 0 to |xs|
      invariant r == Flatten(xs[..i])
    {
      FlattenAppend(xs[..i], xs[i]);
      assert xs[..i + 1] == xs[..i] + [xs[i]];
      r := r + xs[i];
    }
    assert xs[..|xs|] == xs;
  }

  // ---- where an item stands ----------------------------------------------------------------

  /** Before turn t: written with one record, or waiting with none, as it would be alone.  (An item
      without turns just waits.) */
  ghost predicate Stands(env: Env, st: ItemState, rs: seq<Reply>, t: nat, count: nat)
    reads st
    requires env.Valid() && st.item.Turns() <= |rs|
  {
    && count == (if st.written then 1 else 0)
    && (!st.written ==> st.active && |st.preds| == |st.item.expected|)
    && (!st.written && st.item.Turns() > 0 ==> t < st.item.Turns() && st.View() == CourseAt(env, st.item, rs, t))
  }

  /** The same after the recorded tool response of turn t has been added. */
  ghost predicate Ready(env: Env, st: ItemState, rs: seq<Reply>, t: nat, count: nat)
    reads st
    requires env.Valid() && st.item.Turns() <= |rs|
  {
    && count == (if st.written then 1 else 0)
    && (!st.written ==> st.active && |st.preds| == |st.item.expected|)
    && (!st.written && st.item.Turns() > 0 ==>
          t < st.item.Turns() && st.View() == Inject(st.item, t, CourseAt(env, st.item, rs, t)))
  }

  /** A record is the one its item would get alone. */
  ghost predicate Honest(env: Env, item: Item, rs: seq<Reply>, r: Record)
    requires env.Valid() && item.Turns() <= |rs|
  {
    item.Turns() > 0 ==> r == RecordOf(env, r.idx, item, CourseAt(env, item, rs, item.Turns()))
  }

  lemma {:induction false} CourseFrozen(env: Env, item: Item, rs: seq<Reply>, n: nat, m: nat)
    requires env.Valid() && n <= m <= item.Turns() <= |rs| && !CourseAt(env, item, rs, n).active
    ensures CourseAt(env, item, rs, m) == CourseAt(env, item, rs, n)
  {
    if n < m {
      CourseFrozen(env, item, rs, n, m - 1);
    }
  }

  /** `post_and_finalize` */
  method PostAndFinalize(env: Env, st: ItemState, rs: seq<Reply>, t: nat, out: Output)
    requires env.Valid() && out.Valid() && st.item.Turns() <= |rs| && t < st.item.Turns() && !st.written
    requires Ready(env, st, rs, t, Count(out.records, st.idx))
    modifies st, out
    ensures out.Valid() && Stands(env, st, rs, t + 1, Count(out.records, st.idx))
    ensures out.records == old(out.records) ||
            exists r :: out.records == old(out.records) + [r] && r.idx == st.idx && Honest(env, st.item, rs, r)
  {
    hide Env.Valid, TurnOf, RecordOf, Count;
    st.Post(env, t, rs[t]);
    assert st.View() == CourseAt(env, st.item, rs, t + 1);
    var lastTurn := t + 1 >= st.item.Turns();
    if !st.active || lastTurn {
      if !st.active {
        CourseFrozen(env, st.item, rs, t + 1, st.item.Turns());
      }
      CountNext(out.records, RecordOf(env, st.idx, st.item, st.View()));
      RecordIdx(env, st.idx, st.item, st.View());
      st.ScoreAndWriteOne(env, out);
      st.written := true;
    }
  }

  lemma RecordIdx(env: Env, idx: nat, item: Item, s: Course)
    requires env.Valid()
    ensures RecordOf(env, idx, item, s).idx == idx
  {
  }

  // ---- all items ---------------------------------------------------------------------------

  /** A work list: distinct objects, numbered in order, with enough replies for each. */
  ghost predicate WorkList(states: seq<ItemState>, replies: seq<seq<Reply>>) {
    && |replies| == |states|
    && (forall i, j :: 0 <= i < j < |states| ==> states[i] != states[j])
    && (forall i :: 0 <= i < |states| ==> states[i].idx == i && states[i].item.Turns() <= |replies[i]|)
  }

  ghost predicate AllHonest(env: Env, states: seq<ItemState>, replies: seq<seq<Reply>>, records: seq<Record>)
    requires env.Valid() && WorkList(states, replies)
  {
    forall k :: 0 <= k < |records| ==>
      records[k].idx < |states| && Honest(env, states[records[k].idx].item, replies[records[k].idx], records[k])
  }

  lemma HonestNext(env: Env, states: seq<ItemState>, replies: seq<seq<Reply>>, records: seq<Record>, r: Record, i: nat)
    requires env.Valid() && WorkList(states, replies) && AllHonest(env, states, replies, records)
    requires i < |states| && r.idx == i && Honest(env, states[i].item, replies[i], r)
    ensures AllHonest(env, states, replies, records + [r])
  {
    hide Honest;
  }

  /** The injection loop at the head of a turn. */
  method InjectAll(env: Env, states: seq<ItemState>, replies: seq<seq<Reply>>, t: nat, ghost records: seq<Record>)
    requires env.Valid() && WorkList(states, replies)
    requires forall i :: 0 <= i < |states| ==> Stands(env, states[i], replies[i], t, Count(records, i))
    modifies states
    ensures forall i :: 0 <= i < |states| ==> Ready(env, states[i], replies[i], t, Count(records, i))
    ensures forall i :: 0 <= i < |states| ==> states[i].written == old(states[i].written)
  {
    hide Env.Valid, Count, CourseAt;
    if t > 0 {
      for k := 0 to |states|
        invariant forall i :: 0 <= i < k ==> Ready(env, states[i], replies[i], t, Count(records, i))
        invariant forall i :: k <= i < |states| ==> Stands(env, states[i], replies[i], t, Count(records, i))
        invariant forall i :: 0 <= i < |states| ==> states[i].written == old(states[i].written)
      {
        var st := states[k];
        if st.active && !st.written && t - 1 < |st.item.inter| {
          st.messages := st.messages + st.item.inter[t - 1];
        }
      }
    }
  }

  /** One turn: the active items' replies settle in any order. */
  method RunTurn(env: Env, states: seq<ItemState>, replies: seq<seq<Reply>>, t: nat, pending: set<nat>, out: Output)
    requires env.Valid() && WorkList(states, replies) && out.Valid() && AllHonest(env, states, replies, out.records)
    requires forall i :: i in pending ==> i < |states| && !states[i].written && t < states[i].item.Turns()
    requires forall i :: 0 <= i < |states| ==>
      if i in pending then Ready(env, states[i], replies[i], t, Count(out.records, i))
      else Stands(env, states[i], replies[i], t + 1, Count(out.records, i))
    modifies states, out
    ensures out.Valid() && AllHonest(env, states, replies, out.records)
    ensures forall i :: 0 <= i < |states| ==> Stands(env, states[i], replies[i], t + 1, Count(out.records, i))
  {
    hide Env.Valid, Count, CourseAt, Stands, Ready, Honest, AllHonest, Output.Valid;
    var left := pending;
    while left != {}
      invariant left <= pending && out.Valid() && AllHonest(env, states, replies, out.records)
      invariant forall i :: i in left ==> !states[i].written
      invariant forall i :: 0 <= i < |states| ==>
        if i in left then Ready(env, states[i], replies[i], t, Count(out.records, i))
        else Stands(env, states[i], replies[i], t + 1, Count(out.records, i))
      decreases left
    {
      var i :| i in left;
      ghost var before := out.records;
      PostAndFinalize(env, states[i], replies[i], t, out);
      if out.records != before {
        ghost var r :| out.records == before + [r] && r.idx == i && Honest(env, states[i].item, replies[i], r);
        CountNext(before, r);
        HonestNext(env, states, replies, before, r, i);
      }
      left := left - {i};
    }
  }

  /** The body of the turn loop; `idle` when no item was active any more. */
  method OneTurn(env: Env, states: seq<ItemState>, replies: seq<seq<Reply>>, t: nat, out: Output) returns (idle: bool)
    requires env.Valid() && WorkList(states, replies) && out.Valid() && AllHonest(env, states, replies, out.records)
    requires forall i :: 0 <= i < |states| ==> Stands(env, states[i], replies[i], t, Count(out.records, i))
    modifies states, out
    ensures out.Valid() && AllHonest(env, states, replies, out.records)
    ensures forall i :: 0 <= i < |states| ==>
      Stands(env, states[i], replies[i], if idle then states[i].item.Turns() else t + 1, Count(out.records, i))
  {
    hide Env.Valid, CourseAt, Honest, AllHonest, Output.Valid, Count, Stands, Ready;
    InjectAll(env, states, replies, t, out.records);
    var pending := set i: nat | i < |states| && states[i].active && !states[i].written && t < states[i].item.Turns();
    forall i: nat | i < |states| && i !in pending
      ensures Stands(env, states[i], replies[i], t + 1, Count(out.records, i))
      ensures Stands(env, states[i], replies[i], states[i].item.Turns(), Count(out.records, i))
    {
      DoneStands(env, states[i], replies[i], t, Count(out.records, i));
    }
    if pending == {} {
      return true;
    }
    RunTurn(env, states, replies, t, pending, out);
    return false;
  }

  /** `run_turn_loop` */
  method RunTurnLoop(env: Env, states: seq<ItemState>, replies: seq<seq<Reply>>, out: Output)
    requires env.Valid() && WorkList(states, replies) && out.Valid() && out.records == []
    requires forall i :: 0 <= i < |states| ==> !states[i].written && states[i].View() == Opening(states[i].item)
    modifies states, out
    ensures out.Valid() && AllHonest(env, states, replies, out.records)
    ensures forall i :: 0 <= i < |states| ==> Stands(env, states[i], replies[i], states[i].item.Turns(), Count(out.records, i))
  {
    if states == [] {
      return;
    }
    hide Env.Valid, CourseAt, Honest;
    forall i | 0 <= i < |states| ensures Stands(env, states[i], replies[i], 0, Count(out.records, i)) {
      BeginStands(env, states[i], replies[i]);
    }
    hide Count, Stands, Ready, Output.Valid, AllHonest;
    var maxTurns := MaxTurns(states);
    for t := 0 to maxTurns
      invariant out.Valid() && AllHonest(env, states, replies, out.records)
      invariant forall i :: 0 <= i < |states| ==> Stands(env, states[i], replies[i], t, Count(out.records, i))
    {
      var idle := OneTurn(env, states, replies, t, out);
      if idle {
        return;
      }
    }
    forall i | 0 <= i < |states| ensures Stands(env, states[i], replies[i], states[i].item.Turns(), Count(out.records, i)) {
      PastStands(env, states[i], replies[i], maxTurns, Count(out.records, i));
    }
  }

  lemma BeginStands(env: Env, st: ItemState, rs: seq<Reply>)
    requires env.Valid() && st.item.Turns() <= |rs| && !st.written && st.View() == Opening(st.item)
    ensures Stands(env, st, rs, 0, Count([], st.idx))
  {
  }

  /** An item with nothing to do in a turn is written already, or has no turns at all. */
  lemma DoneStands(env: Env, st: ItemState, rs: seq<Reply>, t: nat, count: nat)
    requires env.Valid() && st.item.Turns() <= |rs| && Ready(env, st, rs, t, count)
    requires !(st.active && !st.written && t < st.item.Turns())
    ensures Stands(env, st, rs, t + 1, count) && Stands(env, st, rs, st.item.Turns(), count)
  {
    hide CourseAt;
  }

  lemma PastStands(env: Env, st: ItemState, rs: seq<Reply>, t: nat, count: nat)
    requires env.Valid() && st.item.Turns() <= |rs| && Stands(env, st, rs, t, count) && st.item.Turns() <= t
    ensures Stands(env, st, rs, st.item.Turns(), count)
  {
    hide CourseAt;
  }

  method MaxTurns(states: seq<ItemState>) returns (m: nat)
    ensures forall i :: 0 <= i < |states| ==> states[i].item.Turns() <= m
  {
    m := 0;
    for k := 0 to |states|
      invariant forall i :: 0 <= i < k ==> states[i].item.Turns() <= m
    {
      if states[k].item.Turns() > m {
        m := states[k].item.Turns();
      }
    }
  }

  /** The whole run with the final sweep of `main`: every item is written exactly once, the counters
      agree with the lines, and every record of an item with turns is the one the item would get
      alone, whatever order the replies settled in. */
  method RunAll(env: Env, states: seq<ItemState>, replies: seq<seq<Reply>>, out: Output)
    requires env.Valid() && WorkList(states, replies) && out.Valid() && out.records == []
    requires forall i :: 0 <= i < |states| ==> !states[i].written && states[i].View() == Opening(states[i].item)
    modifies states, out
    ensures out.written == |out.records| == out.positive + out.rejected
    ensures forall i :: 0 <= i < |states| ==> states[i].written && Count(out.records, i) == 1
    ensures AllHonest(env, states, replies, out.records)
  {
    hide Env.Valid, Count, CourseAt, Honest, RecordOf, AllHonest;
    RunTurnLoop(env, states, replies, out);
    for k := 0 to |states|
      invariant out.Valid() && AllHonest(env, states, replies, out.records)
      invariant forall i :: 0 <= i < k ==> states[i].written && Count(out.records, i) == 1
      invariant forall i :: k <= i < |states| ==>
        Stands(env, states[i], replies[i], states[i].item.Turns(), Count(out.records, i))
    {
      if !states[k].written {
        ghost var before := out.records;
        var st := states[k];
        RecordIdx(env, k, st.item, st.View());
        NoTurnsHonest(env, st.item, replies[k], RecordOf(env, k, st.item, st.View()));
        HonestNext(env, states, replies, before, RecordOf(env, k, st.item, st.View()), k);
        CountNext(before, RecordOf(env, k, st.item, st.View()));
        st.ScoreAndWriteOne(env, out);
        st.written := true;
      }
    }
  }

  lemma NoTurnsHonest(env: Env, item: Item, rs: seq<Reply>, r: Record)
    requires env.Valid() && item.Turns() == 0
    ensures item.Turns() <= |rs| && Honest(env, item, rs, r)
  {
  }
}
