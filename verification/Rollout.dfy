/** The turn-synchronised rollout: every item advances turn by turn against its expected calls and
    is scored and written once, as soon as it is done. */
module Rollout {
  import opened Options
  import opened Scoring
  import opened Sequences

  /** One reply of the model: a failed request, or a text with what the validators make of it. */
  datatype Reply = Failed | Text(content: string, calls: Option<seq<Json>>, thinks: bool)

  datatype Item = Item(expected: seq<seq<Json>>, inter: seq<seq<string>>, opening: seq<string>, cap: int) {
    /** `max_turns` */
    function Turns(): (n: nat)
      ensures n <= |expected| && (cap > 0 ==> n <= cap) && (n == |expected| || n == cap)
    {
      if cap > 0 && cap < |expected| then cap else |expected|
    }
  }

  /** `tokens` is the tokenizer on a conversation, None when it raises; `limit` the token budget. */
  datatype Env = Env(co: Coercion, tokens: seq<string> -> Option<nat>, limit: nat) {
    ghost predicate Valid() { co.Valid() && limit > 0 }
  }

  /** The changing fields of an item. */
  datatype Course = Course(active: bool, preds: seq<seq<Json>>, messages: seq<string>)

  // ---- one item alone ----------------------------------------------------------------------

  /** The reply is what this turn calls for. */
  ghost predicate Passes(env: Env, exps: seq<Json>, r: Reply)
    requires env.Valid()
  {
    r.Text? &&
    if exps != [] then r.calls.Some? && MatchedCalls(env.co, r.calls.value, exps) else r.thinks
  }

  /** `_advance_one` */
  ghost function Advance(env: Env, exps: seq<Json>, t: nat, r: Reply, s: Course): Course
    requires env.Valid() && r.Text? && t < |s.preds|
  {
    var said := s.(messages := s.messages + [r.content]);
    if exps != [] then
      if Passes(env, exps, r) then said.(preds := s.preds[t := s.preds[t] + r.calls.value])
      else said.(preds := s.preds[t := s.preds[t] + [MISMATCH]], active := false)
    else if r.thinks then said
    else said.(active := false)
  }

  /** The running token cutoff. */
  function Cutoff(env: Env, s: Course): Course {
    if s.active && env.tokens(s.messages).Some? && env.tokens(s.messages).value > env.limit then s.(active := false) else s
  }

  /** The recorded tool response before turn t. */
  function Inject(item: Item, t: nat, s: Course): Course {
    if t > 0 && t - 1 < |item.inter| then s.(messages := s.messages + item.inter[t - 1]) else s
  }

  ghost function TurnOf(env: Env, item: Item, t: nat, r: Reply, s: Course): Course
    requires env.Valid() && t < |s.preds| && t < |item.expected|
  {
    Cutoff(env, if r.Failed? then s.(active := false) else Advance(env, item.expected[t], t, r, s))
  }

  function Opening(item: Item): Course {
    Course(true, seq(|item.expected|, _ => []), item.opening)
  }

  /** The item before turn n, if it were alone. */
  ghost function CourseAt(env: Env, item: Item, replies: seq<Reply>, n: nat): (s: Course)
    requires env.Valid() && n <= item.Turns() <= |replies|
    ensures |s.preds| == |item.expected|
  {
    if n == 0 then Opening(item)
    else
      var s := CourseAt(env, item, replies, n - 1);
      if !s.active then s else TurnOf(env, item, n - 1, replies[n - 1], Inject(item, n - 1, s))
  }

  /** Turn t was reached, and its reply was what it called for. */
  ghost predicate Achieved(env: Env, item: Item, replies: seq<Reply>, t: nat)
    requires env.Valid() && item.Turns() <= |replies|
  {
    t < item.Turns() && CourseAt(env, item, replies, t).active && Passes(env, item.expected[t], replies[t])
  }

  /** Predictions after exactly the first p turns were achieved; `bad` when the next one left a
      mark. */
  ghost predicate Shape(env: Env, expected: seq<seq<Json>>, preds: seq<seq<Json>>, p: nat, bad: bool)
    requires env.Valid()
  {
    && |preds| == |expected| && p <= |expected| && (bad ==> p < |expected| && expected[p] != [])
    && (forall t :: 0 <= t < p ==> MatchedCalls(env.co, preds[t], expected[t]))
    && (forall t :: p <= t < |expected| ==> preds[t] == if t == p && bad then [MISMATCH] else [])
  }

  /** One turn's effect on the predictions. */
  lemma TurnShape(env: Env, item: Item, t: nat, r: Reply, s: Course) returns (p: nat, bad: bool)
    requires env.Valid() && t < |item.expected| && Shape(env, item.expected, s.preds, t, false) && s.active
    ensures var s' := TurnOf(env, item, t, r, s);
            && Shape(env, item.expected, s'.preds, p, bad)
            && p == (if Passes(env, item.expected[t], r) then t + 1 else t)
            && (s'.active ==> p == t + 1 && !bad)
  {
    hide MatchedCalls;
    var exps := item.expected[t];
    if Passes(env, exps, r) {
      PassedCalls(env, exps, r);
      p, bad := t + 1, false;
    } else {
      p, bad := t, r.Text? && exps != [];
    }
  }

  lemma {:induction false} CourseShape(env: Env, item: Item, replies: seq<Reply>, n: nat) returns (p: nat, bad: bool)
    requires env.Valid() && n <= item.Turns() <= |replies|
    ensures Shape(env, item.expected, CourseAt(env, item, replies, n).preds, p, bad)
    ensures p <= n && (CourseAt(env, item, replies, n).active ==> p == n && !bad)
    ensures forall t: nat :: t < n ==> (Achieved(env, item, replies, t) <==> t < p)
  {
    if n == 0 {
      p, bad := 0, false;
    } else {
      p, bad := CourseShape(env, item, replies, n - 1);
      var s := CourseAt(env, item, replies, n - 1);
      hide TurnOf, Passes, Shape;
      if s.active {
        p, bad := TurnShape(env, item, n - 1, replies[n - 1], Inject(item, n - 1, s));
      }
    }
  }

  lemma PassedCalls(env: Env, exps: seq<Json>, r: Reply)
    requires env.Valid() && Passes(env, exps, r)
    ensures r.Text? && (exps != [] ==> r.calls.Some? && MatchedCalls(env.co, r.calls.value, exps) && MatchedCalls(env.co, [] + r.calls.value, exps))
    ensures exps == [] ==> r.thinks && MatchedCalls(env.co, [], exps)
  {
    if exps != [] {
      assert [] + r.calls.value == r.calls.value;
    }
  }

  lemma {:induction false} FlatMatched(env: Env, preds: seq<seq<Json>>, expected: seq<seq<Json>>)
    requires env.Valid() && |preds| == |expected|
    requires forall t :: 0 <= t < |preds| ==> MatchedCalls(env.co, preds[t], expected[t])
    ensures MatchedCalls(env.co, Flatten(preds), Flatten(expected))
  {
    if preds != [] {
      var k := |preds| - 1;
      FlatMatched(env, preds[..k], expected[..k]);
      FlattenLast(preds);
      FlattenLast(expected);
      assert MatchedCalls(env.co, preds[k], expected[k]);
    }
  }

  lemma {:induction false} FlatEmpty<T>(xs: seq<seq<T>>)
    ensures Flatten(xs) == [] <==> forall t :: 0 <= t < |xs| ==> xs[t] == []
  {
    if xs != [] {
      var k := |xs| - 1;
      FlatEmpty(xs[..k]);
      FlattenLast(xs);
      assert forall t :: 0 <= t < k ==> xs[..k][t] == xs[t];
    }
  }

  lemma FlatSplit<T>(xs: seq<seq<T>>, p: nat)
    requires p <= |xs|
    ensures Flatten(xs) == Flatten(xs[..p]) + Flatten(xs[p..])
  {
    assert xs == xs[..p] + xs[p..];
    FlattenConcat(xs[..p], xs[p..]);
  }

  /** Only the first entry, if any, holds something. */
  lemma FlatHead<T>(xs: seq<seq<T>>)
    requires xs != [] && forall t :: 0 < t < |xs| ==> xs[t] == []
    ensures Flatten(xs) == xs[0]
  {
    FlatSplit(xs, 1);
    assert xs[..1] == [xs[0]];
    FlattenOne(xs[0]);
    FlatEmpty(xs[1..]);
  }

  lemma ShapeRest(env: Env, expected: seq<seq<Json>>, preds: seq<seq<Json>>, p: nat, bad: bool)
    requires env.Valid() && Shape(env, expected, preds, p, bad)
    ensures |preds| == |expected| && p <= |expected|
    ensures Flatten(preds[p..]) == if bad then [MISMATCH] else []
    ensures bad ==> Flatten(expected[p..]) != []
  {
    hide MatchedCalls, Flatten;
    if bad {
      FlatHead(preds[p..]);
      FlatEmpty(expected[p..]);
      assert expected[p..][0] == expected[p];
    } else {
      FlatEmpty(preds[p..]);
    }
  }

  /** What the scorer sees of such predictions. */
  lemma ShapeFlat(env: Env, expected: seq<seq<Json>>, preds: seq<seq<Json>>, p: nat, bad: bool)
    requires env.Valid() && Shape(env, expected, preds, p, bad)
    ensures |preds| == |expected| && p <= |expected|
    ensures Flatten(preds) == Flatten(preds[..p]) + if bad then [MISMATCH] else []
    ensures Flatten(expected) == Flatten(expected[..p]) + Flatten(expected[p..])
    ensures MatchedCalls(env.co, Flatten(preds[..p]), Flatten(expected[..p]))
    ensures bad ==> Flatten(expected[p..]) != []
  {
    hide MatchedCalls, Flatten;
    ShapeRest(env, expected, preds, p, bad);
    FlatMatched(env, preds[..p], expected[..p]);
    FlatSplit(preds, p);
    FlatSplit(expected, p);
  }

  // ---- what a record says ------------------------------------------------------------------

  datatype Record = Record(idx: nat, score: real, numCorrect: nat, preds: seq<seq<Json>>, messages: seq<string>)

  function TokenCount(env: Env, messages: seq<string>): nat {
    var n := env.tokens(messages);
    if n.Some? then n.value else 0
  }

  ghost function RecordOf(env: Env, idx: nat, item: Item, s: Course): Record
    requires env.Valid()
  {
    var exps, preds := Flatten(item.expected), Flatten(s.preds);
    var correct := if exps == [] then 0 else CorrectCalls(env.co, preds, exps);
    var reward := if exps == [] then RelevanceReward(preds) else CallReward(correct, |exps|, MISMATCH in preds);
    Record(idx, FinalScore(reward, TokenCount(env, s.messages), env.limit), correct, s.preds, s.messages)
  }

  /** The score of a finished item: it counts the calls of the achieved turns, and is the top score
      exactly when every turn that expects calls was reached and achieved within half the token
      budget. */
  lemma RecordMeans(env: Env, idx: nat, item: Item, replies: seq<Reply>)
    requires env.Valid() && item.Turns() <= |replies|
    requires Flatten(item.expected) != [] && Telling(env.co, Flatten(item.expected))
    ensures var s := CourseAt(env, item, replies, item.Turns());
            var r := RecordOf(env, idx, item, s);
            && (exists p: nat :: p <= item.Turns() && (forall t: nat :: Achieved(env, item, replies, t) <==> t < p)
                                 && r.numCorrect == |Flatten(item.expected[..p])|)
            && r.score <= 1.5
            && (r.score == 1.5 <==>
                  && (forall t: nat :: t < |item.expected| && item.expected[t] != [] ==> Achieved(env, item, replies, t))
                  && 2 * TokenCount(env, s.messages) <= env.limit)
  {
    hide *;
    var n := item.Turns();
    var s := CourseAt(env, item, replies, n);
    var p, bad := CourseShape(env, item, replies, n);
    ShapeFlat(env, item.expected, s.preds, p, bad);
    RecordScore(env, idx, item, s, p, bad);
    AchievedBound(env, item, replies);
    AllAchieved(env, item, replies, p);
  }

  lemma AchievedBound(env: Env, item: Item, replies: seq<Reply>)
    requires env.Valid() && item.Turns() <= |replies|
    ensures forall t: nat :: Achieved(env, item, replies, t) ==> t < item.Turns()
  {
  }

  lemma AllAchieved(env: Env, item: Item, replies: seq<Reply>, p: nat)
    requires env.Valid() && p <= item.Turns() <= |replies|
    requires forall t: nat :: t < item.Turns() ==> (Achieved(env, item, replies, t) <==> t < p)
    ensures (forall t: nat :: t < |item.expected| && item.expected[t] != [] ==> Achieved(env, item, replies, t)) <==>
            Flatten(item.expected[p..]) == []
  {
    AchievedBound(env, item, replies);
    hide Achieved;
    FlatEmpty(item.expected[p..]);
    assert forall t: nat :: p <= t < |item.expected| ==> item.expected[p..][t - p] == item.expected[t];
  }

  lemma RecordScore(env: Env, idx: nat, item: Item, s: Course, p: nat, bad: bool)
    requires env.Valid() && Flatten(item.expected) != [] && Telling(env.co, Flatten(item.expected))
    requires p <= |item.expected| == |s.preds|
    requires Flatten(s.preds) == Flatten(s.preds[..p]) + if bad then [MISMATCH] else []
    requires Flatten(item.expected) == Flatten(item.expected[..p]) + Flatten(item.expected[p..])
    requires MatchedCalls(env.co, Flatten(s.preds[..p]), Flatten(item.expected[..p]))
    requires bad ==> Flatten(item.expected[p..]) != []
    ensures env.limit > 0
    ensures var r := RecordOf(env, idx, item, s);
            && r.numCorrect == |Flatten(item.expected[..p])| && r.score <= 1.5
            && (r.score == 1.5 <==> Flatten(item.expected[p..]) == [] && 2 * TokenCount(env, s.messages) <= env.limit)
  {
    hide Shape, Flatten, Env.Valid, Telling, FinalScore, CallReward, CorrectCalls, MatchedCalls;
    var exps, done := Flatten(item.expected), Flatten(item.expected[..p]);
    CallsCounted(env, Flatten(s.preds[..p]), bad, exps, done);
    TopScore(|done|, |exps|, bad, TokenCount(env, s.messages), env.limit);
  }

  lemma CallsCounted(env: Env, calls: seq<Json>, bad: bool, exps: seq<Json>, done: seq<Json>)
    requires env.Valid() && Telling(env.co, exps) && done <= exps && MatchedCalls(env.co, calls, done)
    ensures |calls| == |done| && env.limit > 0
    ensures var preds := calls + if bad then [MISMATCH] else [];
            CorrectCalls(env.co, preds, exps) == |done| && (MISMATCH in preds <==> bad)
  {
    assert exps[..|calls|] == done;
    MatchedPrefixCounts(env.co, calls, bad, exps);
  }

  // ---- what a record holds -----------------------------------------------------------------

  /** What is said in turn t: the recorded tool response to the turn before, then the reply. */
  function TurnSaid(item: Item, replies: seq<Reply>, t: nat): seq<string>
    requires t < |replies|
  {
    (if 1 <= t <= |item.inter| then item.inter[t - 1] else []) + if replies[t].Text? then [replies[t].content] else []
  }

  /** The conversation after the first n turns. */
  function Said(item: Item, replies: seq<Reply>, n: nat): seq<string>
    requires n <= |replies|
  {
    item.opening + Flatten(seq(n, t requires 0 <= t < n => TurnSaid(item, replies, t)))
  }

  /** What is kept of turn t's reply: its calls when they are right, a mark when they are not. */
  ghost function Kept(env: Env, item: Item, replies: seq<Reply>, t: nat): seq<Json>
    requires env.Valid() && t < |replies| && t < |item.expected|
  {
    if item.expected[t] == [] || replies[t].Failed? then []
    else if replies[t].calls.Some? && MatchedCalls(env.co, replies[t].calls.value, item.expected[t]) then replies[t].calls.value
    else [MISMATCH]
  }

  /** The item goes on after turn t: there was a reply, with the expected calls or, where none is
      expected, with well-formed thinking, and the conversation is within the token limit. */
  ghost predicate GoesOn(env: Env, item: Item, replies: seq<Reply>, t: nat)
    requires env.Valid() && t < |replies| && t < |item.expected|
  {
    && replies[t].Text?
    && (if item.expected[t] == [] then replies[t].thinks
        else replies[t].calls.Some? && MatchedCalls(env.co, replies[t].calls.value, item.expected[t]))
    && var n := env.tokens(Said(item, replies, t + 1));
       n.Some? ==> n.value <= env.limit
  }

  /** The course of an item that took k turns, and only the last of them may have ended it. */
  ghost predicate Took(env: Env, item: Item, replies: seq<Reply>, s: Course, k: nat)
    requires env.Valid() && k <= |replies| && k <= |item.expected|
  {
    && s.messages == Said(item, replies, k) && |s.preds| == |item.expected|
    && (forall t :: 0 <= t < |item.expected| ==> s.preds[t] == if t < k then Kept(env, item, replies, t) else [])
    && (forall t: nat :: t + 1 < k ==> GoesOn(env, item, replies, t))
    && (s.active <==> forall t: nat :: t < k ==> GoesOn(env, item, replies, t))
  }

  lemma SaidNext(item: Item, replies: seq<Reply>, n: nat)
    requires n < |replies|
    ensures Said(item, replies, n + 1) == Said(item, replies, n) + TurnSaid(item, replies, n)
    ensures Said(item, replies, 0) == item.opening
  {
    var xs := seq(n, t requires 0 <= t < n => TurnSaid(item, replies, t));
    FlattenAppend(xs, TurnSaid(item, replies, n));
    assert seq(n + 1, t requires 0 <= t < n + 1 => TurnSaid(item, replies, t)) == xs + [TurnSaid(item, replies, n)];
  }

  /** One more turn of an active item. */
  lemma TookTurn(env: Env, item: Item, replies: seq<Reply>, s: Course, t: nat)
    requires env.Valid() && t < |replies| && t < |item.expected| && Took(env, item, replies, s, t) && s.active
    ensures Took(env, item, replies, TurnOf(env, item, t, replies[t], Inject(item, t, s)), t + 1)
  {
    hide MatchedCalls, Said, Env.Valid, TurnOf;
    SaidNext(item, replies, t);
    TurnMessages(env, item, replies, t, s);
    TurnOutcome(env, item, replies, t, s);
    hide Kept, GoesOn;
    var s' := TurnOf(env, item, t, replies[t], Inject(item, t, s));
    assert s'.active ==> forall u: nat :: u < t + 1 ==> GoesOn(env, item, replies, u);
  }

  lemma TurnMessages(env: Env, item: Item, replies: seq<Reply>, t: nat, s: Course)
    requires env.Valid() && t < |replies| && t < |item.expected| == |s.preds|
    ensures TurnOf(env, item, t, replies[t], Inject(item, t, s)).messages == s.messages + TurnSaid(item, replies, t)
  {
    hide Passes;
    var inj := if 1 <= t <= |item.inter| then item.inter[t - 1] else [];
    assert Inject(item, t, s).messages == s.messages + inj;
    assert s.messages + inj + [] == s.messages + (inj + []);
  }

  /** What one turn keeps of the reply, and when it goes on. */
  lemma TurnOutcome(env: Env, item: Item, replies: seq<Reply>, t: nat, s: Course)
    requires env.Valid() && t < |replies| && t < |item.expected| && Took(env, item, replies, s, t) && s.active
    ensures var s' := TurnOf(env, item, t, replies[t], Inject(item, t, s));
            s'.preds == s.preds[t := Kept(env, item, replies, t)] && (s'.active <==> GoesOn(env, item, replies, t))
  {
    hide MatchedCalls, Said, Env.Valid;
    SaidNext(item, replies, t);
    TurnMessages(env, item, replies, t, s);
    assert s.preds[t] == [] && s.preds[t := []] == s.preds && [] + [MISMATCH] == [MISMATCH];
    if replies[t].Text? && replies[t].calls.Some? {
      assert [] + replies[t].calls.value == replies[t].calls.value;
    }
  }

  /** The course of every item, turn by turn: how far it gets, what was said, and what is kept. */
  lemma {:induction false} CourseIs(env: Env, item: Item, replies: seq<Reply>, n: nat) returns (k: nat)
    requires env.Valid() && n <= item.Turns() <= |replies|
    ensures k <= n && Took(env, item, replies, CourseAt(env, item, replies, n), k)
    ensures CourseAt(env, item, replies, n).active ==> k == n
  {
    hide TurnOf, Inject, Took;
    if n == 0 {
      k := 0;
      TookNone(env, item, replies);
    } else {
      k := CourseIs(env, item, replies, n - 1);
      var s := CourseAt(env, item, replies, n - 1);
      if s.active {
        TookTurn(env, item, replies, s, n - 1);
        k := n;
      }
    }
  }

  lemma TookNone(env: Env, item: Item, replies: seq<Reply>)
    requires env.Valid()
    ensures Took(env, item, replies, Opening(item), 0)
  {
    assert Flatten<string>([]) == [];
  }

  /** A record's score is a matter of its counts. */
  ghost predicate RecordScored(env: Env, item: Item, s: Course, r: Record)
    requires env.Valid()
  {
    var exps, marked, tokens := Flatten(item.expected), MISMATCH in Flatten(s.preds), TokenCount(env, s.messages);
    && env.limit > 0 && r.preds == s.preds && r.messages == s.messages
    && (exps != [] ==> r.numCorrect <= |exps| && Scored(r.numCorrect, |exps|, marked, tokens, env.limit, r.score))
    && (exps == [] ==> r.numCorrect == 0 && RelevanceScored(Flatten(s.preds), tokens, env.limit, r.score))
  }

  lemma RecordIsScored(env: Env, idx: nat, item: Item, s: Course)
    requires env.Valid()
    ensures RecordScored(env, item, s, RecordOf(env, idx, item, s))
  {
    hide FinalScore, CallReward, Scored, CorrectCalls, RelevanceReward, Decay, RelevanceScored;
    var exps, preds := Flatten(item.expected), Flatten(s.preds);
    if exps == [] {
      RelevanceIs(preds, TokenCount(env, s.messages), env.limit);
    } else {
      ScoreIs(CorrectCalls(env.co, preds, exps), |exps|, MISMATCH in preds, TokenCount(env, s.messages), env.limit);
    }
  }

  /** An item that expects no call at all is kept exactly below the token limit, and loses what its
      length costs. */
  lemma NoCallsExpected(env: Env, idx: nat, item: Item, replies: seq<Reply>)
    requires env.Valid() && item.Turns() <= |replies| && Flatten(item.expected) == []
    ensures env.limit > 0
    ensures var s := CourseAt(env, item, replies, item.Turns());
            var r, tokens := RecordOf(env, idx, item, s), TokenCount(env, s.messages);
            && Flatten(s.preds) == [] && r.numCorrect == 0
            && r.score == (if tokens < env.limit then 1.0 - Decay(tokens, env.limit) else -1.0)
            && (r.score > 0.0 <==> tokens < env.limit)
  {
    hide *;
    var s := CourseAt(env, item, replies, item.Turns());
    var k := CourseIs(env, item, replies, item.Turns());
    NothingKept(env, item, replies, s, k);
    RecordIsScored(env, idx, item, s);
    ScoredParts(env, item, s, RecordOf(env, idx, item, s));
    NoCallsScore(TokenCount(env, s.messages), env.limit, RecordOf(env, idx, item, s).score);
  }

  lemma NothingKept(env: Env, item: Item, replies: seq<Reply>, s: Course, k: nat)
    requires env.Valid() && k <= |replies| && k <= |item.expected| && Took(env, item, replies, s, k) && Flatten(item.expected) == []
    ensures Flatten(s.preds) == []
  {
    hide Said, GoesOn, Flatten;
    FlatEmpty(item.expected);
    FlatEmpty(s.preds);
  }

  lemma ScoredParts(env: Env, item: Item, s: Course, r: Record)
    requires env.Valid() && RecordScored(env, item, s, r) && Flatten(item.expected) == [] && Flatten(s.preds) == []
    ensures env.limit > 0 && r.numCorrect == 0 && RelevanceScored([], TokenCount(env, s.messages), env.limit, r.score)
  {
    hide RelevanceScored, Flatten;
  }
}
