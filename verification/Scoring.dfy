/** Comparing tool calls as JSON values, and scoring an episode of them. */
module Scoring {
  import opened Options

  /** Python values as JSON and literals give them; True and False are the numbers 1 and 0, as in
      Python's own equality.  Other holds literals of other types, compared by equality only. */
  datatype Json = Null | Num(n: real) | Str(s: string) | List(xs: seq<Json>) | Dict(m: map<string, Json>) | Other(id: int)

  const MISMATCH: Json := Str("__MISMATCH__")
  const APOLOGY: Json := Str("__APOLOGY__")
  const INFO: Json := Str("__INFO__")

  /** The string decoders, kept abstract: `loads` is `json.loads`, `decode` what `_coerce_jsonlike`
      makes of a string, None when it leaves it alone; `rank` bounds the nesting of encodings. */
  datatype Coercion = Coercion(loads: string -> Option<Json>, decode: string -> Option<Json>, rank: Json -> nat) {
    ghost predicate Valid() {
      && (forall s {:trigger decode(s)} :: decode(s).Some? ==> rank(decode(s).value) <= rank(Str(s)))
      && (forall m: map<string, Json>, k {:trigger m[k]} :: k in m ==> rank(m[k]) < rank(Dict(m)))
      && decode(MISMATCH.s).None?
    }

    function Coerce(v: Json): Json {
      if v.Str? && decode(v.s).Some? then decode(v.s).value else v
    }
  }

  /** `json_objects_match`: the expected side's keys, recursively, inside the model's. */
  predicate Matches(co: Coercion, model: Json, expected: Json)
    requires co.Valid()
    decreases co.rank(expected)
  {
    var m, e := co.Coerce(model), co.Coerce(expected);
    if e.Dict? then m.Dict? && forall k :: k in e.m ==> k in m.m && Matches(co, m.m[k], e.m[k])
    else m == e
  }

  // ---- a preorder --------------------------------------------------------------------------

  lemma {:induction false} MatchesReflexive(co: Coercion, v: Json)
    requires co.Valid()
    ensures Matches(co, v, v)
    decreases co.rank(v)
  {
    var e := co.Coerce(v);
    if e.Dict? {
      forall k | k in e.m ensures Matches(co, e.m[k], e.m[k]) {
        MatchesReflexive(co, e.m[k]);
      }
    }
  }

  lemma {:induction false} MatchesTransitive(co: Coercion, a: Json, b: Json, c: Json)
    requires co.Valid() && Matches(co, a, b) && Matches(co, b, c)
    ensures Matches(co, a, c)
    decreases co.rank(c)
  {
    var a', b', c' := co.Coerce(a), co.Coerce(b), co.Coerce(c);
    if c'.Dict? {
      forall k | k in c'.m ensures k in a'.m && Matches(co, a'.m[k], c'.m[k]) {
        MatchesTransitive(co, a'.m[k], b'.m[k], c'.m[k]);
      }
    }
  }

  /** Keys added on the model's side never break a match. */
  lemma AddedKeysMatch(co: Coercion, m: map<string, Json>, more: map<string, Json>, expected: Json)
    requires co.Valid() && Matches(co, Dict(m), expected)
    requires forall k :: k in m ==> k in more && more[k] == m[k]
    ensures Matches(co, Dict(more), expected)
  {
    forall k | k in m ensures Matches(co, more[k], m[k]) {
      MatchesReflexive(co, m[k]);
    }
    assert Matches(co, Dict(more), Dict(m));
    MatchesTransitive(co, Dict(more), Dict(m), expected);
  }

  // ---- what a match means ------------------------------------------------------------------

  /** The value a path of keys leads to, strings decoded on the way and at its end. */
  function At(co: Coercion, v: Json, path: seq<string>): Option<Json>
    decreases |path|
  {
    var c := co.Coerce(v);
    if path == [] then Some(c)
    else if c.Dict? && path[0] in c.m then At(co, c.m[path[0]], path[1..])
    else None
  }

  /** The model's side has, at this path, what the expected side has: a dict for a dict, and for
      anything else the same value. */
  predicate AgreeAt(co: Coercion, model: Json, expected: Json, path: seq<string>) {
    var e, m := At(co, expected, path), At(co, model, path);
    e.Some? ==> m.Some? && if e.value.Dict? then m.value.Dict? else m.value == e.value
  }

  lemma AtStep(co: Coercion, v: Json, k: string, path: seq<string>)
    ensures At(co, v, []) == Some(co.Coerce(v))
    ensures var c := co.Coerce(v); At(co, v, [k] + path) == if c.Dict? && k in c.m then At(co, c.m[k], path) else None
  {
    assert ([k] + path)[1..] == path;
  }

  /** A call matches exactly when it agrees at every path of keys of the expected one. */
  lemma {:induction false} MatchesMeans(co: Coercion, model: Json, expected: Json)
    requires co.Valid()
    ensures Matches(co, model, expected) <==> forall path :: AgreeAt(co, model, expected, path)
    decreases co.rank(expected)
  {
    var m, e := co.Coerce(model), co.Coerce(expected);
    AtStep(co, model, "", []);
    AtStep(co, expected, "", []);
    if e.Dict? {
      forall k | k in e.m ensures m.Dict? && k in m.m ==>
        (Matches(co, m.m[k], e.m[k]) <==> forall path :: AgreeAt(co, m.m[k], e.m[k], path))
      {
        if m.Dict? && k in m.m {
          MatchesMeans(co, m.m[k], e.m[k]);
        }
      }
      if forall path :: AgreeAt(co, model, expected, path) {
        assert AgreeAt(co, model, expected, []);
        forall k | k in e.m ensures k in m.m && forall path :: AgreeAt(co, m.m[k], e.m[k], path) {
          AgreeBelow(co, model, expected, k);
        }
      }
      if Matches(co, model, expected) {
        forall path ensures AgreeAt(co, model, expected, path) {
          if path != [] {
            assert path == [path[0]] + path[1..];
            AtStep(co, model, path[0], path[1..]);
            AtStep(co, expected, path[0], path[1..]);
            assert path[0] in e.m ==> AgreeAt(co, m.m[path[0]], e.m[path[0]], path[1..]);
          }
        }
      }
    } else {
      assert AgreeAt(co, model, expected, []) <==> m == e;
    }
  }

  /** Agreement at every path is agreement below every key. */
  lemma AgreeBelow(co: Coercion, model: Json, expected: Json, k: string)
    requires var e := co.Coerce(expected); e.Dict? && k in e.m
    requires forall path :: AgreeAt(co, model, expected, path)
    ensures var m, e := co.Coerce(model), co.Coerce(expected);
            m.Dict? && k in m.m && forall path :: AgreeAt(co, m.m[k], e.m[k], path)
  {
    var m, e := co.Coerce(model), co.Coerce(expected);
    AtStep(co, model, k, []);
    AtStep(co, expected, k, []);
    AtStep(co, e.m[k], "", []);
    assert [k] + [] == [k];
    assert AgreeAt(co, model, expected, [k]);
    forall path ensures AgreeAt(co, m.m[k], e.m[k], path) {
      AtStep(co, model, k, path);
      AtStep(co, expected, k, path);
      assert AgreeAt(co, model, expected, [k] + path);
    }
  }

  /** A value with every string in its dicts decoded. */
  function Decode(co: Coercion, v: Json): Json
    requires co.Valid()
    decreases co.rank(v)
  {
    var c := co.Coerce(v);
    if c.Dict? then Dict(map k | k in c.m :: Decode(co, c.m[k])) else c
  }

  /** Two values match each other exactly when they are equal once decoded. */
  lemma {:induction false} MutualIsEqual(co: Coercion, a: Json, b: Json)
    requires co.Valid()
    ensures Matches(co, a, b) && Matches(co, b, a) <==> Decode(co, a) == Decode(co, b)
    decreases co.rank(a)
  {
    var x, y := co.Coerce(a), co.Coerce(b);
    if x.Dict? && y.Dict? {
      forall k | k in x.m && k in y.m
        ensures Matches(co, x.m[k], y.m[k]) && Matches(co, y.m[k], x.m[k]) <==> Decode(co, x.m[k]) == Decode(co, y.m[k])
      {
        MutualIsEqual(co, x.m[k], y.m[k]);
      }
      DictsMutual(co, a, b);
    }
  }

  /** Dicts match each other when they have the same keys and match below each. */
  lemma DictsMutual(co: Coercion, a: Json, b: Json)
    requires co.Valid()
    requires var x, y := co.Coerce(a), co.Coerce(b);
             && x.Dict? && y.Dict?
             && forall k :: k in x.m && k in y.m ==>
                  (Matches(co, x.m[k], y.m[k]) && Matches(co, y.m[k], x.m[k]) <==> Decode(co, x.m[k]) == Decode(co, y.m[k]))
    ensures Matches(co, a, b) && Matches(co, b, a) <==> Decode(co, a) == Decode(co, b)
  {
    hide *;
    var x, y := co.Coerce(a), co.Coerce(b);
    MatchesDicts(co, a, b);
    MatchesDicts(co, b, a);
    DecodeDict(co, a);
    DecodeDict(co, b);
    var dx, dy := Decode(co, a).m, Decode(co, b).m;
    if dx == dy {
      forall k | k in x.m ensures k in y.m && Decode(co, x.m[k]) == Decode(co, y.m[k]) {
        assert k in dx && dx[k] == dy[k];
      }
      forall k | k in y.m ensures k in x.m {
        assert k in dy;
      }
    }
    if Matches(co, a, b) && Matches(co, b, a) {
      assert dx == dy;
    }
  }

  lemma MatchesDicts(co: Coercion, a: Json, b: Json)
    requires co.Valid() && co.Coerce(a).Dict? && co.Coerce(b).Dict?
    ensures var x, y := co.Coerce(a), co.Coerce(b);
            Matches(co, a, b) <==> forall k :: k in y.m ==> k in x.m && Matches(co, x.m[k], y.m[k])
  {
  }

  lemma DecodeDict(co: Coercion, a: Json)
    requires co.Valid() && co.Coerce(a).Dict?
    ensures var x, d := co.Coerce(a), Decode(co, a);
            d.Dict? && (forall k :: k in d.m <==> k in x.m) && forall k :: k in x.m ==> d.m[k] == Decode(co, x.m[k])
  {
  }

  // ---- expected calls ----------------------------------------------------------------------

  /** `parse_expected_call` */
  method ParseExpectedCall(co: Coercion, raw: Json) returns (r: Json)
    ensures r == Expected(co, raw)
  {
    var obj := raw;
    if raw.Str? {
      var l := co.loads(raw.s);
      obj := if l.Some? then l.value else co.Coerce(raw);
    }
    if !obj.Dict? {
      return Dict(map[]);
    }
    if "arguments" in obj.m {
      obj := Dict(obj.m["arguments" := co.Coerce(obj.m["arguments"])]);
    }
    return obj;
  }

  /** The object behind a raw call, which may be given as a string. */
  function Decoded(co: Coercion, raw: Json): Json {
    if !raw.Str? then raw else var l := co.loads(raw.s); if l.Some? then l.value else co.Coerce(raw)
  }

  function Expected(co: Coercion, raw: Json): (r: Json)
    ensures r.Dict?
  {
    var obj := Decoded(co, raw);
    if !obj.Dict? then Dict(map[])
    else if "arguments" in obj.m then Dict(obj.m["arguments" := co.Coerce(obj.m["arguments"])])
    else obj
  }

  /** An expected call that does not decode to a dict, or to one without keys, is matched by every call
      that is a dict: the comparison does not fail.  No other expected call is. */
  lemma UnparsedMatchesDicts(co: Coercion, raw: Json)
    requires co.Valid()
    ensures (forall call :: Matches(co, call, Expected(co, raw)) <==> co.Coerce(call).Dict?) <==>
            !Decoded(co, raw).Dict? || Decoded(co, raw).m == map[]
  {
    var e := Expected(co, raw);
    if e.m != map[] {
      var k :| k in e.m;
      assert co.Coerce(Dict(map[])).Dict? && !Matches(co, Dict(map[]), e);
    }
  }

  /** Parsing does not change what a call is compared with, unless its arguments are encoded twice: the
      comparison decodes one level itself. */
  lemma ParsingKeepsMatches(co: Coercion, raw: Json, call: Json)
    requires co.Valid() && Decoded(co, raw).Dict?
    requires var d := Decoded(co, raw).m; "arguments" in d ==> co.Coerce(co.Coerce(d["arguments"])) == co.Coerce(d["arguments"])
    ensures Matches(co, call, Expected(co, raw)) <==> Matches(co, call, Decoded(co, raw))
  {
    var d, e, m := Decoded(co, raw).m, Expected(co, raw).m, co.Coerce(call);
    if m.Dict? {
      forall k | k in d && k in m.m ensures Matches(co, m.m[k], e[k]) <==> Matches(co, m.m[k], d[k]) {
        SameCoerced(co, m.m[k], e[k], d[k]);
      }
    }
  }

  lemma SameCoerced(co: Coercion, model: Json, a: Json, b: Json)
    requires co.Valid() && co.Coerce(a) == co.Coerce(b)
    ensures Matches(co, model, a) <==> Matches(co, model, b)
  {
  }

  // ---- episode scores ----------------------------------------------------------------------

  function CountMatches(co: Coercion, preds: seq<Json>, exps: seq<Json>): (n: nat)
    requires co.Valid() && |preds| == |exps|
    ensures n <= |exps|
  {
    if exps == [] then 0
    else
      var k := |exps| - 1;
      CountMatches(co, preds[..k], exps[..k]) + if Matches(co, preds[k], Expected(co, exps[k])) then 1 else 0
  }

  /** The predicted calls without mismatch marks. */
  function Unmarked(preds: seq<Json>): seq<Json> {
    if preds == [] then []
    else
      var k := |preds| - 1;
      Unmarked(preds[..k]) + if preds[k] == MISMATCH then [] else [preds[k]]
  }

  /** Cut or padded with empty dicts to length n. */
  function Fitted(preds: seq<Json>, n: nat): (r: seq<Json>)
    ensures |r| == n
  {
    seq(n, i requires 0 <= i < n => if i < |preds| then preds[i] else Dict(map[]))
  }

  function CorrectCalls(co: Coercion, preds: seq<Json>, exps: seq<Json>): (n: nat)
    requires co.Valid()
    ensures n <= |exps|
  {
    CountMatches(co, Fitted(Unmarked(preds), |exps|), exps)
  }

  function RelevanceReward(preds: seq<Json>): real {
    if forall p :: p in preds ==> p == APOLOGY || p == INFO then
      1.0 + (if APOLOGY in preds then 0.1 else 0.0) + (if INFO in preds then 0.1 else 0.0)
    else -0.2
  }

  function CallReward(correct: nat, expected: nat, mismatch: bool): real
    requires expected > 0
  {
    (correct as real) / (expected as real) + (if correct == expected then 0.5 else 0.0) + (if mismatch then -0.2 else 0.0)
  }

  /** The branch of `score_episode` for an episode that expects no call. */
  method ScoreRelevance(preds: seq<Json>) returns (reward: real)
    ensures reward == RelevanceReward(preds)
  {
    var others := exists i :: 0 <= i < |preds| && preds[i] !in [APOLOGY, INFO, MISMATCH];
    var success := MISMATCH !in preds && !others;
    if !success {
      assert |MISMATCH.s| == 12 && |APOLOGY.s| == 11 && |INFO.s| == 8;
      if others {
        var i :| 0 <= i < |preds| && preds[i] !in [APOLOGY, INFO, MISMATCH];
        assert preds[i] in preds && preds[i] != APOLOGY && preds[i] != INFO;
      }
      return -0.2;
    }
    return 1.0 + (if APOLOGY in preds then 0.1 else 0.0) + (if INFO in preds then 0.1 else 0.0);
  }

  /** `[c for c in pred_calls if c != "__MISMATCH__"]` */
  method DropMarks(preds: seq<Json>) returns (calls: seq<Json>)
    ensures calls == Unmarked(preds)
  {
    calls := [];
    for i := 0 to |preds|
      invariant calls == Unmarked(preds[..i])
    {
      assert preds[..i + 1][..i] == preds[..i];
      if preds[i] != MISMATCH {
        calls := calls + [preds[i]];
      }
    }
    assert preds[..|preds|] == preds;
  }

  /** `score_episode` with its default weights, on reals. */
  method ScoreEpisode(co: Coercion, preds: seq<Json>, exps: seq<Json>) returns (reward: real, correct: nat)
    requires co.Valid()
    ensures exps == [] ==> correct == 0 && reward == RelevanceReward(preds)
    ensures exps != [] ==> correct == CorrectCalls(co, preds, exps)
    ensures exps != [] ==> reward == CallReward(correct, |exps|, MISMATCH in preds)
  {
    hide Coercion.Valid, Matches, Expected, Unmarked, RelevanceReward;
    if |exps| == 0 {
      reward := ScoreRelevance(preds);
      return reward, 0;
    }
    var calls, penalty := preds, 0.0;
    if MISMATCH in preds {
      calls := DropMarks(preds);
      penalty := -0.2;
    } else {
      UnmarkedSame(preds);
    }
    calls := calls + if |calls| < |exps| then seq(|exps| - |calls|, _ => Dict(map[])) else [];
    ghost var fitted := Fitted(Unmarked(preds), |exps|);
    assert forall i :: 0 <= i < |exps| ==> calls[i] == fitted[i];
    correct := 0;
    for i := 0 to |exps|
      invariant correct == CountMatches(co, fitted[..i], exps[..i])
    {
      var e := ParseExpectedCall(co, exps[i]);
      assert fitted[..i + 1][..i] == fitted[..i] && exps[..i + 1][..i] == exps[..i];
      if Matches(co, calls[i], e) {
        correct := correct + 1;
      }
    }
    assert fitted[..|exps|] == fitted && exps[..|exps|] == exps;
    var dense := (correct as real) / (|exps| as real);
    var bonus := if correct == |exps| then 0.5 else 0.0;
    reward := dense + bonus + penalty;
  }

  lemma {:induction false} UnmarkedAppend(preds: seq<Json>, p: Json)
    ensures Unmarked(preds + [p]) == Unmarked(preds) + if p == MISMATCH then [] else [p]
    ensures Unmarked([]) == []
  {
    assert (preds + [p])[..|preds|] == preds;
  }

  /** The calls at the given places, in order: all that are no mark, and nothing else. */
  ghost predicate PicksCalls(preds: seq<Json>, calls: seq<Json>, places: seq<nat>) {
    && |places| == |calls|
    && (forall i, j :: 0 <= i < j < |places| ==> places[i] < places[j])
    && (forall i :: 0 <= i < |places| ==> places[i] < |preds| && preds[places[i]] == calls[i] != MISMATCH)
    && (forall k: nat :: k < |preds| && preds[k] != MISMATCH ==> k in places)
  }

  lemma {:induction false} UnmarkedPicks(preds: seq<Json>) returns (places: seq<nat>)
    ensures PicksCalls(preds, Unmarked(preds), places)
  {
    hide *;
    places := [];
    NoneToPick();
    UnmarkedAppend([], MISMATCH);
    if preds != [] {
      var k := |preds| - 1;
      assert preds == preds[..k] + [preds[k]];
      places := UnmarkedPicks(preds[..k]);
      PicksNext(preds[..k], Unmarked(preds[..k]), places, preds[k]);
      UnmarkedAppend(preds[..k], preds[k]);
      if preds[k] != MISMATCH {
        places := places + [k];
      }
    }
  }

  lemma NoneToPick()
    ensures PicksCalls([], [], [])
  {
  }

  lemma PicksNext(preds: seq<Json>, calls: seq<Json>, places: seq<nat>, p: Json)
    requires PicksCalls(preds, calls, places)
    ensures p == MISMATCH ==> PicksCalls(preds + [p], calls + [], places)
    ensures p != MISMATCH ==> PicksCalls(preds + [p], calls + [p], places + [|preds|])
  {
    assert calls + [] == calls;
    assert (places + [|preds|])[|places|] == |preds|;
    forall k: nat | k < |preds| && preds[k] != MISMATCH ensures k in places + [|preds|] {
      assert k in places;
    }
  }

  /** Expected call i is answered: the i-th call that is no mark matches it, or, when there is no i-th
      call, every dict does. */
  ghost predicate Answered(co: Coercion, calls: seq<Json>, exps: seq<Json>, i: nat)
    requires co.Valid()
  {
    i < |exps| && Matches(co, if i < |calls| then calls[i] else Dict(map[]), Expected(co, exps[i]))
  }

  /** The places at which the calls match what is expected. */
  ghost function Matching(co: Coercion, fitted: seq<Json>, exps: seq<Json>): set<nat>
    requires co.Valid() && |fitted| == |exps|
  {
    set i: nat | i < |exps| && Matches(co, fitted[i], Expected(co, exps[i]))
  }

  lemma {:induction false} CountIsSize(co: Coercion, fitted: seq<Json>, exps: seq<Json>)
    requires co.Valid() && |fitted| == |exps|
    ensures CountMatches(co, fitted, exps) == |Matching(co, fitted, exps)|
  {
    hide *;
    CountStep(co, fitted, exps);
    MatchingStep(co, fitted, exps);
    if exps != [] {
      CountIsSize(co, fitted[..|exps| - 1], exps[..|exps| - 1]);
    }
  }

  lemma CountStep(co: Coercion, fitted: seq<Json>, exps: seq<Json>)
    requires co.Valid() && |fitted| == |exps|
    ensures exps == [] ==> CountMatches(co, fitted, exps) == 0
    ensures exps != [] ==>
              var k := |exps| - 1;
              CountMatches(co, fitted, exps) == CountMatches(co, fitted[..k], exps[..k]) + if Matches(co, fitted[k], Expected(co, exps[k])) then 1 else 0
  {
    hide Matches, Expected, Coercion.Valid;
  }

  lemma MatchingStep(co: Coercion, fitted: seq<Json>, exps: seq<Json>)
    requires co.Valid() && |fitted| == |exps|
    ensures exps == [] ==> |Matching(co, fitted, exps)| == 0
    ensures exps != [] ==>
              var k := |exps| - 1;
              |Matching(co, fitted, exps)| == |Matching(co, fitted[..k], exps[..k])| + if Matches(co, fitted[k], Expected(co, exps[k])) then 1 else 0
  {
    hide Matches, Expected, Coercion.Valid;
    if exps == [] {
      assert Matching(co, fitted, exps) == {};
    } else {
      var k := |exps| - 1;
      var before := Matching(co, fitted[..k], exps[..k]);
      assert k !in before;
      assert Matching(co, fitted, exps) == before + if Matches(co, fitted[k], Expected(co, exps[k])) then {k} else {};
    }
  }

  /** What is counted: the expected calls that are answered by the call in the same place among those
      that are no marks. */
  lemma CorrectMeans(co: Coercion, preds: seq<Json>, exps: seq<Json>) returns (calls: seq<Json>, places: seq<nat>)
    requires co.Valid()
    ensures PicksCalls(preds, calls, places)
    ensures CorrectCalls(co, preds, exps) == |set i: nat | i < |exps| && Answered(co, calls, exps, i)|
  {
    calls := Unmarked(preds);
    places := UnmarkedPicks(preds);
    var fitted := Fitted(calls, |exps|);
    CountIsSize(co, fitted, exps);
    hide Matches, Expected, Coercion.Valid;
    assert forall i: nat :: i < |exps| ==> (Answered(co, calls, exps, i) <==> Matches(co, fitted[i], Expected(co, exps[i])));
    assert (set i: nat | i < |exps| && Answered(co, calls, exps, i)) == Matching(co, fitted, exps);
  }

  lemma {:induction false} UnmarkedSame(preds: seq<Json>)
    requires MISMATCH !in preds
    ensures Unmarked(preds) == preds
  {
    hide *;
    UnmarkedAppend([], MISMATCH);
    if preds != [] {
      var k := |preds| - 1;
      assert preds == preds[..k] + [preds[k]] && preds[k] in preds;
      UnmarkedSame(preds[..k]);
      UnmarkedAppend(preds[..k], preds[k]);
    }
  }

  // ---- the meaning of the score ------------------------------------------------------------

  /** The calls of one turn against what it should have called. */
  ghost predicate MatchedCalls(co: Coercion, calls: seq<Json>, exps: seq<Json>)
    requires co.Valid()
  {
    |calls| == |exps| && forall j :: 0 <= j < |exps| ==> Matches(co, calls[j], Expected(co, exps[j]))
  }

  predicate Telling(co: Coercion, exps: seq<Json>) {
    forall j :: 0 <= j < |exps| ==> Expected(co, exps[j]).m != map[]
  }

  lemma MatchIsNoMark(co: Coercion, call: Json, raw: Json)
    requires co.Valid() && Matches(co, call, Expected(co, raw))
    ensures call != MISMATCH
  {
  }

  lemma EmptyMatchesNone(co: Coercion, raw: Json)
    requires co.Valid() && Expected(co, raw).m != map[]
    ensures !Matches(co, Dict(map[]), Expected(co, raw))
  {
    var e := Expected(co, raw);
    assert |e.m| > 0;
    var k :| k in e.m;
  }

  lemma {:induction false} CountIs(co: Coercion, calls: seq<Json>, exps: seq<Json>, n: nat)
    requires co.Valid() && |calls| == |exps| && n <= |exps|
    requires forall i :: 0 <= i < |exps| ==> (Matches(co, calls[i], Expected(co, exps[i])) <==> i < n)
    ensures CountMatches(co, calls, exps) == n
  {
    if exps != [] {
      var k := |exps| - 1;
      CountIs(co, calls[..k], exps[..k], if n == |exps| then k else n);
    }
  }

  /** Matched calls for the first expected ones, then possibly the mark, then nothing: they are what
      is counted. */
  lemma MatchedPrefixCounts(co: Coercion, calls: seq<Json>, bad: bool, exps: seq<Json>)
    requires co.Valid() && Telling(co, exps) && |calls| <= |exps| && MatchedCalls(co, calls, exps[..|calls|])
    ensures var preds := calls + if bad then [MISMATCH] else [];
            CorrectCalls(co, preds, exps) == |calls| && (MISMATCH in preds <==> bad)
  {
    forall i | 0 <= i < |calls| ensures calls[i] != MISMATCH {
      assert Matches(co, calls[i], Expected(co, exps[..|calls|][i]));
      MatchIsNoMark(co, calls[i], exps[i]);
    }
    UnmarkedSame(calls);
    UnmarkedAppend(calls, MISMATCH);
    assert calls + [] == calls;
    var fitted := Fitted(calls, |exps|);
    forall i | 0 <= i < |exps| ensures Matches(co, fitted[i], Expected(co, exps[i])) <==> i < |calls| {
      if i < |calls| {
        assert Matches(co, calls[i], Expected(co, exps[..|calls|][i]));
      } else {
        EmptyMatchesNone(co, exps[i]);
      }
    }
    CountIs(co, fitted, exps, |calls|);
  }

  /** The length decay and the floor of `_score_and_write_one`. */
  function FinalScore(reward: real, tokens: nat, limit: nat): real
    requires limit > 0
  {
    var cutoff := (limit as real) * 0.5;
    var decayed :=
      if reward > 0.99 && (tokens as real) > cutoff then
        var ratio := ((tokens as real) - cutoff) / ((limit as real) - cutoff);
        var frac := if ratio < 1.0 then ratio else 1.0;
        if reward - frac > 0.0 then reward - frac else 0.0
      else reward;
    if decayed > 0.0 then decayed else -1.0
  }

  /** The top score is given for all calls correct, no mark and at most half the token limit, and for
      nothing else. */
  lemma TopScore(correct: nat, expected: nat, bad: bool, tokens: nat, limit: nat)
    requires limit > 0 && 0 < expected && correct <= expected
    ensures FinalScore(CallReward(correct, expected, bad), tokens, limit) <= 1.5
    ensures FinalScore(CallReward(correct, expected, bad), tokens, limit) == 1.5 <==>
            correct == expected && !bad && 2 * tokens <= limit
  {
    var c, e := correct as real, expected as real;
    var dense := c / e;
    assert dense * e == c;
    if correct < expected {
      assert dense < 1.0 by { if dense >= 1.0 { RealGrows(dense, e); } }
    } else {
      assert dense == 1.0;
    }
    var cutoff := (limit as real) * 0.5;
    if (tokens as real) > cutoff {
      assert ((tokens as real) - cutoff) / ((limit as real) - cutoff) > 0.0;
    }
  }

  lemma RealGrows(x: real, y: real)
    requires x >= 1.0 && y > 0.0
    ensures x * y >= y
  {
  }

  // ---- every score ---------------------------------------------------------------------------

  /** What a conversation longer than half the limit costs: from nothing at half to 1 at the limit. */
  function Decay(tokens: nat, limit: nat): (d: real)
    requires limit > 0
    ensures 0.0 <= d <= 1.0
  {
    if 2 * tokens <= limit then 0.0
    else if tokens >= limit then 1.0
    else
      Below((2 * tokens - limit) as real, limit as real);
      ((2 * tokens - limit) as real) / (limit as real)
  }

  /** Comparing a quotient is comparing a product. */
  lemma Ratio(x: real, y: real, k: real)
    requires y > 0.0
    ensures x / y > k <==> x > k * y
    ensures x / y == k <==> x == k * y
  {
    var q := x / y;
    assert q * y == x;
    if q > k {
      Larger(q, k, y);
    } else if q < k {
      Larger(k, q, y);
    }
  }

  lemma Below(x: real, y: real)
    requires 0.0 <= x <= y && y > 0.0
    ensures 0.0 <= x / y <= 1.0
    ensures x < y ==> x / y < 1.0
    ensures x > 0.0 ==> x / y > 0.0
  {
    Ratio(x, y, 0.0);
    Ratio(x, y, 1.0);
  }

  lemma Larger(a: real, b: real, y: real)
    requires a > b && y > 0.0
    ensures a * y > b * y
  {
  }

  /** The score of a record with `correct` of `expected` calls right and possibly a mark.  All right:
      1.5, a mark costs 0.2, and length decays it, never below zero.  Not all right: the share of right
      calls, less the mark, and -1 when nothing is left; length counts only above 0.99. */
  ghost predicate Scored(correct: nat, expected: nat, bad: bool, tokens: nat, limit: nat, score: real)
    requires limit > 0 && 0 < expected && correct <= expected
  {
    var share, penalty := (correct as real) / (expected as real), if bad then 0.2 else 0.0;
    if correct == expected then score == 1.5 - penalty - Decay(tokens, limit)
    else if share - penalty > 0.99 then score == if share > Decay(tokens, limit) then share - Decay(tokens, limit) else -1.0
    else score == if share > penalty then share - penalty else -1.0
  }

  lemma Halves(a: real, b: real)
    requires b > 0.0
    ensures a / (b - b * 0.5) == (a + a) / b
  {
    var q := a / (b - b * 0.5);
    assert q * (b * 0.5) == a;
    assert q * b == a + a;
  }

  /** The cutoff arithmetic of the source is this decay. */
  lemma DecayIs(tokens: nat, limit: nat)
    requires limit > 0
    ensures (tokens as real) > (limit as real) * 0.5 <==> 2 * tokens > limit
    ensures 2 * tokens > limit ==>
              var ratio := ((tokens as real) - (limit as real) * 0.5) / ((limit as real) - (limit as real) * 0.5);
              Decay(tokens, limit) == if ratio < 1.0 then ratio else 1.0
  {
    var t, l := tokens as real, limit as real;
    Halves(t - l * 0.5, l);
    Ratio(t + t - l, l, 1.0);
    assert (2 * tokens - limit) as real == t + t - l;
  }

  lemma FinalScoreIs(reward: real, tokens: nat, limit: nat)
    requires limit > 0
    ensures FinalScore(reward, tokens, limit) ==
            var left := if reward > 0.99 then reward - Decay(tokens, limit) else reward;
            if left > 0.0 then left else -1.0
  {
    DecayIs(tokens, limit);
    hide Decay;
    if 2 * tokens <= limit {
      NoDecay(tokens, limit);
    }
  }

  lemma NoDecay(tokens: nat, limit: nat)
    requires limit > 0
    ensures 2 * tokens <= limit <==> Decay(tokens, limit) == 0.0
    ensures tokens >= limit ==> Decay(tokens, limit) == 1.0
  {
    if 2 * tokens > limit && tokens < limit {
      Below((2 * tokens - limit) as real, limit as real);
    }
  }

  /** The final score of every record, by counts. */
  lemma ScoreIs(correct: nat, expected: nat, bad: bool, tokens: nat, limit: nat)
    requires limit > 0 && 0 < expected && correct <= expected
    ensures Scored(correct, expected, bad, tokens, limit, FinalScore(CallReward(correct, expected, bad), tokens, limit))
  {
    FinalScoreIs(CallReward(correct, expected, bad), tokens, limit);
    ShareIs(correct, expected);
    hide FinalScore, Decay;
  }

  lemma ShareIs(correct: nat, expected: nat)
    requires 0 < expected && correct <= expected
    ensures var share := (correct as real) / (expected as real);
            0.0 <= share <= 1.0 && (share == 1.0 <==> correct == expected) && (share > 0.2 <==> 5 * correct > expected) && (share > 0.0 <==> correct > 0)
  {
    var c, e := correct as real, expected as real;
    Ratio(c, e, 0.0);
    Ratio(c, e, 0.2);
    Ratio(c, e, 1.0);
  }

  /** Cross-multiplied: the share of right calls outweighs the decay. */
  predicate Outweighs(correct: nat, expected: nat, tokens: nat, limit: nat) {
    correct * limit > expected * (2 * tokens - limit)
  }

  lemma OutweighsIs(correct: nat, expected: nat, tokens: nat, limit: nat)
    requires limit > 0 && correct < expected && 2 * tokens > limit
    ensures (correct as real) / (expected as real) > Decay(tokens, limit) <==> Outweighs(correct, expected, tokens, limit)
  {
    var c, e, l, x := correct as real, expected as real, limit as real, (2 * tokens - limit) as real;
    if tokens >= limit {
      ShareIs(correct, expected);
      Products(correct, expected, limit, 2 * tokens - limit);
    } else {
      var k := x / l;
      assert k * l == x;
      Ratio(c, e, k);
      Scale(c, k, e, l, x);
      Casts(correct, limit, expected, 2 * tokens - limit);
    }
  }

  lemma Products(c: nat, e: nat, l: nat, x: nat)
    requires c < e && l <= x
    ensures c * l <= e * x
  {
    assert e * x - c * l == e * (x - l) + (e - c) * l;
  }

  lemma Scale(c: real, k: real, e: real, l: real, x: real)
    requires l > 0.0 && k * l == x
    ensures c > k * e <==> c * l > e * x
  {
    assert k * e * l == e * x;
    if c > k * e {
      Larger(c, k * e, l);
    } else if c < k * e {
      Larger(k * e, c, l);
    }
  }

  lemma Casts(c: nat, l: nat, e: nat, x: nat)
    ensures (c as real) * (l as real) > (e as real) * (x as real) <==> c * l > e * x
  {
    assert (c as real) * (l as real) == (c * l) as real && (e as real) * (x as real) == (e * x) as real;
  }

  /** A record is kept or scores exactly -1.  It is kept when all calls are right; or with a mark when
      more than a fifth are; or without one when some are, and, in a long conversation with nearly all
      of more than a hundred right, when their share outweighs the decay. */
  lemma KeptWhen(correct: nat, expected: nat, bad: bool, tokens: nat, limit: nat, score: real)
    requires limit > 0 && 0 < expected && correct <= expected && Scored(correct, expected, bad, tokens, limit, score)
    ensures (score > 0.0 || score == -1.0) && score <= 1.5
    ensures score > 0.0 <==>
            || correct == expected
            || (bad && 5 * correct > expected)
            || (!bad && correct > 0 && (2 * tokens <= limit || 100 * correct <= 99 * expected || Outweighs(correct, expected, tokens, limit)))
    ensures correct == expected ==> score >= 0.3
  {
    ShareIs(correct, expected);
    NoDecay(tokens, limit);
    Ratio(correct as real, expected as real, 0.99);
    if correct < expected && 2 * tokens > limit {
      OutweighsIs(correct, expected, tokens, limit);
    }
    hide Decay, Outweighs;
  }

  /** More right calls score more, at the same length within half the limit, unless both are rejected. */
  lemma ScoreGrows(c1: nat, c2: nat, expected: nat, bad: bool, tokens: nat, limit: nat, s1: real, s2: real)
    requires limit > 0 && 2 * tokens <= limit && c1 < c2 <= expected
    requires Scored(c1, expected, bad, tokens, limit, s1) && Scored(c2, expected, bad, tokens, limit, s2)
    ensures s1 < s2 || s1 == s2 == -1.0
  {
    ShareIs(c1, expected);
    ShareIs(c2, expected);
    NoDecay(tokens, limit);
    ShareGrows(c1, c2, expected);
    hide Decay;
  }

  lemma ShareGrows(c1: nat, c2: nat, expected: nat)
    requires 0 < expected && c1 < c2
    ensures (c1 as real) / (expected as real) < (c2 as real) / (expected as real)
  {
    var e := expected as real;
    var k := (c1 as real) / e;
    assert k * e == c1 as real;
    Ratio(c2 as real, e, k);
  }

  /** With all calls right, the score falls with every token beyond half the limit, by 2 / limit each,
      down to 0.5, or 0.3 with a mark, at the limit. */
  lemma ScoreDecays(expected: nat, bad: bool, tokens: nat, limit: nat, score: real)
    requires limit > 0 && 0 < expected && Scored(expected, expected, bad, tokens, limit, score)
    ensures limit <= 2 * tokens <= 2 * limit ==> (1.5 - (if bad then 0.2 else 0.0) - score) * (limit as real) == (2 * tokens - limit) as real
    ensures tokens >= limit ==> score == if bad then 0.3 else 0.5
  {
    var l := limit as real;
    NoDecay(tokens, limit);
    if limit < 2 * tokens && tokens < limit {
      assert Decay(tokens, limit) * l == (2 * tokens - limit) as real;
    }
  }

  /** The score of an episode that expects no call: rejected when anything but the two agreed words was
      predicted; else 1 and a tenth for each of the words, less the decay. */
  ghost predicate RelevanceScored(preds: seq<Json>, tokens: nat, limit: nat, score: real)
    requires limit > 0
  {
    if exists p :: p in preds && p != APOLOGY && p != INFO then score == -1.0
    else
      var full := 1.0 + (if APOLOGY in preds then 0.1 else 0.0) + if INFO in preds then 0.1 else 0.0;
      score == if full > Decay(tokens, limit) then full - Decay(tokens, limit) else -1.0
  }

  lemma RelevanceIs(preds: seq<Json>, tokens: nat, limit: nat)
    requires limit > 0
    ensures RelevanceScored(preds, tokens, limit, FinalScore(RelevanceReward(preds), tokens, limit))
  {
    FinalScoreIs(RelevanceReward(preds), tokens, limit);
    hide FinalScore, Decay;
  }

  lemma NoCallsScore(tokens: nat, limit: nat, score: real)
    requires limit > 0 && RelevanceScored([], tokens, limit, score)
    ensures score == if tokens < limit then 1.0 - Decay(tokens, limit) else -1.0
    ensures score > 0.0 <==> tokens < limit
  {
    if limit < 2 * tokens && tokens < limit {
      Below((2 * tokens - limit) as real, limit as real);
    }
  }
}
