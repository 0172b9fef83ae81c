/** The multi-turn agent loop over the plugin: what it hands to training. */
module LatentAgent {
  import opened Latent
  import opened LatentCache
  import opened LatentMask
  import opened LatentPlugin
  import opened LatentRows
  import opened Options

  /** One scripted turn: what the sampler draws, and the retrieved text when the answer turns out
      to ask for a search; None ends the loop. */
  datatype Turn = Turn(samples: seq<int>, info: Option<seq<int>>)

  /** What the response consists of: turns, with the server's context they ran on, and
      retrieved text. */
  datatype Part<E> = Out(s: Stream<E>, ctx: seq<E>, last: int) | Info(toks: seq<int>)

  function PartIds<E>(p: Part<E>): seq<int> {
    if p.Out? then p.s.outs else p.toks
  }

  ghost function Ids<E>(parts: seq<Part<E>>): seq<int> {
    if parts == [] then [] else Ids(parts[..|parts| - 1]) + PartIds(parts[|parts| - 1])
  }

  /** The truly latent positions. */
  ghost function Truth<E>(parts: seq<Part<E>>): seq<bool> {
    if parts == [] then []
    else
      var p := parts[|parts| - 1];
      Truth(parts[..|parts| - 1]) + if p.Out? then p.s.mask else Falses(|p.toks|)
  }

  /** The observed, not generated, positions. */
  ghost function Observed<E>(parts: seq<Part<E>>): seq<bool> {
    if parts == [] then []
    else
      var p := parts[|parts| - 1];
      Observed(parts[..|parts| - 1]) + if p.Out? then Falses(|p.s.outs|) else Trues(|p.toks|)
  }

  lemma OneMore<E>(parts: seq<Part<E>>, p: Part<E>)
    ensures Ids(parts + [p]) == Ids(parts) + PartIds(p)
    ensures Truth(parts + [p]) == Truth(parts) + if p.Out? then p.s.mask else Falses(|p.toks|)
    ensures Observed(parts + [p]) == Observed(parts) + if p.Out? then Falses(|p.s.outs|) else Trues(|p.toks|)
  {
    assert (parts + [p])[..|parts|] == parts;
  }

  /** Turns and retrieved texts alternate, each turn the plugin's run on its samples. */
  ghost predicate History<E, H>(net: Net<E, H>, c: Config, script: seq<Turn>, parts: seq<Part<E>>)
    requires c.Usable()
  {
    |parts| <= 2 * |script| && forall k :: 0 <= k < |parts| ==> Scripted(net, c, script[k / 2], k % 2 == 0, parts[k])
  }

  ghost predicate Scripted<E, H>(net: Net<E, H>, c: Config, t: Turn, turn: bool, p: Part<E>)
    requires c.Usable()
  {
    if turn then
      p.Out? && p.ctx != [] && Run(net, c, Start(p.ctx, p.last), t.samples) == Some(p.s)
      && exists q :: Parses(c, p.s.outs, p.s.mask, q)
    else p.Info? && t.info == Some(p.toks)
  }

  /** No sentinel was sampled freely and no turn was left in the middle of a block. */
  ghost predicate Clean<E>(c: Config, script: seq<Turn>, parts: seq<Part<E>>)
    requires |parts| <= 2 * |script|
  {
    forall k :: 0 <= k < |parts| && parts[k].Out? ==> CleanTurn(c, parts[k].s, script[k / 2].info.Some?)
  }

  lemma CleanNext<E>(c: Config, script: seq<Turn>, parts: seq<Part<E>>, p: Part<E>)
    requires |parts| + 1 <= 2 * |script|
    ensures Clean(c, script, parts + [p]) <==>
            Clean(c, script, parts) && (p.Out? ==> CleanTurn(c, p.s, script[|parts| / 2].info.Some?))
  {
    var all := parts + [p];
    if Clean(c, script, all) {
      assert all[|parts|] == p;
      forall k | 0 <= k < |parts| && parts[k].Out? ensures CleanTurn(c, parts[k].s, script[k / 2].info.Some?) {
        assert all[k] == parts[k];
      }
    }
  }

  lemma HistoryNext<E, H>(net: Net<E, H>, c: Config, script: seq<Turn>, parts: seq<Part<E>>, p: Part<E>)
    requires c.Usable() && History(net, c, script, parts) && |parts| + 1 <= 2 * |script|
    requires Scripted(net, c, script[|parts| / 2], |parts| % 2 == 0, p)
    ensures History(net, c, script, parts + [p])
  {
    hide Scripted;
    var all := parts + [p];
    forall k | 0 <= k < |all| ensures Scripted(net, c, script[k / 2], k % 2 == 0, all[k]) {
      if k < |parts| {
        assert all[k] == parts[k];
      }
    }
  }

  // ---- how far the loop goes -----------------------------------------------------------------

  /** The loop ends at these parts: before a turn, when no turn is left or the response is long enough;
      after one, when it asked for no search or its retrieved text does not fit any more. */
  ghost predicate Stops<E>(script: seq<Turn>, maxTurns: nat, responseLength: nat, parts: seq<Part<E>>) {
    var n := |parts| / 2;
    if |parts| % 2 == 0 then n >= maxTurns || |Ids(parts)| >= responseLength
    else n < |script| && (script[n].info.None? || |Ids(parts)| + |script[n].info.value| >= responseLength)
  }

  ghost predicate NoStopBefore<E>(script: seq<Turn>, maxTurns: nat, responseLength: nat, parts: seq<Part<E>>) {
    forall k :: 0 <= k < |parts| ==> !Stops(script, maxTurns, responseLength, parts[..k])
  }

  /** The parts are all there are: the loop ends at them and at no earlier point. */
  ghost predicate Complete<E>(script: seq<Turn>, maxTurns: nat, responseLength: nat, parts: seq<Part<E>>) {
    && |parts| <= 2 * maxTurns
    && Stops(script, maxTurns, responseLength, parts) && NoStopBefore(script, maxTurns, responseLength, parts)
  }

  lemma GoesOnNext<E>(script: seq<Turn>, maxTurns: nat, responseLength: nat, parts: seq<Part<E>>, p: Part<E>)
    requires NoStopBefore(script, maxTurns, responseLength, parts) && !Stops(script, maxTurns, responseLength, parts)
    ensures NoStopBefore(script, maxTurns, responseLength, parts + [p])
  {
    hide Stops;
    var all := parts + [p];
    forall k | 0 <= k < |all| ensures !Stops(script, maxTurns, responseLength, all[..k]) {
      assert all[..k] == if k == |parts| then parts else parts[..k];
    }
  }

  lemma StopsHere<E>(script: seq<Turn>, maxTurns: nat, responseLength: nat, parts: seq<Part<E>>, n: nat)
    requires |parts| / 2 == n
    ensures |parts| % 2 == 0 ==> (Stops(script, maxTurns, responseLength, parts) <==> n >= maxTurns || |Ids(parts)| >= responseLength)
    ensures |parts| % 2 == 1 && n < |script| ==>
              (Stops(script, maxTurns, responseLength, parts) <==>
                 script[n].info.None? || |Ids(parts)| + |script[n].info.value| >= responseLength)
  {
    hide Ids;
  }

  // ---- where each turn starts ----------------------------------------------------------------

  /** Part k, if it is a turn, ran on the prompt and everything before it: its newest token is the last
      of those, and the server held the prompt's embeddings, or those of the turn before and of the
      text retrieved for it. */
  ghost predicate StartsRight<E, H>(net: Net<E, H>, prompt: seq<int>, parts: seq<Part<E>>, k: nat)
    requires k < |parts| && prompt != []
  {
    parts[k].Out? ==>
      && parts[k].last == (prompt + Ids(parts[..k]))[|prompt + Ids(parts[..k])| - 1]
      && (k == 0 ==> parts[k].ctx == Embeds(net, prompt))
      && (k >= 2 && parts[k - 2].Out? && parts[k - 1].Info? ==>
            parts[k].ctx == parts[k - 2].s.used + [net.embed(parts[k - 2].s.last)] + Embeds(net, parts[k - 1].toks))
  }

  ghost predicate Chained<E, H>(net: Net<E, H>, prompt: seq<int>, parts: seq<Part<E>>) {
    prompt != [] && forall k: nat :: k < |parts| ==> StartsRight(net, prompt, parts, k)
  }

  lemma ChainedNext<E, H>(net: Net<E, H>, prompt: seq<int>, parts: seq<Part<E>>, p: Part<E>)
    requires Chained(net, prompt, parts) && StartsRight(net, prompt, parts + [p], |parts|)
    ensures Chained(net, prompt, parts + [p])
  {
    hide Ids, Embeds;
    var all := parts + [p];
    forall k: nat | k < |all| ensures StartsRight(net, prompt, all, k) {
      if k < |parts| {
        assert StartsRight(net, prompt, parts, k);
        assert all[..k] == parts[..k];
      }
    }
  }

  lemma ChainedTurn<E, H>(net: Net<E, H>, prompt: seq<int>, parts: seq<Part<E>>, part: Part<E>, kv: seq<E>)
    requires Chained(net, prompt, parts) && part.Out? && part.ctx == kv && Waiting(net, prompt, parts, kv)
    requires part.last == (prompt + Ids(parts))[|prompt + Ids(parts)| - 1]
    ensures Chained(net, prompt, parts + [part])
  {
    hide Ids, Embeds, Chained;
    assert (parts + [part])[..|parts|] == parts;
    ChainedNext(net, prompt, parts, part);
  }

  lemma ChainedInfo<E, H>(net: Net<E, H>, prompt: seq<int>, parts: seq<Part<E>>, toks: seq<int>)
    requires Chained(net, prompt, parts) && parts != [] && parts[|parts| - 1].Out?
    ensures var s := parts[|parts| - 1].s;
            && Chained(net, prompt, parts + [Info(toks)])
            && Waiting(net, prompt, parts + [Info(toks)], s.used + [net.embed(s.last)] + Embeds(net, toks))
  {
    hide Ids, Embeds, Chained;
    ChainedNext(net, prompt, parts, Info(toks));
  }

  /** What the server holds before the next turn. */
  ghost predicate Waiting<E, H>(net: Net<E, H>, prompt: seq<int>, parts: seq<Part<E>>, kv: seq<E>) {
    && (parts == [] ==> kv == Embeds(net, prompt))
    && (|parts| >= 2 && parts[|parts| - 2].Out? && parts[|parts| - 1].Info? ==>
          kv == parts[|parts| - 2].s.used + [net.embed(parts[|parts| - 2].s.last)] + Embeds(net, parts[|parts| - 1].toks))
  }

  // ---- what the loop keeps, for a row of given ids and true latent mask ----------------------

  /** On clean runs the pairs are right. */
  ghost predicate Gathered<E, H>(net: Net<E, H>, n: nat, ids: seq<int>, mask: seq<bool>, pairs: seq<(nat, E)>, clean: bool) {
    |ids| == |mask| && n <= |ids| && (clean ==> PairsRight(n, Unroll(net, ids, mask), mask, pairs))
  }

  /** What the server holds is the embedding of everything so far, its last token plain. */
  ghost predicate Holds<E, H>(net: Net<E, H>, ids: seq<int>, mask: seq<bool>, kv: seq<E>, clean: bool) {
    && |ids| == |mask| == |kv| && kv != [] && kv[|kv| - 1] == net.embed(ids[|ids| - 1])
    && (clean ==> kv == Unroll(net, ids, mask))
  }

  lemma NoPairs<E>(n: nat, v: seq<E>, mask: seq<bool>)
    requires |v| == |mask| && n <= |v| && forall i :: 0 <= i < |mask| ==> !mask[i]
    ensures PairsRight(n, v, mask, [])
  {
  }

  lemma Begin<E, H>(net: Net<E, H>, prompt: seq<int>)
    requires prompt != []
    ensures Gathered(net, |prompt|, prompt, Falses(|prompt|), [], true)
    ensures Holds(net, prompt, Falses(|prompt|), Embeds(net, prompt), true)
  {
    hide PairsRight;
    ExtendText(net, [], prompt);
    assert [] + Embeds(net, prompt) == Embeds(net, prompt);
    NoPairs(|prompt|, Unroll(net, prompt, Falses(|prompt|)), Falses(|prompt|));
  }

  function MorePairs<E>(pairs: seq<(nat, E)>, offset: nat, outs: seq<int>, sentinel: int, zs: seq<E>): seq<(nat, E)> {
    if |zs| > 0 then pairs + PairUp(offset, TurnPositions(outs, sentinel, |zs|), zs) else pairs
  }

  lemma MoreOrNone<E>(pairs: seq<(nat, E)>, offset: nat, outs: seq<int>, sentinel: int, zs: seq<E>)
    requires |TurnPositions(outs, sentinel, |zs|)| == |zs|
    ensures MorePairs(pairs, offset, outs, sentinel, zs) == pairs + PairUp(offset, TurnPositions(outs, sentinel, |zs|), zs)
  {
  }

  /** A turn's captured values join the pairs. */
  lemma TurnGathers<E, H>(net: Net<E, H>, c: Config, n: nat, ids: seq<int>, mask: seq<bool>, pairs: seq<(nat, E)>,
                          kv: seq<E>, samples: seq<int>, clean: bool, goesOn: bool)
    requires c.Usable() && c.K >= 1
    requires Gathered(net, n, ids, mask, pairs, clean) && Holds(net, ids, mask, kv, clean)
    ensures |ids| > 0 && kv != [] && Run(net, c, Start(kv, ids[|ids| - 1]), samples).Some?
    ensures var s := Run(net, c, Start(kv, ids[|ids| - 1]), samples).value;
            && (exists p :: Parses(c, s.outs, s.mask, p)) && |s.outs| == |s.mask|
            && Gathered(net, n, ids + s.outs, mask + s.mask, MorePairs(pairs, |ids| - n, s.outs, c.sentinel, s.r.captured),
                        clean && CleanTurn(c, s, goesOn))
  {
    hide Run, Start, Unroll, Extend, Parses, Select, CleanTurn, PairsRight, MorePairs, TurnPositions;
    var p := TurnRuns(net, c, kv, ids[|ids| - 1], samples);
    var s := Run(net, c, Start(kv, ids[|ids| - 1]), samples).value;
    if clean && CleanTurn(c, s, goesOn) {
      CleanMask(c, s, goesOn, p);
      PairsTurn(net, n, ids, mask, pairs, s.outs, s.mask, s.r.captured, c.sentinel);
      MoreOrNone(pairs, |ids| - n, s.outs, c.sentinel, s.r.captured);
    }
  }

  /** The server after a turn that goes on: it computes the last token's plain embedding when the
      next prompt is prefilled. */
  lemma TurnHolds<E, H>(net: Net<E, H>, c: Config, ids: seq<int>, mask: seq<bool>, kv: seq<E>, samples: seq<int>, clean: bool)
    requires c.Usable() && c.K >= 1 && Holds(net, ids, mask, kv, clean)
    ensures Run(net, c, Start(kv, ids[|ids| - 1]), samples).Some?
    ensures var s := Run(net, c, Start(kv, ids[|ids| - 1]), samples).value;
            Holds(net, ids + s.outs, mask + s.mask, s.used + [net.embed(s.last)], clean && CleanTurn(c, s, true))
  {
    hide Run, Start, Unroll, Extend, Parses, Select;
    var p := TurnRuns(net, c, kv, ids[|ids| - 1], samples);
    var s := Run(net, c, Start(kv, ids[|ids| - 1]), samples).value;
    UnrollGrows(net, ids, mask, s.outs, s.mask);
  }

  lemma InfoAdds<E, H>(net: Net<E, H>, n: nat, ids: seq<int>, mask: seq<bool>, pairs: seq<(nat, E)>, kv: seq<E>,
                       toks: seq<int>, clean: bool)
    requires Gathered(net, n, ids, mask, pairs, clean) && Holds(net, ids, mask, kv, clean)
    ensures Gathered(net, n, ids + toks, mask + Falses(|toks|), pairs, clean)
    ensures Holds(net, ids + toks, mask + Falses(|toks|), kv + Embeds(net, toks), clean)
  {
    hide Unroll, Extend, PairsRight;
    if clean {
      PairsText(net, n, ids, mask, pairs, toks);
      UnrollGrows(net, ids, mask, toks, Falses(|toks|));
      ExtendText(net, Unroll(net, ids, mask), toks);
    }
  }

  // ---- the response mask -------------------------------------------------------------------

  /** Retrieved text is masked; in a turn, sentinel tokens and the latent positions the scan finds. */
  ghost function PartMask<E>(c: Config, p: Part<E>): (m: seq<int>)
    requires c.Usable()
    ensures |m| == |PartIds(p)|
  {
    if p.Info? then seq(|p.toks|, _ => 0)
    else seq(|p.s.outs|, j requires 0 <= j < |p.s.outs| => if p.s.outs[j] == c.sentinel || ScanCovers(c, p.s.outs, 0, j) then 0 else 1)
  }

  ghost function Masks<E>(c: Config, parts: seq<Part<E>>): (m: seq<int>)
    requires c.Usable()
    ensures |m| == |Ids(parts)|
  {
    if parts == [] then [] else Masks(c, parts[..|parts| - 1]) + PartMask(c, parts[|parts| - 1])
  }

  lemma MasksNext<E>(c: Config, parts: seq<Part<E>>, p: Part<E>)
    requires c.Usable()
    ensures Masks(c, parts + [p]) == Masks(c, parts) + PartMask(c, p)
    ensures Masks<E>(c, []) == []
  {
    assert (parts + [p])[..|parts|] == parts;
  }

  lemma TurnMaskIs<E>(c: Config, s: Stream<E>, ctx: seq<E>, last: int, turnMask: seq<int>)
    requires c.Usable() && |turnMask| == |s.outs|
    requires forall j :: 0 <= j < |s.outs| ==>
      turnMask[j] == if s.outs[j] == c.sentinel || ScanCovers(c, s.outs, 0, j) then 0 else 1
    ensures turnMask == PartMask(c, Out(s, ctx, last))
  {
    hide ScanCovers;
  }

  /** On clean runs the zeros are the latent and the observed positions. */
  ghost predicate Marked(respMask: seq<int>, truth: seq<bool>, observed: seq<bool>, clean: bool) {
    && |respMask| == |truth| == |observed|
    && (clean ==> forall j :: 0 <= j < |respMask| ==> (respMask[j] == 0 <==> truth[j] || observed[j]))
  }

  lemma MarkedTurn<E>(c: Config, s: Stream<E>, goesOn: bool, p: Parse, turnMask: seq<int>,
                      respMask: seq<int>, truth: seq<bool>, observed: seq<bool>, clean: bool)
    requires Marked(respMask, truth, observed, clean && Unambiguous(c))
    requires Parses(c, s.outs, s.mask, p) && |turnMask| == |s.outs| == |s.mask| && c.Usable() && c.K > 0
    requires forall j :: 0 <= j < |s.outs| ==>
      turnMask[j] == if s.outs[j] == c.sentinel || ScanCovers(c, s.outs, 0, j) then 0 else 1
    ensures Marked(respMask + turnMask, truth + s.mask, observed + Falses(|s.outs|),
                   (clean && CleanTurn(c, s, goesOn)) && Unambiguous(c))
  {
    hide Parses, ScanCovers, Unambiguous;
    if clean && CleanTurn(c, s, goesOn) && Unambiguous(c) {
      var zero := seq(|s.outs|, j requires 0 <= j < |s.outs| => s.outs[j] == c.sentinel || ScanCovers(c, s.outs, 0, j));
      ResponseZeros(c, s.outs, s.mask, p, zero);
      assert forall j :: 0 <= j < |s.outs| ==> (turnMask[j] == 0 <==> zero[j]);
    }
  }

  lemma MarkedInfo(respMask: seq<int>, truth: seq<bool>, observed: seq<bool>, clean: bool, n: nat)
    requires Marked(respMask, truth, observed, clean)
    ensures Marked(respMask + seq(n, _ => 0), truth + Falses(n), observed + Trues(n), clean)
  {
  }

  // ---- the loop ----------------------------------------------------------------------------

  /** The loop's bookkeeping against the parts gathered so far. */
  ghost predicate Accounts<E, H>(net: Net<E, H>, c: Config, prompt: seq<int>, script: seq<Turn>, parts: seq<Part<E>>,
                                 resp: seq<int>, respMask: seq<int>, pairs: seq<(nat, E)>)
    requires c.Usable()
  {
    && History(net, c, script, parts) && resp == Ids(parts)
    && Gathered(net, |prompt|, prompt + resp, Falses(|prompt|) + Truth(parts), pairs, Clean(c, script, parts))
    && Marked(respMask, Truth(parts), Observed(parts), Clean(c, script, parts) && Unambiguous(c))
  }

  lemma AccountsBegin<E, H>(net: Net<E, H>, c: Config, prompt: seq<int>, script: seq<Turn>)
    requires c.Usable() && prompt != []
    ensures Accounts(net, c, prompt, script, [], [], [], [])
    ensures Holds(net, prompt + [], Falses(|prompt|) + Truth<E>([]), Embeds(net, prompt), Clean<E>(c, script, []))
  {
    Begin(net, prompt);
    assert prompt + [] == prompt && Falses(|prompt|) + Truth<E>([]) == Falses(|prompt|);
  }

  lemma AccountsTurn<E, H>(net: Net<E, H>, c: Config, prompt: seq<int>, script: seq<Turn>, parts: seq<Part<E>>,
                           resp: seq<int>, respMask: seq<int>, pairs: seq<(nat, E)>, kv: seq<E>, s: Stream<E>, turnMask: seq<int>)
    requires c.Usable() && c.K >= 1 && prompt != [] && |parts| % 2 == 0 && |parts| < 2 * |script|
    requires Accounts(net, c, prompt, script, parts, resp, respMask, pairs)
    requires Holds(net, prompt + resp, Falses(|prompt|) + Truth(parts), kv, Clean(c, script, parts))
    requires kv != [] && Run(net, c, Start(kv, (prompt + resp)[|prompt + resp| - 1]), script[|parts| / 2].samples) == Some(s)
    requires |turnMask| == |s.outs| && forall j :: 0 <= j < |s.outs| ==>
      turnMask[j] == if s.outs[j] == c.sentinel || ScanCovers(c, s.outs, 0, j) then 0 else 1
    ensures var part := Out(s, kv, (prompt + resp)[|prompt + resp| - 1]);
            && Accounts(net, c, prompt, script, parts + [part], resp + s.outs, respMask + turnMask,
                        MorePairs(pairs, |resp|, s.outs, c.sentinel, s.r.captured))
            && (script[|parts| / 2].info.Some? ==>
                  Holds(net, prompt + (resp + s.outs), Falses(|prompt|) + Truth(parts + [part]), s.used + [net.embed(s.last)],
                        Clean(c, script, parts + [part])))
  {
    hide Run, Start, Gathered, Holds, Marked, Clean, CleanTurn, Parses, ScanCovers, MorePairs, Unambiguous, Ids, Truth, Observed, History;
    var ids, mask, t := prompt + resp, Falses(|prompt|) + Truth(parts), script[|parts| / 2];
    var part := Out(s, kv, ids[|ids| - 1]);
    TurnGathers(net, c, |prompt|, ids, mask, pairs, kv, t.samples, Clean(c, script, parts), t.info.Some?);
    var p :| Parses(c, s.outs, s.mask, p);
    MarkedTurn(c, s, t.info.Some?, p, turnMask, respMask, Truth(parts), Observed(parts), Clean(c, script, parts));
    OneMore(parts, part);
    CleanNext(c, script, parts, part);
    HistoryNext(net, c, script, parts, part);
    assert ids + s.outs == prompt + (resp + s.outs);
    assert mask + s.mask == Falses(|prompt|) + Truth(parts + [part]);
    if t.info.Some? {
      TurnHolds(net, c, ids, mask, kv, t.samples, Clean(c, script, parts));
    }
  }

  lemma AccountsInfo<E, H>(net: Net<E, H>, c: Config, prompt: seq<int>, script: seq<Turn>, parts: seq<Part<E>>,
                           resp: seq<int>, respMask: seq<int>, pairs: seq<(nat, E)>, kv: seq<E>, toks: seq<int>)
    requires c.Usable() && |parts| % 2 == 1 && |parts| < 2 * |script| && script[|parts| / 2].info == Some(toks)
    requires Accounts(net, c, prompt, script, parts, resp, respMask, pairs)
    requires Holds(net, prompt + resp, Falses(|prompt|) + Truth(parts), kv, Clean(c, script, parts))
    ensures Accounts(net, c, prompt, script, parts + [Info(toks)], resp + toks, respMask + seq(|toks|, _ => 0), pairs)
    ensures Holds(net, prompt + (resp + toks), Falses(|prompt|) + Truth(parts + [Info(toks)]), kv + Embeds(net, toks),
                  Clean(c, script, parts + [Info(toks)]))
  {
    hide Gathered, Holds, Marked, Clean, CleanTurn, Unambiguous, Ids, Truth, Observed, History;
    var ids, mask := prompt + resp, Falses(|prompt|) + Truth(parts);
    var part: Part<E> := Info(toks);
    InfoAdds(net, |prompt|, ids, mask, pairs, kv, toks, Clean(c, script, parts));
    MarkedInfo(respMask, Truth(parts), Observed(parts), Clean(c, script, parts) && Unambiguous(c), |toks|);
    OneMore(parts, part);
    CleanNext(c, script, parts, part);
    HistoryNext(net, c, script, parts, part);
    assert ids + toks == prompt + (resp + toks);
    assert mask + Falses(|toks|) == Falses(|prompt|) + Truth(parts + [part]);
  }

  /** What the loop returns: the response cut to its maximal length, the response mask, the dense
      values; judged against the parts. */
  ghost predicate Delivered<E, H>(net: Net<E, H>, c: Config, prompt: seq<int>, script: seq<Turn>, parts: seq<Part<E>>,
                                  m: nat, resp: seq<int>, respMask: seq<int>, dense: Option<seq<E>>)
    requires c.Usable()
  {
    && History(net, c, script, parts) && |Ids(parts)| == |Truth(parts)| == |Observed(parts)|
    && m <= |Ids(parts)| && resp == Ids(parts)[..m] && |respMask| == m
    && (dense.Some? ==> |dense.value| == m)
    && (Clean(c, script, parts) ==>
          DenseRight(|prompt|, Unroll(net, prompt + resp, Falses(|prompt|) + Truth(parts)[..m]),
                     Falses(|prompt|) + Truth(parts)[..m], dense))
    && (Clean(c, script, parts) && Unambiguous(c) ==>
          forall j :: 0 <= j < m ==> (respMask[j] == 0 <==> Truth(parts)[j] || Observed(parts)[j]))
  }

  lemma Cut<E, H>(net: Net<E, H>, c: Config, prompt: seq<int>, script: seq<Turn>, parts: seq<Part<E>>,
                  resp: seq<int>, respMask: seq<int>, pairs: seq<(nat, E)>, m: nat, zero: E, dense: Option<seq<E>>)
    requires c.Usable() && Accounts(net, c, prompt, script, parts, resp, respMask, pairs)
    requires m <= |resp| && IsDense(pairs, m, zero, dense)
    ensures |respMask| == |resp|
    ensures Delivered(net, c, prompt, script, parts, m, resp[..m], respMask[..m], dense)
  {
    hide Clean, Unambiguous, Ids, Truth, Observed, Scripted, PairsRight, IsDense, DenseRight, Unroll;
    var n, ids, mask := |prompt|, prompt + resp, Falses(|prompt|) + Truth(parts);
    DenseSize(pairs, m, zero, dense);
    assert ids[..n + m] == prompt + resp[..m] && mask[..n + m] == Falses(n) + Truth(parts)[..m];
    if Clean(c, script, parts) {
      PairsMakeDense(n, Unroll(net, ids, mask), mask, pairs, m, zero, dense);
      UnrollFront(net, ids, mask, n + m);
    }
  }

  lemma DenseSize<E>(pairs: seq<(nat, E)>, m: nat, zero: E, dense: Option<seq<E>>)
    requires IsDense(pairs, m, zero, dense)
    ensures dense.Some? ==> |dense.value| == m
  {
  }

  /** `LatentAgentLoop.run`; with one turn and no search it is the tool agent's loop.  The parts are all
      the turns and texts there are, each turn on the context of everything before it; the response
      and its mask are theirs, cut to the maximal length. */
  method RunAgent<E, H>(net: Net<E, H>, c: Config, prompt: seq<int>, script: seq<Turn>, maxTurns: nat,
                        responseLength: nat, zero: E)
    returns (resp: seq<int>, respMask: seq<int>, dense: Option<seq<E>>, ghost parts: seq<Part<E>>)
    requires c.Usable() && c.K >= 1 && prompt != [] && maxTurns <= |script|
    ensures Complete(script, maxTurns, responseLength, parts) && Chained(net, prompt, parts)
    ensures |resp| == if |Ids(parts)| < responseLength then |Ids(parts)| else responseLength
    ensures respMask == Masks(c, parts)[..|resp|]
    ensures Delivered(net, c, prompt, script, parts, |resp|, resp, respMask, dense)
  {
    hide *;
    resp, respMask := [], [];
    var pairs: seq<(nat, E)> := [];
    var cur, kv := prompt, Embeds(net, prompt);
    parts := [];
    AccountsBegin(net, c, prompt, script);
    LoopBegins(net, c, prompt, script, maxTurns, responseLength);
    ghost var stopped := false;
    for turn := 0 to maxTurns
      invariant |parts| == 2 * turn && cur == prompt + resp && kv != [] && !stopped
      invariant Accounts(net, c, prompt, script, parts, resp, respMask, pairs)
      invariant Holds(net, cur, Falses(|prompt|) + Truth(parts), kv, Clean(c, script, parts))
      invariant NoStopBefore(script, maxTurns, responseLength, parts) && Chained(net, prompt, parts)
      invariant Waiting(net, prompt, parts, kv) && respMask == Masks(c, parts) && resp == Ids(parts)
    {
      StopsHere(script, maxTurns, responseLength, parts, turn);
      if |respMask| >= responseLength {
        stopped := true;
        break;
      }
      TurnRunsOk(net, c, cur, kv, script[turn].samples);
      var s := Run(net, c, Start(kv, cur[|cur| - 1]), script[turn].samples).value;
      var turnMask := BuildResponseMask(c, s.outs);
      AccountsTurn(net, c, prompt, script, parts, resp, respMask, pairs, kv, s, turnMask[..]);
      pairs := MorePairs(pairs, |resp|, s.outs, c.sentinel, s.r.captured);
      ghost var part := Out(s, kv, cur[|cur| - 1]);
      TurnMaskIs(c, s, kv, cur[|cur| - 1], turnMask[..]);
      PartAdds(net, c, prompt, script, maxTurns, responseLength, parts, part);
      ChainedTurn(net, prompt, parts, part, kv);
      parts := parts + [part];
      resp, respMask := resp + s.outs, respMask + turnMask[..];
      cur := cur + s.outs;
      assert cur == prompt + resp;
      StopsHere(script, maxTurns, responseLength, parts, turn);
      if script[turn].info.None? || |respMask| + |script[turn].info.value| >= responseLength {
        stopped := true;
        break;
      }
      var info := script[turn].info.value;
      kv := s.used + [net.embed(s.last)];
      AccountsInfo(net, c, prompt, script, parts, resp, respMask, pairs, kv, info);
      InfoMaskIs(c, parts, info);
      PartAdds(net, c, prompt, script, maxTurns, responseLength, parts, Info(info));
      ChainedInfo(net, prompt, parts, info);
      kv := kv + Embeds(net, info);
      cur := cur + info;
      resp, respMask := resp + info, respMask + seq(|info|, _ => 0);
      parts := parts + [Info(info)];
      assert cur == prompt + resp;
    }
    if !stopped {
      StopsHere(script, maxTurns, responseLength, parts, maxTurns);
    }
    var m := if |resp| < responseLength then |resp| else responseLength;
    dense := Densify(pairs, m, zero);
    Cut(net, c, prompt, script, parts, resp, respMask, pairs, m, zero, dense);
    ItsAll(script, maxTurns, responseLength, parts);
    resp, respMask := resp[..m], respMask[..m];
  }

  lemma LoopBegins<E, H>(net: Net<E, H>, c: Config, prompt: seq<int>, script: seq<Turn>, maxTurns: nat, responseLength: nat)
    requires c.Usable() && prompt != []
    ensures NoStopBefore<E>(script, maxTurns, responseLength, []) && Chained(net, prompt, [])
    ensures Waiting(net, prompt, [], Embeds(net, prompt)) && Masks<E>(c, []) == [] && Ids<E>([]) == []
  {
  }

  lemma PartAdds<E, H>(net: Net<E, H>, c: Config, prompt: seq<int>, script: seq<Turn>, maxTurns: nat, responseLength: nat,
                       parts: seq<Part<E>>, p: Part<E>)
    requires c.Usable() && NoStopBefore(script, maxTurns, responseLength, parts) && !Stops(script, maxTurns, responseLength, parts)
    ensures NoStopBefore(script, maxTurns, responseLength, parts + [p])
    ensures Masks(c, parts + [p]) == Masks(c, parts) + PartMask(c, p)
    ensures Ids(parts + [p]) == Ids(parts) + if p.Out? then p.s.outs else p.toks
  {
    hide Stops, NoStopBefore, Masks, Ids;
    GoesOnNext(script, maxTurns, responseLength, parts, p);
    MasksNext(c, parts, p);
    OneMore(parts, p);
  }

  lemma InfoMaskIs<E>(c: Config, parts: seq<Part<E>>, toks: seq<int>)
    requires c.Usable()
    ensures PartMask(c, Part<E>.Info(toks)) == seq(|toks|, _ => 0)
  {
  }

  lemma ItsAll<E>(script: seq<Turn>, maxTurns: nat, responseLength: nat, parts: seq<Part<E>>)
    requires |parts| <= 2 * maxTurns
    requires Stops(script, maxTurns, responseLength, parts) && NoStopBefore(script, maxTurns, responseLength, parts)
    ensures Complete(script, maxTurns, responseLength, parts)
  {
  }

  lemma TurnRunsOk<E, H>(net: Net<E, H>, c: Config, cur: seq<int>, kv: seq<E>, samples: seq<int>)
    requires c.Usable() && c.K >= 1 && kv != []
    ensures forall last :: Run(net, c, Start(kv, last), samples).Some?
  {
    forall last ensures Run(net, c, Start(kv, last), samples).Some? {
      var _ := OutputParses(net, c, kv, last, samples);
    }
  }
}
