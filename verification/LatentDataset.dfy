/** The supervised rows: three parallel lists grown in place, a final truncation, right padding. */
module LatentDataset {
  import opened Latent
  import opened LatentMask
  import opened LatentPlugin
  import opened LatentRows
  import opened Sequences

  const IGNORE_INDEX: int := -100

  /** What `__getitem__` appends, piece by piece. */
  datatype Piece = Words(toks: seq<int>, loss: bool) | Block

  function PieceIds(c: Config, p: Piece): seq<int> {
    match p case Words(toks, _) => toks case Block => BlockOf(c, c.open)
  }

  function PieceMask(c: Config, p: Piece): (m: seq<bool>)
    ensures |m| == |PieceIds(c, p)|
  {
    match p case Words(toks, _) => Falses(|toks|) case Block => BlockMask(c, c.open)
  }

  function Ignored(n: nat): (s: seq<int>)
    ensures |s| == n && forall i :: 0 <= i < n ==> s[i] == IGNORE_INDEX
  {
    seq(n, _ => IGNORE_INDEX)
  }

  function PieceLabels(c: Config, p: Piece): (l: seq<int>)
    ensures |l| == |PieceIds(c, p)|
  {
    match p
    case Words(toks, loss) => if loss then toks else Ignored(|toks|)
    case Block => c.open + Ignored(c.K) + c.close
  }

  function Ids(c: Config, ps: seq<Piece>): seq<int> {
    if ps == [] then [] else Ids(c, ps[..|ps| - 1]) + PieceIds(c, ps[|ps| - 1])
  }

  function Mask(c: Config, ps: seq<Piece>): (m: seq<bool>)
    ensures |m| == |Ids(c, ps)|
  {
    if ps == [] then [] else Mask(c, ps[..|ps| - 1]) + PieceMask(c, ps[|ps| - 1])
  }

  function Labels(c: Config, ps: seq<Piece>): (l: seq<int>)
    ensures |l| == |Ids(c, ps)|
  {
    if ps == [] then [] else Labels(c, ps[..|ps| - 1]) + PieceLabels(c, ps[|ps| - 1])
  }

  lemma OneMore(c: Config, ps: seq<Piece>, p: Piece)
    ensures Ids(c, ps + [p]) == Ids(c, ps) + PieceIds(c, p)
    ensures Mask(c, ps + [p]) == Mask(c, ps) + PieceMask(c, p)
    ensures Labels(c, ps + [p]) == Labels(c, ps) + PieceLabels(c, p)
  {
    assert (ps + [p])[..|ps|] == ps;
  }

  lemma BlockRegroups(c: Config, ids: seq<int>, mask: seq<bool>, labels: seq<int>)
    ensures ids + c.open + Copies(c.K, c.sentinel) + c.close == ids + PieceIds(c, Block)
    ensures mask + Falses(|c.open|) + Trues(c.K) + Falses(|c.close|) == mask + PieceMask(c, Block)
    ensures labels + c.open + Ignored(c.K) + c.close == labels + PieceLabels(c, Block)
  {
  }

  /** The lists under construction, and the pieces they hold. */
  class Sample {
    const c: Config
    var ids: seq<int>
    var labels: seq<int>
    var latentMask: seq<bool>
    ghost var pieces: seq<Piece>

    ghost predicate Valid()
      reads this
    {
      ids == Ids(c, pieces) && latentMask == Mask(c, pieces) && labels == Labels(c, pieces)
    }

    constructor (c: Config)
      ensures this.c == c && Valid() && pieces == []
    {
      this.c, ids, labels, latentMask, pieces := c, [], [], [], [];
    }

    lemma Lists()
      requires Valid()
      ensures ids == Ids(c, pieces) && latentMask == Mask(c, pieces) && labels == Labels(c, pieces)
    {
    }

    /** The closure `append`. */
    method Append(toks: seq<int>, lossOn: bool, isLatent: bool)
      modifies this
      ensures ids == old(ids) + toks
      ensures labels == old(labels) + if lossOn then toks else Ignored(|toks|)
      ensures latentMask == old(latentMask) + if isLatent then Trues(|toks|) else Falses(|toks|)
      ensures pieces == old(pieces)
    {
      ids := ids + toks;
      labels := labels + if lossOn then toks else Ignored(|toks|);
      latentMask := latentMask + seq(|toks|, _ => isLatent);
    }

    method AppendWords(toks: seq<int>, lossOn: bool)
      requires Valid()
      modifies this
      ensures Valid() && pieces == old(pieces) + [Words(toks, lossOn)]
    {
      hide Ids, Mask, Labels;
      OneMore(c, pieces, Words(toks, lossOn));
      Append(toks, lossOn, false);
      pieces := pieces + [Words(toks, lossOn)];
    }

    /** The closure `append_latent_block`, without its separator. */
    method AppendLatent()
      requires Valid()
      modifies this
      ensures Valid() && pieces == old(pieces) + [Block]
    {
      hide Ids, Mask, Labels;
      OneMore(c, pieces, Block);
      BlockRegroups(c, ids, latentMask, labels);
      Append(c.open, true, false);
      Append(Copies(c.K, c.sentinel), false, true);
      Append(c.close, true, false);
      pieces := pieces + [Block];
    }
  }

  // ---- three parallel lists ----------------------------------------------------------------

  /** A stretch of a row: tokens, labels, latent flags. */
  datatype Row = Row(ids: seq<int>, labels: seq<int>, mask: seq<bool>)

  /** Tokens to be learnt: the labels are the tokens. */
  function Learnt(toks: seq<int>): Row {
    Row(toks, toks, Falses(|toks|))
  }

  /** Tokens that are given: not supervised. */
  function Given(toks: seq<int>): Row {
    Row(toks, Ignored(|toks|), Falses(|toks|))
  }

  /** K sentinels: not supervised, and the only latent positions. */
  function Sentinels(c: Config): Row {
    Row(Copies(c.K, c.sentinel), Ignored(c.K), Trues(c.K))
  }

  function Join(rows: seq<Row>): Row {
    if rows == [] then Row([], [], [])
    else
      var init, last := Join(rows[..|rows| - 1]), rows[|rows| - 1];
      Row(init.ids + last.ids, init.labels + last.labels, init.mask + last.mask)
  }

  /** Thoughts in words, or the two literals around the sentinels and a separator; all learnt but the
      sentinels. */
  function Thought(c: Config, verbal: bool, think: seq<int>, sep: seq<int>): seq<Row> {
    if verbal then [Learnt(think)] else [Learnt(c.open), Sentinels(c), Learnt(c.close), Learnt(sep)]
  }

  /** The three lists are these rows in sequence, cut at the maximal length if it is positive. */
  ghost predicate IsItem(rows: seq<Row>, maxLength: int, ids: seq<int>, labels: seq<int>, mask: seq<bool>) {
    var all := Join(rows);
    && ids <= all.ids && labels <= all.labels && mask <= all.mask && |all.ids| == |all.labels| == |all.mask|
    && |ids| == |labels| == |mask| == (if 0 < maxLength < |all.ids| then maxLength else |all.ids|)
  }

  /** The pieces spell these rows. */
  ghost predicate Spells(c: Config, ps: seq<Piece>, rows: seq<Row>) {
    Ids(c, ps) == Join(rows).ids && Labels(c, ps) == Join(rows).labels && Mask(c, ps) == Join(rows).mask
  }

  lemma JoinNext(rows: seq<Row>, r: Row)
    ensures Join(rows + [r]) == Row(Join(rows).ids + r.ids, Join(rows).labels + r.labels, Join(rows).mask + r.mask)
  {
    assert (rows + [r])[..|rows|] == rows;
  }

  lemma SpellsWords(c: Config, ps: seq<Piece>, rows: seq<Row>, toks: seq<int>, loss: bool)
    requires Spells(c, ps, rows)
    ensures Spells(c, ps + [Words(toks, loss)], rows + [if loss then Learnt(toks) else Given(toks)])
  {
    hide Ids, Mask, Labels, Join;
    OneMore(c, ps, Words(toks, loss));
    JoinNext(rows, if loss then Learnt(toks) else Given(toks));
  }

  lemma SpellsBlock(c: Config, ps: seq<Piece>, rows: seq<Row>)
    requires Spells(c, ps, rows)
    ensures Spells(c, ps + [Block], rows + [Learnt(c.open), Sentinels(c), Learnt(c.close)])
  {
    hide Ids, Mask, Labels, Join, PieceIds, PieceMask, PieceLabels;
    OneMore(c, ps, Block);
    var r1, r2 := rows + [Learnt(c.open)], rows + [Learnt(c.open)] + [Sentinels(c)];
    JoinNext(rows, Learnt(c.open));
    JoinNext(r1, Sentinels(c));
    JoinNext(r2, Learnt(c.close));
    assert rows + [Learnt(c.open), Sentinels(c), Learnt(c.close)] == r2 + [Learnt(c.close)];
    BlockRegroups(c, Ids(c, ps), Mask(c, ps), Labels(c, ps));
  }

  lemma SpellsReasoning(c: Config, ps: seq<Piece>, rows: seq<Row>, verbal: bool, think: seq<int>, sep: seq<int>)
    requires Spells(c, ps, rows)
    ensures Spells(c, Reasoning(ps, verbal, think, sep), rows + Thought(c, verbal, think, sep))
  {
    hide Spells, Learnt, Sentinels;
    if verbal {
      SpellsWords(c, ps, rows, think, true);
    } else {
      var block := [Learnt(c.open), Sentinels(c), Learnt(c.close)];
      SpellsBlock(c, ps, rows);
      SpellsWords(c, ps + [Block], rows + block, sep, true);
      assert rows + block + [Learnt(sep)] == rows + Thought(c, verbal, think, sep);
    }
  }

  lemma {:induction false} JoinSizes(rows: seq<Row>)
    requires forall i :: 0 <= i < |rows| ==> |rows[i].ids| == |rows[i].labels| == |rows[i].mask|
    ensures |Join(rows).ids| == |Join(rows).labels| == |Join(rows).mask|
  {
    if rows != [] {
      JoinSizes(rows[..|rows| - 1]);
    }
  }

  lemma ItemCut(c: Config, ps: seq<Piece>, rows: seq<Row>, maxLength: int, ids: seq<int>, labels: seq<int>, mask: seq<bool>)
    requires Spells(c, ps, rows)
    requires var n := Kept(|Ids(c, ps)|, maxLength); ids == Ids(c, ps)[..n] && labels == Labels(c, ps)[..n] && mask == Mask(c, ps)[..n]
    ensures IsItem(rows, maxLength, ids, labels, mask)
  {
    hide Ids, Labels, Mask, Join;
  }

  // ---- the search dataset ------------------------------------------------------------------

  /** A turn's reasoning as encoded; `verbal` is the outcome of the coin flip, never set when the
      thinking text is empty. */
  datatype SearchTurn = SearchTurn(verbal: bool, think: seq<int>, search: seq<int>, info: seq<int>)
  datatype SearchTrace = SearchTrace(prefix: seq<int>, sep: seq<int>, turns: seq<SearchTurn>,
                                     verbal: bool, answerThink: seq<int>, answer: seq<int>, eos: seq<int>)

  function Reasoning(ps: seq<Piece>, verbal: bool, think: seq<int>, sep: seq<int>): seq<Piece> {
    if verbal then ps + [Words(think, true)] else ps + [Block] + [Words(sep, true)]
  }

  /** The pieces of a row after its first n turns. */
  function TurnPieces(x: SearchTrace, n: nat): seq<Piece>
    requires n <= |x.turns|
  {
    if n == 0 then [] + [Words(x.prefix, false)] + [Words(x.sep, true)]
    else
      var t := x.turns[n - 1];
      Reasoning(TurnPieces(x, n - 1), t.verbal, t.think, x.sep) + [Words(t.search, true)] + [Words(t.info, false)]
  }

  function SearchPieces(x: SearchTrace): seq<Piece> {
    Reasoning(TurnPieces(x, |x.turns|), x.verbal, x.answerThink, x.sep) + [Words(x.answer, true)] + [Words(x.eos, false)]
  }

  /** A turn: the reasoning and the search are learnt, the retrieved text is given. */
  function SearchTurnRows(c: Config, x: SearchTrace, t: SearchTurn): seq<Row> {
    Thought(c, t.verbal, t.think, x.sep) + [Learnt(t.search), Given(t.info)]
  }

  function FirstTurns(c: Config, x: SearchTrace, n: nat): seq<seq<Row>>
    requires n <= |x.turns|
  {
    seq(n, i requires 0 <= i < n => SearchTurnRows(c, x, x.turns[i]))
  }

  /** The whole row: the prompt given, a separator learnt, the turns, the last reasoning and the answer
      learnt, the end token given. */
  function SearchRows(c: Config, x: SearchTrace): seq<Row> {
    [Given(x.prefix), Learnt(x.sep)] + Flatten(FirstTurns(c, x, |x.turns|))
    + Thought(c, x.verbal, x.answerThink, x.sep) + [Learnt(x.answer), Given(x.eos)]
  }

  lemma {:induction false} TurnsSpell(c: Config, x: SearchTrace, n: nat)
    requires n <= |x.turns|
    ensures Spells(c, TurnPieces(x, n), [Given(x.prefix), Learnt(x.sep)] + Flatten(FirstTurns(c, x, n)))
  {
    hide Spells, Reasoning, Thought, Given, Learnt;
    var head := [Given(x.prefix), Learnt(x.sep)];
    if n == 0 {
      SpellsNothing(c);
      SpellsWords(c, [], [], x.prefix, false);
      SpellsWords(c, [] + [Words(x.prefix, false)], [] + [Given(x.prefix)], x.sep, true);
      assert head + Flatten<Row>([]) == [] + [Given(x.prefix)] + [Learnt(x.sep)] by { FlattenNone<Row>(); }
    } else {
      TurnsSpell(c, x, n - 1);
      var t := x.turns[n - 1];
      var before := FirstTurns(c, x, n - 1);
      var ps, rows := TurnPieces(x, n - 1), head + Flatten(before);
      SpellsReasoning(c, ps, rows, t.verbal, t.think, x.sep);
      var ps1, rows1 := Reasoning(ps, t.verbal, t.think, x.sep), rows + Thought(c, t.verbal, t.think, x.sep);
      SpellsWords(c, ps1, rows1, t.search, true);
      SpellsWords(c, ps1 + [Words(t.search, true)], rows1 + [Learnt(t.search)], t.info, false);
      FlattenAppend(before, SearchTurnRows(c, x, t));
      assert FirstTurns(c, x, n) == before + [SearchTurnRows(c, x, t)];
      hide Flatten;
      assert rows1 + [Learnt(t.search)] + [Given(t.info)] == head + (Flatten(before) + SearchTurnRows(c, x, t));
    }
  }

  lemma FlattenNone<T>()
    ensures Flatten<T>([]) == []
  {
  }

  lemma SpellsNothing(c: Config)
    ensures Spells(c, [], [])
  {
  }

  lemma SearchSpells(c: Config, x: SearchTrace)
    ensures Spells(c, SearchPieces(x), SearchRows(c, x))
  {
    hide Spells, Reasoning, Thought, Given, Learnt, Flatten, TurnPieces, FirstTurns;
    TurnsSpell(c, x, |x.turns|);
    var rows := [Given(x.prefix), Learnt(x.sep)] + Flatten(FirstTurns(c, x, |x.turns|));
    var ps := TurnPieces(x, |x.turns|);
    SpellsReasoning(c, ps, rows, x.verbal, x.answerThink, x.sep);
    var ps1, rows1 := Reasoning(ps, x.verbal, x.answerThink, x.sep), rows + Thought(c, x.verbal, x.answerThink, x.sep);
    SpellsWords(c, ps1, rows1, x.answer, true);
    SpellsWords(c, ps1 + [Words(x.answer, true)], rows1 + [Learnt(x.answer)], x.eos, false);
    assert rows1 + [Learnt(x.answer)] + [Given(x.eos)] == SearchRows(c, x);
  }

  lemma {:induction false} JoinConcat(xs: seq<Row>, ys: seq<Row>)
    ensures Join(xs + ys) == Row(Join(xs).ids + Join(ys).ids, Join(xs).labels + Join(ys).labels, Join(xs).mask + Join(ys).mask)
  {
    if ys == [] {
      assert xs + ys == xs;
    } else {
      var n := |ys| - 1;
      assert xs + ys == (xs + ys[..n]) + [ys[n]] && ys == ys[..n] + [ys[n]];
      JoinConcat(xs, ys[..n]);
      JoinNext(xs + ys[..n], ys[n]);
      JoinNext(ys[..n], ys[n]);
      hide Join;
    }
  }

  /** What is learnt of a turn and what is not: after its reasoning the search call is supervised token
      by token, and the retrieved text behind it not at all. */
  lemma SearchTurnAt(c: Config, x: SearchTrace, i: nat) returns (a: nat)
    requires i < |x.turns|
    ensures a == |Join(UpToSearch(c, x, i)).ids|
    ensures var row, t := Join(SearchRows(c, x)), x.turns[i];
            var b := a + |t.search|;
            && b + |t.info| <= |row.ids| == |row.labels|
            && row.ids[a..b] == t.search && row.labels[a..b] == t.search
            && row.ids[b..b + |t.info|] == t.info && row.labels[b..b + |t.info|] == Ignored(|t.info|)
  {
    hide *;
    RowsAligned(c, x);
    var back := RowsAround(c, x, i);
    a := SlicesAt(UpToSearch(c, x, i), Learnt(x.turns[i].search), Given(x.turns[i].info), back);
    LearntIs(x.turns[i].search);
    LearntIs(x.turns[i].info);
  }

  /** A thought's tokens and labels: words are supervised; of a latent block the literals and the separator
      are, the sentinels between them are not, and they alone are latent. */
  lemma ThoughtIs(c: Config, verbal: bool, think: seq<int>, sep: seq<int>)
    ensures var r := Join(Thought(c, verbal, think, sep));
            && |r.ids| == |r.labels| == |r.mask|
            && r.ids == (if verbal then think else c.open + Copies(c.K, c.sentinel) + c.close + sep)
            && r.labels == (if verbal then think else c.open + Copies(c.K, IGNORE_INDEX) + c.close + sep)
            && forall i :: 0 <= i < |r.ids| ==> (r.mask[i] <==> !verbal && |c.open| <= i < |c.open| + c.K)
  {
    if verbal {
      JoinNext([], Learnt(think));
      assert [] + [Learnt(think)] == Thought(c, verbal, think, sep);
      assert [] + think == think;
    } else {
      JoinTwo(Learnt(c.open), Sentinels(c));
      JoinTwo(Learnt(c.close), Learnt(sep));
      JoinConcat([Learnt(c.open), Sentinels(c)], [Learnt(c.close), Learnt(sep)]);
      assert Thought(c, verbal, think, sep) == [Learnt(c.open), Sentinels(c)] + [Learnt(c.close), Learnt(sep)];
      assert Ignored(c.K) == Copies(c.K, IGNORE_INDEX);
    }
    hide Join;
  }

  /** The reasoning of a turn stands right before its search call. */
  lemma ThoughtAt(c: Config, x: SearchTrace, i: nat)
    requires i < |x.turns|
    ensures var row, r, a := Join(SearchRows(c, x)), Join(Thought(c, x.turns[i].verbal, x.turns[i].think, x.sep)), |Join(UpToSearch(c, x, i)).ids|;
            && |r.ids| == |r.labels| && |r.ids| <= a <= |row.ids| == |row.labels|
            && row.ids[a - |r.ids|..a] == r.ids && row.labels[a - |r.ids|..a] == r.labels
  {
    var t := x.turns[i];
    var front := [Given(x.prefix), Learnt(x.sep)] + Flatten(FirstTurns(c, x, i));
    var back := RowsAround(c, x, i);
    var rest := [Learnt(t.search), Given(t.info)] + back;
    RowsAligned(c, x);
    assert SearchRows(c, x) == front + Thought(c, t.verbal, t.think, x.sep) + rest;
    hide Join, Flatten, FirstTurns, Thought, SearchRows, Aligned;
    ThoughtIs(c, t.verbal, t.think, x.sep);
    AlignedFront(front + Thought(c, t.verbal, t.think, x.sep), rest);
    AlignedSizes(SearchRows(c, x));
    AlignedSizes(front + Thought(c, t.verbal, t.think, x.sep));
    JoinConcat(front, Thought(c, t.verbal, t.think, x.sep));
    JoinConcat(front + Thought(c, t.verbal, t.think, x.sep), rest);
  }

  /** The row begins with the prompt, not supervised, and a supervised separator. */
  lemma SearchBegins(c: Config, x: SearchTrace)
    ensures var row, p := Join(SearchRows(c, x)), |x.prefix|;
            var q := p + |x.sep|;
            && q <= |row.ids| == |row.labels|
            && row.ids[..p] == x.prefix && row.labels[..p] == Ignored(p) && row.ids[p..q] == row.labels[p..q] == x.sep
  {
    var back := Flatten(FirstTurns(c, x, |x.turns|)) + Thought(c, x.verbal, x.answerThink, x.sep) + [Learnt(x.answer), Given(x.eos)];
    assert SearchRows(c, x) == [] + [Given(x.prefix), Learnt(x.sep)] + back;
    RowsAligned(c, x);
    hide Join, Flatten, FirstTurns, Thought, SearchRows, Aligned;
    var a := SlicesAt([], Given(x.prefix), Learnt(x.sep), back);
    NothingJoined();
  }

  lemma NothingJoined()
    ensures Join([]).ids == []
  {
  }

  /** It ends with the answer, supervised, and the end token, which is not. */
  lemma SearchEnds(c: Config, x: SearchTrace) returns (a: nat)
    ensures var row, b := Join(SearchRows(c, x)), a + |x.answer|;
            && b + |x.eos| == |row.ids| == |row.labels|
            && row.ids[a..b] == row.labels[a..b] == x.answer && row.ids[b..] == x.eos && row.labels[b..] == Ignored(|x.eos|)
  {
    var front := [Given(x.prefix), Learnt(x.sep)] + Flatten(FirstTurns(c, x, |x.turns|)) + Thought(c, x.verbal, x.answerThink, x.sep);
    assert SearchRows(c, x) == front + [Learnt(x.answer), Given(x.eos)] + [];
    RowsAligned(c, x);
    hide Join, Flatten, FirstTurns, Thought, SearchRows, Aligned;
    a := SlicesAt(front, Learnt(x.answer), Given(x.eos), []);
    JoinConcat(front, [Learnt(x.answer), Given(x.eos)]);
    JoinTwo(Learnt(x.answer), Given(x.eos));
    assert front + [Learnt(x.answer), Given(x.eos)] + [] == front + [Learnt(x.answer), Given(x.eos)];
  }

  lemma JoinTwo(r: Row, q: Row)
    ensures Join([r, q]) == Row(r.ids + q.ids, r.labels + q.labels, r.mask + q.mask)
  {
    JoinNext([], r);
    JoinNext([r], q);
    assert [] + [r] == [r] && [r] + [q] == [r, q];
    assert [] + r.ids == r.ids && [] + r.labels == r.labels && [] + r.mask == r.mask;
  }

  lemma AlignedFront(xs: seq<Row>, ys: seq<Row>)
    requires Aligned(xs + ys)
    ensures Aligned(xs) && Aligned(ys)
  {
    forall i | 0 <= i < |xs| ensures |xs[i].ids| == |xs[i].labels| == |xs[i].mask| { assert (xs + ys)[i] == xs[i]; }
    forall i | 0 <= i < |ys| ensures |ys[i].ids| == |ys[i].labels| == |ys[i].mask| { assert (xs + ys)[|xs| + i] == ys[i]; }
  }

  lemma LearntIs(toks: seq<int>)
    ensures Learnt(toks).ids == Learnt(toks).labels == Given(toks).ids == toks && Given(toks).labels == Ignored(|toks|)
  {
  }

  /** Prompt, separator, the turns before, this turn's reasoning. */
  function UpToSearch(c: Config, x: SearchTrace, i: nat): seq<Row>
    requires i < |x.turns|
  {
    [Given(x.prefix), Learnt(x.sep)] + Flatten(FirstTurns(c, x, i)) + Thought(c, x.turns[i].verbal, x.turns[i].think, x.sep)
  }

  lemma RowsAround(c: Config, x: SearchTrace, i: nat) returns (back: seq<Row>)
    requires i < |x.turns|
    ensures SearchRows(c, x) == UpToSearch(c, x, i) + [Learnt(x.turns[i].search), Given(x.turns[i].info)] + back
  {
    hide Learnt, Given, Thought;
    var before, after, t := FirstTurns(c, x, i), RestTurns(c, x, i + 1), x.turns[i];
    assert FirstTurns(c, x, |x.turns|) == before + [SearchTurnRows(c, x, t)] + after;
    FlattenConcat(before + [SearchTurnRows(c, x, t)], after);
    FlattenAppend(before, SearchTurnRows(c, x, t));
    hide Flatten, FirstTurns, RestTurns;
    back := Flatten(after) + Thought(c, x.verbal, x.answerThink, x.sep) + [Learnt(x.answer), Given(x.eos)];
  }

  function RestTurns(c: Config, x: SearchTrace, n: nat): seq<seq<Row>>
    requires n <= |x.turns|
  {
    seq(|x.turns| - n, i requires 0 <= i < |x.turns| - n => SearchTurnRows(c, x, x.turns[n + i]))
  }

  ghost predicate Aligned(rows: seq<Row>) {
    forall i :: 0 <= i < |rows| ==> |rows[i].ids| == |rows[i].labels| == |rows[i].mask|
  }

  lemma {:induction false} FlattenAligned(xs: seq<seq<Row>>)
    requires forall i :: 0 <= i < |xs| ==> Aligned(xs[i])
    ensures Aligned(Flatten(xs))
  {
    if xs != [] {
      FlattenAligned(xs[1..]);
    }
  }

  lemma RowsAligned(c: Config, x: SearchTrace)
    ensures Aligned(SearchRows(c, x))
  {
    FlattenAligned(FirstTurns(c, x, |x.turns|));
    hide Flatten;
  }

  /** Where two rows stand in a sequence of aligned ones. */
  lemma SlicesAt(front: seq<Row>, r: Row, q: Row, back: seq<Row>) returns (a: nat)
    requires Aligned(front + [r, q] + back)
    ensures a == |Join(front).ids|
    ensures var row, b := Join(front + [r, q] + back), a + |r.ids|;
            && b + |q.ids| <= |row.ids| == |row.labels|
            && row.ids[a..b] == r.ids && row.labels[a..b] == r.labels
            && row.ids[b..b + |q.ids|] == q.ids && row.labels[b..b + |q.ids|] == q.labels
  {
    hide Join, Aligned;
    var mid := [r, q];
    assert front + mid + back == front + (mid + back);
    AlignedFront(front, mid + back);
    AlignedSizes(front + mid + back);
    AlignedSizes(front);
    AlignedPair(r, q, back);
    JoinConcat(front, mid + back);
    JoinConcat(mid, back);
    JoinTwo(r, q);
    a := |Join(front).ids|;
    SlicePair(Join(front).ids, r.ids, q.ids, Join(back).ids);
    SlicePair(Join(front).labels, r.labels, q.labels, Join(back).labels);
  }

  lemma AlignedSizes(rows: seq<Row>)
    requires Aligned(rows)
    ensures |Join(rows).ids| == |Join(rows).labels| == |Join(rows).mask|
  {
    JoinSizes(rows);
  }

  lemma AlignedPair(r: Row, q: Row, back: seq<Row>)
    requires Aligned([r, q] + back)
    ensures |r.ids| == |r.labels| && |q.ids| == |q.labels|
  {
    assert ([r, q] + back)[0] == r && ([r, q] + back)[1] == q;
  }

  lemma SlicePair<T>(x: seq<T>, y: seq<T>, z: seq<T>, w: seq<T>)
    ensures var all, b := x + ((y + z) + w), |x| + |y|;
            all[|x|..b] == y && all[b..b + |z|] == z
  {
  }

  method AppendReasoning(s: Sample, verbal: bool, think: seq<int>, sep: seq<int>)
    requires s.Valid()
    modifies s
    ensures s.Valid() && s.pieces == Reasoning(old(s.pieces), verbal, think, sep)
  {
    hide Sample.Valid;
    if verbal {
      s.AppendWords(think, true);
    } else {
      s.AppendLatent();
      s.AppendWords(sep, true);
    }
  }

  /** `SearchLatentDataset.__getitem__` */
  method SearchItem(c: Config, x: SearchTrace, maxLength: int) returns (ids: seq<int>, labels: seq<int>, mask: seq<bool>)
    ensures IsItem(SearchRows(c, x), maxLength, ids, labels, mask)
    ensures var ps, n := SearchPieces(x), Kept(|Ids(c, SearchPieces(x))|, maxLength);
            ids == Ids(c, ps)[..n] && labels == Labels(c, ps)[..n] && mask == Mask(c, ps)[..n]
  {
    hide Sample.Valid, Reasoning;
    var s := new Sample(c);
    s.AppendWords(x.prefix, false);
    s.AppendWords(x.sep, true);
    for n := 0 to |x.turns|
      invariant s.Valid() && s.pieces == TurnPieces(x, n) && s.c == c
    {
      var t := x.turns[n];
      AppendReasoning(s, t.verbal, t.think, x.sep);
      s.AppendWords(t.search, true);
      s.AppendWords(t.info, false);
    }
    AppendReasoning(s, x.verbal, x.answerThink, x.sep);
    s.AppendWords(x.answer, true);
    s.AppendWords(x.eos, false);
    s.Lists();
    ids, labels, mask := Truncate(s.ids, s.labels, s.latentMask, maxLength);
    SearchSpells(c, x);
    ItemCut(c, SearchPieces(x), SearchRows(c, x), maxLength, ids, labels, mask);
    hide Spells, IsItem, SearchRows;
  }

  /** How much of a row of n tokens `_truncate` keeps. */
  function Kept(n: nat, maxLength: int): (k: nat)
    ensures k <= n
  {
    if maxLength <= 0 || n <= maxLength then n else maxLength
  }

  /** `_truncate` */
  method Truncate(ids: seq<int>, labels: seq<int>, mask: seq<bool>, maxLength: int)
    returns (ids': seq<int>, labels': seq<int>, mask': seq<bool>)
    requires |ids| == |labels| == |mask|
    ensures var n := Kept(|ids|, maxLength); ids' == ids[..n] && labels' == labels[..n] && mask' == mask[..n]
  {
    if maxLength <= 0 || |ids| <= maxLength {
      return ids, labels, mask;
    }
    return ids[..maxLength], labels[..maxLength], mask[..maxLength];
  }

  // ---- the tool dataset --------------------------------------------------------------------

  datatype ToolTurn = ToolTurn(verbal: bool, think: seq<int>, freeText: seq<int>, calls: seq<seq<int>>, response: seq<int>)
  datatype ToolTrace = ToolTrace(prefix: seq<int>, sep: seq<int>, assistant: seq<int>, nl: seq<int>, imEnd: seq<int>,
                                 turns: seq<ToolTurn>, answered: bool, verbal: bool, answerThink: seq<int>, answer: seq<int>)

  function CallPieces(ps: seq<Piece>, nl: seq<int>, calls: seq<seq<int>>, n: nat): seq<Piece>
    requires n <= |calls|
  {
    if n == 0 then ps
    else
      var init := CallPieces(ps, nl, calls, n - 1);
      (if n > 1 then init + [Words(nl, true)] else init) + [Words(calls[n - 1], true)]
  }

  /** `freeText` is empty when the turn has none, `response` when it is missing. */
  function ToolTurnPieces(ps: seq<Piece>, x: ToolTrace, t: ToolTurn): seq<Piece> {
    var begun := Reasoning(ps + [Words(x.assistant, false)], t.verbal, t.think, x.sep);
    var texted := if t.freeText != [] then begun + [Words(t.freeText, true)] + [Words(x.nl, true)] else begun;
    var ended := CallPieces(texted, x.nl, t.calls, |t.calls|) + [Words(x.imEnd, true)];
    if t.response != [] then ended + [Words(t.response, false)] else ended
  }

  function ToolPrefixPieces(x: ToolTrace, n: nat): seq<Piece>
    requires n <= |x.turns|
  {
    if n == 0 then [] + [Words(x.prefix, false)] else ToolTurnPieces(ToolPrefixPieces(x, n - 1), x, x.turns[n - 1])
  }

  function ToolPieces(x: ToolTrace): seq<Piece> {
    var ps := ToolPrefixPieces(x, |x.turns|);
    if x.answered then
      Reasoning(ps + [Words(x.assistant, false)], x.verbal, x.answerThink, x.sep)
      + [Words(x.answer, true)] + [Words(x.imEnd, true)]
    else ps
  }

  /** The calls of a turn, a line break between two. */
  function CallRows(nl: seq<int>, calls: seq<seq<int>>): seq<Row> {
    Flatten(seq(|calls|, j requires 0 <= j < |calls| => (if j > 0 then [Learnt(nl)] else []) + [Learnt(calls[j])]))
  }

  /** A tool turn: the opening of the assistant given; reasoning, free text, calls and the end of turn
      learnt; the tool's response given. */
  function ToolTurnRows(c: Config, x: ToolTrace, t: ToolTurn): seq<Row> {
    [Given(x.assistant)] + Thought(c, t.verbal, t.think, x.sep)
    + (if t.freeText != [] then [Learnt(t.freeText), Learnt(x.nl)] else [])
    + CallRows(x.nl, t.calls) + [Learnt(x.imEnd)]
    + (if t.response != [] then [Given(t.response)] else [])
  }

  function FirstToolTurns(c: Config, x: ToolTrace, n: nat): seq<seq<Row>>
    requires n <= |x.turns|
  {
    seq(n, i requires 0 <= i < n => ToolTurnRows(c, x, x.turns[i]))
  }

  /** The whole row: the prompt given, the turns, and a final answer if there is one. */
  function ToolRows(c: Config, x: ToolTrace): seq<Row> {
    [Given(x.prefix)] + Flatten(FirstToolTurns(c, x, |x.turns|))
    + if x.answered then
        [Given(x.assistant)] + Thought(c, x.verbal, x.answerThink, x.sep) + [Learnt(x.answer), Learnt(x.imEnd)]
      else []
  }

  function FirstCalls(nl: seq<int>, calls: seq<seq<int>>, n: nat): seq<seq<Row>>
    requires n <= |calls|
  {
    seq(n, j requires 0 <= j < n => (if j > 0 then [Learnt(nl)] else []) + [Learnt(calls[j])])
  }

  lemma {:induction false} CallsSpell(c: Config, ps: seq<Piece>, rows: seq<Row>, nl: seq<int>, calls: seq<seq<int>>, n: nat)
    requires n <= |calls| && Spells(c, ps, rows)
    ensures Spells(c, CallPieces(ps, nl, calls, n), rows + Flatten(FirstCalls(nl, calls, n)))
  {
    hide Spells, Learnt;
    if n == 0 {
      assert rows + Flatten<Row>([]) == rows by { FlattenNone<Row>(); }
    } else {
      CallsSpell(c, ps, rows, nl, calls, n - 1);
      var before, rows1, ps1 := FirstCalls(nl, calls, n - 1), rows + Flatten(FirstCalls(nl, calls, n - 1)), CallPieces(ps, nl, calls, n - 1);
      var call := (if n > 1 then [Learnt(nl)] else []) + [Learnt(calls[n - 1])];
      FlattenAppend(before, call);
      assert FirstCalls(nl, calls, n) == before + [call];
      if n > 1 {
        SpellsWords(c, ps1, rows1, nl, true);
        SpellsWords(c, ps1 + [Words(nl, true)], rows1 + [Learnt(nl)], calls[n - 1], true);
      } else {
        SpellsWords(c, ps1, rows1, calls[n - 1], true);
      }
      hide Flatten, FirstCalls;
      assert n > 1 ==> rows1 + [Learnt(nl)] + [Learnt(calls[n - 1])] == rows + (Flatten(before) + call);
      assert n == 1 ==> rows1 + [Learnt(calls[n - 1])] == rows + (Flatten(before) + call);
    }
  }

  lemma ToolTurnSpells(c: Config, ps: seq<Piece>, rows: seq<Row>, x: ToolTrace, t: ToolTurn)
    requires Spells(c, ps, rows)
    ensures Spells(c, ToolTurnPieces(ps, x, t), rows + ToolTurnRows(c, x, t))
  {
    hide Spells, Learnt, Given, Reasoning, Thought, CallPieces, Flatten;
    var (p0, r0) := (ps + [Words(x.assistant, false)], rows + [Given(x.assistant)]);
    SpellsWords(c, ps, rows, x.assistant, false);
    var (p1, r1) := (Reasoning(p0, t.verbal, t.think, x.sep), r0 + Thought(c, t.verbal, t.think, x.sep));
    SpellsReasoning(c, p0, r0, t.verbal, t.think, x.sep);
    var (p2, r2) := (p1, r1);
    if t.freeText != [] {
      SpellsWords(c, p1, r1, t.freeText, true);
      SpellsWords(c, p1 + [Words(t.freeText, true)], r1 + [Learnt(t.freeText)], x.nl, true);
      p2, r2 := p1 + [Words(t.freeText, true)] + [Words(x.nl, true)], r1 + [Learnt(t.freeText)] + [Learnt(x.nl)];
    }
    CallsSpell(c, p2, r2, x.nl, t.calls, |t.calls|);
    assert CallRows(x.nl, t.calls) == Flatten(FirstCalls(x.nl, t.calls, |t.calls|)) by { AllCalls(x.nl, t.calls); }
    hide CallRows, FirstCalls;
    var (p3, r3) := (CallPieces(p2, x.nl, t.calls, |t.calls|), r2 + CallRows(x.nl, t.calls));
    SpellsWords(c, p3, r3, x.imEnd, true);
    if t.response != [] {
      SpellsWords(c, p3 + [Words(x.imEnd, true)], r3 + [Learnt(x.imEnd)], t.response, false);
      assert r3 + [Learnt(x.imEnd)] + [Given(t.response)] == rows + ToolTurnRows(c, x, t);
    } else {
      assert r3 + [Learnt(x.imEnd)] == rows + ToolTurnRows(c, x, t);
    }
  }

  lemma AllCalls(nl: seq<int>, calls: seq<seq<int>>)
    ensures CallRows(nl, calls) == Flatten(FirstCalls(nl, calls, |calls|))
  {
    assert seq(|calls|, j requires 0 <= j < |calls| => (if j > 0 then [Learnt(nl)] else []) + [Learnt(calls[j])])
        == FirstCalls(nl, calls, |calls|);
  }

  lemma {:induction false} ToolTurnsSpell(c: Config, x: ToolTrace, n: nat)
    requires n <= |x.turns|
    ensures Spells(c, ToolPrefixPieces(x, n), [Given(x.prefix)] + Flatten(FirstToolTurns(c, x, n)))
  {
    hide Spells, ToolTurnPieces, Given, ToolTurnRows;
    if n == 0 {
      SpellsNothing(c);
      SpellsWords(c, [], [], x.prefix, false);
      assert [Given(x.prefix)] + Flatten<Row>([]) == [] + [Given(x.prefix)] by { FlattenNone<Row>(); }
    } else {
      ToolTurnsSpell(c, x, n - 1);
      var before, t := FirstToolTurns(c, x, n - 1), x.turns[n - 1];
      ToolTurnSpells(c, ToolPrefixPieces(x, n - 1), [Given(x.prefix)] + Flatten(before), x, t);
      FlattenAppend(before, ToolTurnRows(c, x, t));
      assert FirstToolTurns(c, x, n) == before + [ToolTurnRows(c, x, t)];
      hide Flatten;
      assert [Given(x.prefix)] + Flatten(before) + ToolTurnRows(c, x, t) == [Given(x.prefix)] + (Flatten(before) + ToolTurnRows(c, x, t));
    }
  }

  lemma ToolSpells(c: Config, x: ToolTrace)
    ensures Spells(c, ToolPieces(x), ToolRows(c, x))
  {
    hide Spells, Reasoning, Thought, Given, Learnt, Flatten, ToolPrefixPieces, FirstToolTurns;
    ToolTurnsSpell(c, x, |x.turns|);
    var ps, rows := ToolPrefixPieces(x, |x.turns|), [Given(x.prefix)] + Flatten(FirstToolTurns(c, x, |x.turns|));
    if x.answered {
      SpellsWords(c, ps, rows, x.assistant, false);
      var p0, r0 := ps + [Words(x.assistant, false)], rows + [Given(x.assistant)];
      SpellsReasoning(c, p0, r0, x.verbal, x.answerThink, x.sep);
      var p1, r1 := Reasoning(p0, x.verbal, x.answerThink, x.sep), r0 + Thought(c, x.verbal, x.answerThink, x.sep);
      SpellsWords(c, p1, r1, x.answer, true);
      SpellsWords(c, p1 + [Words(x.answer, true)], r1 + [Learnt(x.answer)], x.imEnd, true);
      assert r1 + [Learnt(x.answer)] + [Learnt(x.imEnd)] == ToolRows(c, x);
    } else {
      assert ToolRows(c, x) == rows;
    }
  }

  /** The body of the loop over tool turns. */
  method AppendToolTurn(s: Sample, x: ToolTrace, t: ToolTurn)
    requires s.Valid()
    modifies s
    ensures s.Valid() && s.pieces == ToolTurnPieces(old(s.pieces), x, t)
  {
    hide Sample.Valid, Reasoning;
    s.AppendWords(x.assistant, false);
    AppendReasoning(s, t.verbal, t.think, x.sep);
    if t.freeText != [] {
      s.AppendWords(t.freeText, true);
      s.AppendWords(x.nl, true);
    }
    ghost var before := s.pieces;
    for j := 0 to |t.calls|
      invariant s.Valid() && s.pieces == CallPieces(before, x.nl, t.calls, j)
    {
      if j > 0 {
        s.AppendWords(x.nl, true);
      }
      s.AppendWords(t.calls[j], true);
    }
    s.AppendWords(x.imEnd, true);
    if t.response != [] {
      s.AppendWords(t.response, false);
    }
  }

  /** `ToolLatentDataset.__getitem__` */
  method ToolItem(c: Config, x: ToolTrace, maxLength: int) returns (ids: seq<int>, labels: seq<int>, mask: seq<bool>)
    ensures IsItem(ToolRows(c, x), maxLength, ids, labels, mask)
    ensures var ps, n := ToolPieces(x), Kept(|Ids(c, ToolPieces(x))|, maxLength);
            ids == Ids(c, ps)[..n] && labels == Labels(c, ps)[..n] && mask == Mask(c, ps)[..n]
  {
    hide Sample.Valid, Reasoning, ToolTurnPieces;
    var s := new Sample(c);
    s.AppendWords(x.prefix, false);
    for n := 0 to |x.turns|
      invariant s.Valid() && s.pieces == ToolPrefixPieces(x, n) && s.c == c
    {
      AppendToolTurn(s, x, x.turns[n]);
    }
    if x.answered {
      s.AppendWords(x.assistant, false);
      AppendReasoning(s, x.verbal, x.answerThink, x.sep);
      s.AppendWords(x.answer, true);
      s.AppendWords(x.imEnd, true);
    }
    s.Lists();
    ids, labels, mask := Truncate(s.ids, s.labels, s.latentMask, maxLength);
    ToolSpells(c, x);
    ItemCut(c, ToolPieces(x), ToolRows(c, x), maxLength, ids, labels, mask);
    hide Spells, IsItem, ToolRows;
  }

  // ---- the rows ----------------------------------------------------------------------------

  /** The stretches between blocks. */
  function ParseOf(c: Config, ps: seq<Piece>): (p: Parse)
    ensures !p.cut
  {
    if ps == [] then Parse([], [], false, [])
    else
      var q := ParseOf(c, ps[..|ps| - 1]);
      match ps[|ps| - 1]
      case Words(toks, _) => q.(tail := q.tail + toks)
      case Block => Parse(q.ss + [q.tail + c.open], [], false, [])
  }

  lemma TextParse(a: seq<int>, am: seq<bool>, tail: seq<int>, toks: seq<int>)
    ensures a + tail + toks == a + (tail + toks)
    ensures am + Falses(|tail|) + Falses(|toks|) == am + Falses(|tail + toks|)
  {
  }

  lemma BlockParse(c: Config, a: seq<int>, am: seq<bool>, tail: seq<int>)
    ensures a + tail + BlockOf(c, c.open) == a + BlockOf(c, tail + c.open) + []
    ensures am + Falses(|tail|) + BlockMask(c, c.open) == am + BlockMask(c, tail + c.open) + Falses(0)
  {
  }

  lemma {:induction false} PiecesParse(c: Config, ps: seq<Piece>)
    ensures var q := ParseOf(c, ps);
            Ids(c, ps) == Blocks(c, q.ss) + q.tail && Mask(c, ps) == BlocksMask(c, q.ss) + Falses(|q.tail|)
    decreases |ps|
  {
    hide Blocks, BlocksMask, BlockOf, BlockMask, Falses;
    if ps == [] {
      BlocksNone(c);
    } else {
      var n := |ps| - 1;
      var q := ParseOf(c, ps[..n]);
      PiecesParse(c, ps[..n]);
      match ps[n] {
        case Words(toks, _) =>
          TextParse(Blocks(c, q.ss), BlocksMask(c, q.ss), q.tail, toks);
        case Block =>
          BlocksAppend(c, q.ss, q.tail + c.open);
          BlockParse(c, Blocks(c, q.ss), BlocksMask(c, q.ss), q.tail);
      }
    }
  }

  lemma BlocksNone(c: Config)
    ensures Blocks(c, []) + [] == [] && BlocksMask(c, []) + Falses(0) == []
  {
  }

  /** Ordinary text holds no open literal, not even one running into a real block's. */
  ghost predicate PlainText(c: Config, ps: seq<Piece>) {
    var q := ParseOf(c, ps); Stretches(c, q.ss) && Free(c.open, q.tail)
  }

  /** The mask that the pattern match rebuilds from a dataset row is the row's own, exactly when
      the truncation did not fall inside the forced part of a block. */
  lemma DatasetMask(c: Config, ps: seq<Piece>, n: nat, rebuilt: seq<bool>)
    requires Unambiguous(c) && PlainText(c, ps) && n <= |Ids(c, ps)| == |Mask(c, ps)|
    requires |rebuilt| == n && forall i :: 0 <= i < n ==> rebuilt[i] == Covered(c, Ids(c, ps)[..n], i)
    ensures rebuilt == Mask(c, ps)[..n] <==> !CutsBlock(c, ParseOf(c, ps).ss, n)
    ensures n > 0 ==> !Mask(c, ps)[0]
  {
    hide Parses, Covered, CutsBlock, CutInside, Stretches, Free;
    PiecesParse(c, ps);
    var q := ParseOf(c, ps);
    var ids, mask := Ids(c, ps)[..n], Mask(c, ps)[..n];
    hide Ids, Mask, ParseOf, Blocks, BlocksMask;
    var p := RowTruncates(c, q.ss, q.tail, n);
    MaskAgreement(c, ids, mask, p);
    if n > 0 {
      RowsStartUnmasked(c, ids, mask, p);
    }
    assert rebuilt == mask <==> forall j: nat :: j < |ids| ==> (Covered(c, ids, j) <==> mask[j]);
  }

  /** Latent positions are never supervised. */
  lemma {:induction false} LatentUnsupervised(c: Config, ps: seq<Piece>, i: nat)
    requires i < |Ids(c, ps)| && Mask(c, ps)[i]
    ensures Labels(c, ps)[i] == IGNORE_INDEX && Ids(c, ps)[i] == c.sentinel
    decreases |ps|
  {
    var n := |ps| - 1;
    if i < |Ids(c, ps[..n])| {
      LatentUnsupervised(c, ps[..n], i);
    } else {
      assert PieceMask(c, ps[n])[i - |Ids(c, ps[..n])|];
    }
  }
}
