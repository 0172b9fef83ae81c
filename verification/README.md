# Verified model of weight transfer, latent reasoning and rollout

This project models three parts of the repository in Dafny and proves what they are for.

**Weight transfer** (`verl/verl/checkpoint_engine/`). A trainer packs named tensors into byte buckets and
streams them to rollout ranks through two alternating buffers. `Buckets.dfy` says what a bucket is, what the
packing loop computes and what reading it back gives. NIXL (`Nixl*.dfy`) and Mooncake (`Mooncake*.dfy`) are
state machines for any number of ranks, any interleaving, and remote copies that land at any moment between
their start and their completion; every statement about them is about every state of every run. NCCL
(`Nccl.dfy`) and the parameter-server engine (`KimiBuckets.dfy`, `Kimi.dfy`) are imperative, over byte arrays,
with the broadcast in flight allowed to have written any part of its buffer.

**Latent reasoning** (`alar/`, the agent loops, the datasets). `Latent.dfy` defines the one embedding sequence
that everything must agree with: position by position, a token's embedding or, where masked, the projection of
the hidden state after everything before it. The network is abstract (`embed`, a causal `hidden`, `proj`).
`LatentPlugin.dfy` is the decoding plugin for one request as a function of its state, `LatentRunner.dfy` the same
on request objects updated in place for a whole batch, `LatentExpand.dfy` the cached training expansion,
`LatentMask.dfy` and `LatentRows.dfy` the two pattern matchers and the rows on which they are right,
`LatentDataset.dfy` and `Collate.dfy` the supervised rows, and `LatentForward.dfy`, `LatentCache.dfy`,
`LatentAgent.dfy`, `LatentSeams.dfy`, `LatentTraining.dfy`, `LatentExact.dfy` the path of the captured values from the
rollout into training.

**Rollout, dispatch, checkpoints.** Scoring of tool calls and the turn-synchronised rollout
(`Scoring.dfy`, `Rollout.dfy`, `RolloutLoop.dfy`), call-set matching (`CallSet.dfy`), batch dispatch
(`Dispatch.dfy`), QKV packing (`Qkv.dfy`), pipeline sharding (`PipelineShards.dfy`), search batching
(`Batcher.dfy`).

What holds only under a condition, or not at all:

- NIXL's `build_topology` is accepted exactly for two or more rollout workers; with one, a slice that starts at
  index 0 is the whole list (`NixlTopology.TopologyAccepted`).
- A dict keeps one entry per name, so a bucket that repeats a name loses a tensor: delivery is exact exactly when
  no bucket does (`Buckets.DeliveredIsSent`).
- Mooncake's acknowledgement by magic word is safe exactly when no bucket whose half is used again (all but the
  last two) can be read as the word: neither begins with it nor, if shorter, is its beginning
  (`MooncakeExact.SafeIffRecognisable`). Ranks before the last may hand out the word instead of data even then,
  exactly from buckets that can be told from the word (`MooncakeExact.MarkedViewsAreYielded`).
- The plugin's `remaining > 0` assertion can fire exactly when no latent position is configured
  (`LatentPlugin.NeverFailsIffPositive`).
- A row cut inside the forced part of a block is masked differently in training than in the rollout, exactly then
  (`LatentRows.MaskAgreement`); a wrong mask is never harmless for all networks (`LatentRows.MaskMatters`).
- Prompt, turns and retrieved texts give a row on which cached and recomputed embeddings agree when no open literal
  stands in the prompt, in a retrieved text or across a seam, and every turn that goes on ended outside a block
  (`LatentTraining.RolloutThenTrain`); for all networks they agree exactly when the rebuilt mask is the true one,
  possibly cut off (`LatentExact.CachedIffCutOff`).
- The pipeline search returns a result for three or more stages exactly when `ceil(L/p) * (p - 2) + 2 <= L`
  (`PipelineShards.GetDynamicPipelineShards`); its error message speaks of a stricter bound than its test.
- `parse_expected_call` documents that a failed parse makes the comparison fail; the empty dict it returns is
  matched by every dict, and nothing but an expected call without keys is (`Scoring.UnparsedMatchesDicts`).
- A record with a mismatch mark is still kept when more than a fifth of its expected calls are right
  (`Scoring.KeptWhen`).
- Above six calls, `check_call_set` depends on the order it was promised to ignore (`CallSet.GreedyMisses`), exactly
  when two predictions share an acceptable ground truth but not all of them (`CallSet.OrderIgnoredIffUniform`).

`dafny verify dfyconfig.toml` checks the whole project.

## Model

| member | source | states |
|---|---|---|
| Buckets.SlotsSeparate | verl/verl/checkpoint_engine/nixl_checkpoint_engine.py:410-421 | Slots written at running offsets lie within the bucket's bytes and no two share a byte, whatever the names and sizes. |
| Buckets.BucketRoundTrip | verl/verl/checkpoint_engine/nixl_checkpoint_engine.py:474-479 | Slicing any buffer that begins with a bucket's bytes by the bucket's metadata gives back exactly the bucket's items. |
| Buckets.ItemsAreWeights | verl/verl/checkpoint_engine/nixl_checkpoint_engine.py:414-419 | The metadata dict holds every weight of the bucket if and only if no name repeats. |
| Buckets.PackCharacterised | verl/verl/checkpoint_engine/nixl_checkpoint_engine.py:387-422 | The sender's loop computes the one greedy packing: all weights in order, no bucket over the limit, none closed while the next weight would fit; no other list of buckets has these properties. |
| Buckets.BucketsBounded | verl/verl/checkpoint_engine/nixl_checkpoint_engine.py:410-412 | No bucket ever exceeds the size limit, also when the sender stops on an oversized weight. |
| Buckets.DeliveredIsSent | verl/verl/checkpoint_engine/nixl_checkpoint_engine.py:387-431 | The items of all buckets are the weights sent, in order and once each, exactly when no bucket repeats a name. |
| NixlInvariant.InitInv | verl/verl/checkpoint_engine/nixl_checkpoint_engine.py:365-456 | The system invariant holds before the first step. |
| NixlInvariant.StepPreserves | verl/verl/checkpoint_engine/nixl_checkpoint_engine.py:137-230 | Every step of every rank, and every landing of a remote copy, keeps the invariant that ties each buffer, queue, notification and outstanding read to a bucket of the packing. |
| NixlTheorems.OnlyOverwrites | verl/verl/checkpoint_engine/nixl_checkpoint_engine.py:421-421 | The steps named as writes are all of them: any other buffer of any rank is untouched by a step. |
| NixlTheorems.BufferSafety | verl/verl/checkpoint_engine/nixl_checkpoint_engine.py:441-513 | In every run, while a published read of a buffer is outstanding or its items are being yielded, no step of any rank changes its bytes. |
| NixlTheorems.ChainDelivers | verl/verl/checkpoint_engine/nixl_checkpoint_engine.py:441-513 | In every run each rollout rank has at every moment yielded a prefix of the items of the packed buckets, and all of them once it has returned. |
| NixlTheorems.DeliveryIsExact | verl/verl/checkpoint_engine/nixl_checkpoint_engine.py:379-431 | With every weight small enough, what is delivered is the sequence of (name, bytes) sent, exactly when no bucket repeats a name. |
| NixlTheorems.NoCrash | verl/verl/checkpoint_engine/nixl_checkpoint_engine.py:410-412 | No assertion of any rank fires in any run, except the sender's on a weight larger than a bucket. |
| NixlTheorems.AckComes | verl/verl/checkpoint_engine/nixl_checkpoint_engine.py:164-168 | While a rank waits for its successor's read, some rank further down the chain can step. |
| NixlTheorems.NoDeadlock | verl/verl/checkpoint_engine/nixl_checkpoint_engine.py:393-431 | A reachable state in which nothing can step is one where every rank has returned, or where the sender stopped on an oversized weight. |
| NixlTermination.StepDrops | verl/verl/checkpoint_engine/nixl_checkpoint_engine.py:458-513 | Every step of every rank strictly decreases one measure of the work remaining in the system. |
| NixlTermination.InitialWork | verl/verl/checkpoint_engine/nixl_checkpoint_engine.py:365-513 | The measure before the first step in closed form: linear in the weights for the sender, in buckets and items for each receiver. |
| NixlTermination.EveryRunCompletes | verl/verl/checkpoint_engine/nixl_checkpoint_engine.py:365-513 | With every weight small enough no run exceeds that bound, and a run that cannot go on has ended with every rank returned and every rollout rank holding all items. |
| NixlTopology.TopologyIsChain | verl/verl/checkpoint_engine/nixl_checkpoint_engine.py:283-299 | With two or more rollout workers the keyword lists are accepted and link trainer 0 and the rollout workers into one chain of neighbours; other trainers get rank -1; every worker is told the chain's length. |
| NixlTopology.TopologyAccepted | verl/verl/checkpoint_engine/base.py:354-378 | The set-up passes the per-worker length check and the ranks' assertions if and only if there are at least two rollout workers. |
| MooncakeInvariant.StepPreserves | verl/verl/checkpoint_engine/mooncake_checkpoint_engine.py:149-275 | Every step of every rank keeps the invariant on halves, infos, marks and copies, given that buckets whose half is used again can be told from the magic word. |
| MooncakeTheorems.OnlyOverwrites | verl/verl/checkpoint_engine/mooncake_checkpoint_engine.py:237-266 | A step writes no half of any rank other than the named one, but for the successor's four magic bytes. |
| MooncakeTheorems.NoEarlyOverwrite | verl/verl/checkpoint_engine/mooncake_checkpoint_engine.py:167-212 | Under that condition, in every run no rank overwrites a half its successor has not copied yet. |
| MooncakeExact.SafeIffRecognisable | verl/verl/checkpoint_engine/mooncake_checkpoint_engine.py:182-188 | The condition is exact: for every number of ranks, no run overwrites a half before it is copied if and only if no bucket whose half is used again can be read as the word. |
| MooncakeExact.WrongCopy | verl/verl/checkpoint_engine/mooncake_checkpoint_engine.py:234-248 | Where it fails for a bucket and the half is refilled with other bytes, some run lets the first rollout rank copy something that was never sent as that bucket. |
| MooncakeTheorems.CopiesAreBuckets | verl/verl/checkpoint_engine/mooncake_checkpoint_engine.py:231-251 | Under the same condition every rank copies exactly the sender's buckets, in order, and all of them if it returns. |
| MooncakeTheorems.LastRankDelivers | verl/verl/checkpoint_engine/mooncake_checkpoint_engine.py:252-257 | Under the same condition the last rank yields a prefix of the items of the packed buckets, and all of them once it returns. |
| MooncakeTheorems.MarkComes | verl/verl/checkpoint_engine/mooncake_checkpoint_engine.py:142-147 | While a rank polls for the magic word of a bucket, some rank further down the chain can step. |
| MooncakeTheorems.NoDeadlock | verl/verl/checkpoint_engine/mooncake_checkpoint_engine.py:142-275 | With halves of at least four bytes, a reachable state in which nothing can step is one where every rank has returned, or where the sender stopped on an oversized weight and every other rank is done with all that was published. |
| MooncakeTermination.StepDrops | verl/verl/checkpoint_engine/mooncake_checkpoint_engine.py:149-275 | Every step of every rank strictly decreases one measure of the work remaining in the system. |
| MooncakeTermination.InitialWork | verl/verl/checkpoint_engine/mooncake_checkpoint_engine.py:149-275 | The measure before the first step in closed form: linear in the weights for the sender, in buckets and items for each receiver. |
| MooncakeTermination.EveryRunCompletes | verl/verl/checkpoint_engine/mooncake_checkpoint_engine.py:142-275 | Polling always ends: with every weight small enough no run exceeds that bound, and a run that cannot go on has ended with every rank returned, every rank's copies the sender's buckets and the last rank holding all items. |
| MooncakeExact.WordInDataBreaksCopies | verl/verl/checkpoint_engine/mooncake_checkpoint_engine.py:142-147 | The least case: a first bucket equal to the word is taken for an acknowledgement, and in some run a rank copies something else as the first bucket. |
| MooncakeTheorems.ViewIsTrueOrMarked | verl/verl/checkpoint_engine/mooncake_checkpoint_engine.py:252-266 | What a rank before the last finds for an item is the weight sent, or, once its successor is done with the bucket, the weight under the magic word over the bucket's first bytes. |
| MooncakeExact.WrongViewIff | verl/verl/checkpoint_engine/mooncake_checkpoint_engine.py:252-266 | A rank before the last hands out something else than a given item in some run if and only if the word over the bucket's head shows in that item. |
| MooncakeExact.MarkedViewsAreYielded | verl/verl/checkpoint_engine/mooncake_checkpoint_engine.py:252-266 | In a bucket without repeated names some item is handed out wrong in some run if and only if the bucket can be told from the word, as every bucket whose half is used again can. |
| Nccl.SendWeights | verl/verl/checkpoint_engine/nccl_checkpoint_engine.py:224-294 | The master stops exactly on a weight that fits no bucket; what the ranks receive are the packed buckets in order, the final one marked; a buffer awaited is byte for byte as it was when its broadcast started. |
| Nccl.ReceiveWeights | verl/verl/checkpoint_engine/nccl_checkpoint_engine.py:297-358 | Whatever part of the next bucket has already arrived, a rank yields the items of every bucket, in order, from the buffer not being received. |
| Nccl.Transfer | verl/verl/checkpoint_engine/nccl_checkpoint_engine.py:224-358 | Master and rank together: the rank yields the items of the packed buckets, and they are the weights sent exactly when no bucket repeats a name. |
| KimiBuckets.NamedTensorBuckets | verl/verl/checkpoint_engine/kimi_checkpoint_engine.py:37-63 | One rank's buckets are the dicts of consecutive runs of its share, none empty, only single tensors over the limit, each closed because the next tensor would not fit; ValueError exactly for a limit that is not positive. |
| KimiBuckets.SharesPartition | verl/verl/checkpoint_engine/kimi_checkpoint_engine.py:47-49 | Over all ranks the shares together are all tensors, each exactly once. |
| Kimi.EveryBucketOnce | verl/verl/checkpoint_engine/kimi_checkpoint_engine.py:106-129 | The round-robin order over the ranks' lists contains every bucket exactly once, with its own rank as the sender. |
| Kimi.RoundRobin | verl/verl/checkpoint_engine/kimi_checkpoint_engine.py:114-129 | In its i-th turn a rank broadcasts its i-th bucket, and before that every other rank has had i turns, or i + 1, or all of its own. |
| Kimi.OwnIsListed | verl/verl/checkpoint_engine/kimi_checkpoint_engine.py:99-111 | The list a rank stages from is the list the broadcasts take for that rank. |
| Kimi.Broadcast | verl/verl/checkpoint_engine/kimi_checkpoint_engine.py:129-161 | While a broadcast fills one half of the buffer, the previous bucket's items are yielded intact from the other; the sending rank puts its bucket's bytes on the wire. |
| Kimi.ReceiveTensor | verl/verl/checkpoint_engine/kimi_checkpoint_engine.py:66-173 | On every rank the broadcasts follow one schedule computed from the bucket list alone, every bucket is broadcast once, the rank sends its own buckets' bytes in its turns, and all items of all buckets are yielded in that order from what arrived, whatever comes over the wire. |
| Kimi.RanksAgree | verl/verl/checkpoint_engine/kimi_checkpoint_engine.py:129-148 | When what arrives in a turn is what that turn's rank sent, every rank receives the owner's bucket bytes in every turn, so all ranks yield the same items in the same order. |
| Latent.ExtendConcat | alar/vllm_plugin.py:261-265 | Extending the embedding sequence in two parts is extending it by the whole. |
| Latent.ExtendPrefix | alar/modeling.py:153-204 | Causality: cutting the tokens cuts the embeddings. |
| Latent.ExtendUnique | alar/modeling.py:153-204 | The position-by-position equation, each embedding determined by the ones before it, has exactly one solution. |
| LatentExpand.FindBlocks | alar/modeling.py:146-151 | The starts and ends from the differenced mask are the maximal runs of masked positions, in order, all of them. |
| LatentExpand.ExpandLatentBlocks | alar/modeling.py:130-204 | The loop over blocks with a growing key/value cache yields the unique solution of the position-by-position equation; it fails exactly on an empty row or one that begins with a masked position. |
| LatentPlugin.OutputParses | alar/vllm_plugin.py:310-432 | For any samples and K >= 1 the output parses as free stretches ending in the open literal, exactly K sentinels, the whole close literal, the last block possibly cut, and the request's state says where in this grammar it stands. |
| LatentPlugin.ZeroLatentsFails | alar/vllm_plugin.py:328-329 | With K = 0, sampling the open literal stops the engine on its assertion two steps later. |
| LatentPlugin.NeverFailsIffPositive | alar/vllm_plugin.py:328-329 | The `remaining > 0` assertion never fires, for any samples, if and only if K >= 1. |
| LatentPlugin.RolloutEmbeddings | alar/vllm_plugin.py:266-286 | For any samples the embeddings the decode steps consumed are the position-by-position ones of the same tokens and sentinel mask, and the captured values are those at the sentinels. |
| LatentPlugin.SelectCounts | alar/vllm_plugin.py:315-340 | Captured values equal forced sentinels in number. |
| LatentPlugin.RolloutIsUnroll | alar/vllm_plugin.py:253-286 | On a plain prompt the embeddings the rollout consumed are the training expansion of prompt plus output, up to the output's last token, which no step has consumed yet. |
| LatentRunner.Request.Advance | alar/vllm_plugin.py:310-340 | One request object after the forward: its fields change as the one-request function says, and it reports failure exactly when the assertion would fire. |
| LatentRunner.Request.Detect | alar/vllm_plugin.py:367-406 | The first pass on one request object: the next piece of a close literal, or the sample entering the detection window. |
| LatentRunner.Request.Force | alar/vllm_plugin.py:412-432 | The second pass on one request object: a sentinel, or after the last latent step the close literal. |
| LatentRunner.Runner.Preprocess | alar/vllm_plugin.py:250-288 | Each waiting embedding replaces the last input position of its own request and is consumed; every other position keeps its token's embedding. |
| LatentRunner.Runner.ExecuteModel | alar/vllm_plugin.py:291-343 | Over a batch the step succeeds exactly when no request's assertion fires, and then every request object changes as it would alone. |
| LatentRunner.Runner.UpdateAfter | alar/vllm_plugin.py:345-435 | Over a batch every request object and its output token change as they would alone. |
| LatentRunner.Runner.DecodeStep | alar/vllm_plugin.py:233-435 | The three patched methods in sequence are, for every request of any batch, the one-request step on its own state, context and sample. |
| LatentRunner.Runner.Generate | alar/vllm_plugin.py:233-435 | A batch decoded together finishes exactly when every request alone would, and gives every request the state and output it would have alone with its own samples. |
| LatentMask.ReconstructLatentMask | alar/modeling.py:99-127 | The vectorised rebuild marks exactly the K positions between an open and a close literal at the right distance, wherever they occur. |
| LatentMask.BuildResponseMask | search/rl/agent_loop.py:152-198 | Zero exactly at the latent positions of the blocks the left-to-right scan finds and at every other sentinel token. |
| LatentMask.ScanBlocks | tool/rl/agent_loop.py:119-129 | The while loop marks exactly what the scan that jumps over each found block covers. |
| LatentRows.OpenInBlocks | alar/modeling.py:121-125 | In complete blocks followed by anything, the open literal occurs only at the blocks' own open literals, if the sentinel is not in it and it cannot begin inside the close literal. |
| LatentRows.RowCovered | alar/modeling.py:110-127 | On a row that parses, the rebuilt mask marks exactly the latent positions of the complete blocks. |
| LatentRows.MaskAgreement | alar/modeling.py:99-127 | On a row that parses, the rebuilt mask is the true one if and only if the row is not cut after the first latent position of a block and before the end of its close literal. |
| LatentRows.ScanFindsAll | search/rl/agent_loop.py:176-187 | When matches lie a whole block apart, jumping over each loses none. |
| LatentRows.ResponseZeros | search/rl/agent_loop.py:171-198 | On a row that parses, the response mask's zeros are the sentinel tokens; they are the true latent positions, a cut block's included, exactly when no sentinel was sampled freely. |
| LatentRows.RowsStartUnmasked | alar/modeling.py:159-162 | A row that parses never begins with a latent position, so the expansion's own assertion does not fire on it. |
| LatentRows.RowTruncates | alar/sft_data/base.py:61-65 | Cutting a row anywhere leaves a row, cut inside a block's forced part exactly when the cut position is. |
| LatentRows.RowsJoin | search/rl/agent_loop.py:287-318 | Prompt and turn, or turn and retrieved text, make one row that parses when the first is not cut and no open literal begins in the text at the seam. |
| LatentRows.MaskMatters | alar/modeling.py:374-396 | Two masks of the same tokens give the same embeddings in every network if and only if they are equal. |
| LatentDataset.SearchItem | search/dataset.py:117-211 | The three lists are, cut at the maximal length: the prompt ignored, a separator learnt, per turn the reasoning and the search learnt and the retrieved text ignored, the last reasoning and the answer learnt, the end token ignored; sentinels ignored and alone latent. |
| LatentDataset.SearchTurnAt | search/dataset.py:174-184 | In every turn, right after the reasoning, each token of the search call is its own label, and each token of the retrieved text behind it is ignored. |
| LatentDataset.ThoughtAt | search/dataset.py:165-172 | The reasoning of a turn, with its labels, stands right before the turn's search call. |
| LatentDataset.ThoughtIs | search/dataset.py:139-151 | Verbal reasoning is learnt; of a latent block the literals and the separator are learnt, the sentinels ignored, and the sentinels alone are latent. |
| LatentDataset.SearchBegins | search/dataset.py:153-159 | The row begins with the ignored prompt and a learnt separator. |
| LatentDataset.SearchEnds | search/dataset.py:195-200 | The row ends with the learnt answer and the ignored end token. |
| LatentDataset.ToolItem | tool/dataset.py:98-213 | The three lists are, cut at the maximal length: the prompt ignored; per turn the assistant's opening ignored, reasoning, free text, calls and line breaks between them and the end of turn learnt, the tool's response ignored; and, if there is one, a final answer in the same way. |
| LatentDataset.PiecesParse | tool/dataset.py:117-127 | A row built piece by piece is blocks and free text with exactly its own latent flags. |
| LatentDataset.DatasetMask | alar/modeling.py:99-127 | On a truncated dataset row without open literals in its text, the rebuilt mask is the row's own if and only if the truncation did not fall inside a block's forced part; and the row does not begin with a latent position. |
| LatentDataset.LatentUnsupervised | search/dataset.py:133-145 | Latent positions hold the sentinel and are never supervised. |
| Collate.CollateFn | alar/sft_data/base.py:67-106 | Every row of the four matrices holds its sample and then padding to the longest, the attention mask telling which is which. |
| LatentForward.LatentModelForward | alar/modeling.py:307-407 | The mask is the caller's or the rebuilt one, and nothing when a literal is empty. A mask that marks nothing leaves the token embeddings; otherwise the forward fails exactly on a wrong mask length, a wrong cache length, or, without a cache, a marked first position, and gives cached values at the masked positions or the position-by-position embeddings; without mask and cache it never fails. |
| LatentCache.SelectPositions | search/rl/agent_loop.py:115-125 | When the sentinel tokens are the forced ones, the k-th captured value belongs to the k-th sentinel position, and every latent position has one. |
| LatentCache.PairsTurn | search/rl/agent_loop.py:277-285 | A turn without freely sampled sentinels adds to the pairs exactly the embeddings of its latent positions, at their positions in the whole response. |
| LatentCache.TurnRuns | alar/vllm_plugin.py:233-435 | A turn run on the server's context parses, captures the values of its mask, and leaves the server with the embedding sequence of everything so far. |
| LatentCache.Densify | tool/rl/agent_loop.py:209-219 | One value per response position: a value gathered for it or zero, and nothing at all when no pair survives the cut. |
| LatentAgent.TurnHolds | search/rl/agent_loop.py:252-290 | After a turn that goes on, the server's reused context is the embedding of the next prompt. |
| LatentAgent.RunAgent | search/rl/agent_loop.py:230-355 | The loop runs turn after turn until the first point where no turn is left, the response is long enough, no search is asked for or the retrieved text does not fit; every turn runs on the context of everything before it; response and response mask are exactly these turns and texts, cut to the maximal length; on clean runs the dense values are the rollout's embeddings at every latent position, and the mask is zero exactly at latent and observed positions. |
| LatentTraining.SelectUnpads | alar/rl/install_patches.py:661-668 | Selecting by the attention mask undoes left and right padding. |
| LatentTraining.PadLatent | alar/rl/install_patches.py:529-546 | The response's values, as many as the response is wide, sit at the response's place in the padded row, zeros elsewhere. |
| LatentTraining.StackLatent | alar/rl/install_patches.py:575-608 | Rows with values keep them; a row without gets zeros of the length of the first row with values, or of the batch if there is none. |
| LatentTraining.LatentReaches | alar/rl/install_patches.py:529-675 | Padding, stacking and unpadding together bring each response value to its own position in the unpadded row. |
| LatentTraining.CachedIsRecomputed | alar/modeling.py:374-396 | On a row that parses, the cached branch gives the same embeddings as recomputing under the rebuilt mask, also when the row is cut inside a block; the mask is the true one exactly when it is not. |
| LatentSeams.RowParses | search/rl/agent_loop.py:230-355 | Prompt, turns and retrieved texts, cut anywhere, make one row that parses under its true latent mask when no open literal stands in prompt or texts or across a seam and every turn that goes on ended outside a block. |
| LatentSeams.CutShows | alar/modeling.py:110-127 | A row that parses is cut inside a block's forced part exactly when some latent stretch of its mask begins too close to its end. |
| LatentTraining.RolloutThenTrain | search/rl/agent_loop.py:230-355 | End to end for one response: all its turns and texts, cut to the maximal length; after a clean rollout whose parts fit together, training with cached values and training without them use the same embeddings, under a rebuilt mask that is the rollout's own exactly when the row does not end inside a block. |
| LatentExact.CachedIffCutOff | alar/modeling.py:374-396 | Cached values give the recomputed embeddings in every network if and only if the rebuilt mask is the true one up to some position and empty after it. |
| Scoring.MatchesReflexive | tool/rollout/scoring.py:164-179 | Every value matches itself, for any coercion whose nesting is bounded by a rank. |
| Scoring.MatchesTransitive | tool/rollout/scoring.py:164-179 | Matching is transitive on all nested and string-encoded values. |
| Scoring.AddedKeysMatch | tool/rollout/scoring.py:164-179 | Adding keys on the model's side never breaks a match. |
| Scoring.MatchesMeans | tool/rollout/scoring.py:164-179 | A call matches exactly when at every path of keys of the expected one it has a dict for a dict and the same value for anything else, strings decoded on the way. |
| Scoring.MutualIsEqual | tool/rollout/scoring.py:125-179 | Two values match each other exactly when they are equal once their strings are decoded. |
| Scoring.ParsingKeepsMatches | tool/rollout/scoring.py:147-179 | A call matches a parsed expected call exactly when it matches the decoded one: parsing its arguments changes nothing unless they are encoded twice. |
| Scoring.UnparsedMatchesDicts | tool/rollout/scoring.py:147-161 | An expected call is matched by exactly the calls that are dicts if and only if it does not decode to a dict, or to one without keys. |
| Scoring.ScoreEpisode | tool/rollout/scoring.py:184-225 | Correct calls are counted position by position after dropping marks and padding; the reward is their fraction, the bonus when all match, the penalty when a mark is present; an episode without expected calls is scored by its own rule. |
| Scoring.CorrectMeans | tool/rollout/scoring.py:214-222 | What is counted are the expected calls matched by the call in the same place among the predictions that are no marks, or by the empty dict where there is none. |
| Scoring.MatchedPrefixCounts | tool/rollout/scoring.py:214-225 | Calls that match the first expected ones, followed by at most a mark, are what is counted. |
| Scoring.TopScore | tool/rollout/run_turn_sync.py:336-352 | The score never exceeds 1.5 and reaches it exactly when all calls are correct, no mark is present and the tokens are at most half the limit. |
| Scoring.ScoreIs | tool/rollout/run_turn_sync.py:336-352 | Every final score by counts: 1.5 with all calls right, less 0.2 for a mark and less the decay; else the share of right calls less the mark, -1 when nothing is left, the decay counting only above 0.99. |
| Scoring.KeptWhen | tool/rollout/run_turn_sync.py:351-357 | A record is positive or exactly -1: positive when all calls are right; with a mark when more than a fifth are; without one when some are, unless a long conversation outweighs a share above 0.99. |
| Scoring.ScoreGrows | tool/rollout/run_turn_sync.py:336-352 | At the same length within half the limit, more right calls score strictly more, unless both records are rejected. |
| Scoring.ScoreDecays | tool/rollout/run_turn_sync.py:347-350 | With all calls right the score falls by 2 / limit per token beyond half the limit, to 0.5, or 0.3 with a mark, at the limit. |
| Rollout.CourseShape | tool/rollout/run_turn_sync.py:184-208 | An item's predictions at any turn are those of an achieved prefix of turns, at most a mark for the next, nothing after; the turns achieved are exactly that prefix. |
| Rollout.CourseIs | tool/rollout/run_turn_sync.py:184-274 | Turn by turn: an item goes on exactly after a reply with the expected calls, or well-formed thinking where none are expected, within the token limit; its messages are the opening, the recorded tool responses and the replies in order; its predictions are the right calls, or a mark, of the turns taken. |
| Rollout.RecordMeans | tool/rollout/run_turn_sync.py:324-352 | With expected calls that all parse to non-empty dicts, the record counts the calls of the achieved prefix of turns, and scores 1.5 exactly when every turn that expects calls was reached and achieved within half the token limit. |
| Rollout.NoCallsExpected | tool/rollout/run_turn_sync.py:336-352 | An item that expects no call is kept exactly below the token limit, with 1 less the decay. |
| RolloutLoop.ItemState.AdvanceOne | tool/rollout/run_turn_sync.py:184-208 | One reply changes an item as its turn's expected calls demand. |
| RolloutLoop.ItemState.ScoreAndWriteOne | tool/rollout/run_turn_sync.py:324-373 | One record is appended; its score is the one its right calls, expected calls, mark and tokens give, -1 when rejected, and the counters follow its sign. |
| RolloutLoop.PostAndFinalize | tool/rollout/run_turn_sync.py:247-280 | One item's turn: it ends where it would alone, written exactly if it is done. |
| RolloutLoop.RunTurnLoop | tool/rollout/run_turn_sync.py:211-320 | Whatever order replies settle in within a turn, every item with turns ends up written once with the record it would get alone. |
| RolloutLoop.RunAll | tool/rollout/run_turn_sync.py:425-463 | Over the whole run every item is written exactly once, the counters agree with the lines, and every record of an item with turns is the one it would get alone. |
| PipelineShards.GetDynamicPipelineShards | verl/verl/model_merger/megatron_model_merger.py:57-98 | ValueError exactly for fewer layers than stages or no stage; with three or more stages the search succeeds exactly when ceil(L/p)(p - 2) + 2 <= L; a result has ceil(L/p) in every middle stage and ends that differ by at most one, the larger one last. |
| PipelineShards.AcceptedRange | verl/verl/model_merger/megatron_model_merger.py:83-88 | A middle size is accepted exactly between ceil(L/p) and what leaves two layers for the ends. |
| PipelineShards.SplitIsEven | verl/verl/model_merger/megatron_model_merger.py:83-91 | For a given middle size there is exactly one distribution of all layers with such ends. |
| PipelineShards.SomeStageLarge | verl/verl/model_merger/megatron_model_merger.py:65-66 | Any distribution of the layers has a stage of at least ceil(L/p). |
| PipelineShards.ResultOptimal | verl/verl/model_merger/megatron_model_merger.py:65-98 | A result has one positive entry per stage, sums to the layers, and its largest stage is no larger than the largest of any distribution. |
| PipelineShards.SearchMissesFiveOnFour | verl/verl/model_merger/megatron_model_merger.py:81-96 | Five layers on four stages can be distributed, but fail the search's condition. |
| CallSet.CheckCallSet | tool/evaluate_vllm.py:209-234 | Sets of different sizes never match; up to six calls the answer is yes exactly when a one-to-one assignment exists; above that, exactly when the calls fit in order or the greedy run completes, and then an assignment exists. |
| CallSet.PermutationsAll | tool/evaluate_vllm.py:231-233 | The permutations tried are exactly the rearrangements. |
| CallSet.GreedyUnique | tool/evaluate_vllm.py:221-230 | The greedy run is determined: two runs agree as far as the shorter goes. |
| CallSet.GreedyMisses | tool/evaluate_vllm.py:221-230 | Seven calls with a one-to-one assignment that the greedy run misses. |
| CallSet.GreedyCompleteWhenUniform | tool/evaluate_vllm.py:221-230 | When predictions that share an acceptable ground truth accept the same ones, a stuck greedy run means there is no assignment. |
| CallSet.OrderIgnoredIffUniform | tool/evaluate_vllm.py:209-234 | For calls with a one-to-one assignment, the answer above six calls is yes in every order of predictions and ground truths if and only if predictions that share an acceptable ground truth accept the same ones. |
| Qkv.SizesRight | verl/verl/model_merger/megatron_model_merger.py:330-343 | The chunk and split sizes computed from the row count are those of the groups. |
| Qkv.SplitTensors | verl/verl/model_merger/megatron_model_merger.py:327-354 | Unpacking a tensor that holds whole groups gives their query, key and value rows in order; heads that the groups do not divide are rejected. |
| Qkv.MergeAcrossTp | verl/scripts/legacy_model_merger.py:532-560 | Unpacking tensor-parallel partitions that hold whole groups gives all groups' query, key and value rows in order. |
| Qkv.PackHolds | verl/scripts/converter_hf_to_mcore.py:155-168 | The interleaved tensor (or bias) holds all groups, and their rows are the three weights. |
| Qkv.PackThenSplit | verl/scripts/converter_hf_to_mcore.py:155-160 | Packing and then unpacking returns the original query, key and value, for all head counts the groups divide. |
| Qkv.ShardsHold | verl/scripts/legacy_model_merger.py:540-541 | Equal shards of a packed tensor hold whole groups when their number divides the groups'. |
| Qkv.PackShardMerge | verl/scripts/legacy_model_merger.py:532-560 | Packing, sharding by any degree that divides the number of groups, and merging returns the original query, key and value. |
| Dispatch.PadToDivisor | verl/verl/protocol.py:74-99 | Fewer than the divisor rows are added, they repeat the batch cyclically, the total is divisible, and the loop ends. |
| Dispatch.Chunk | verl/verl/protocol.py:864-903 | Equal consecutive chunks of all columns, or the assertion's failure exactly when the size is not divisible. |
| Dispatch.Concat | verl/verl/protocol.py:917-934 | Concatenation puts the batches' rows one after the other, tensor and non-tensor columns aligned. |
| Dispatch.Unpad | verl/verl/protocol.py:102-106 | The padding rows are dropped and nothing else. |
| Dispatch.Dispatch | verl/verl/protocol.py:74-106 | Pad, chunk over any number of workers, apply a row-wise worker, concatenate, unpad: the worker's function on every row of the batch, in order. |
| Batcher.WideThenCut | search/scripts/retrieval/server.py:99-123 | On a prefix-stable index, a search at the batch's widest k cut to a request's own k is that request's solo search. |
| Batcher.UnstableNoticed | search/scripts/retrieval/server.py:176-178 | For indexes that always fill their rows, cutting wide searches equals solo searches for all queries if and only if the index is prefix-stable. |
| Batcher.GatherHits | search/scripts/retrieval/server.py:104-123 | No hit is negative; the hits are the row as a whole, or the entries before the first negative one. |
| Batcher.Drain | search/scripts/retrieval/server.py:158-172 | A batch is a non-empty prefix of the queue within the maximum, and ends only when it is full, the queue is empty or the deadline has passed. |
| Batcher.Complete | search/scripts/retrieval/server.py:174-188 | Every future of a batch still pending gets its own query's answer at its own top-k, or the batch's exception; a future that is done is left alone. |
| Batcher.Run | search/scripts/retrieval/server.py:158-188 | The batches are the queue cut into pieces, each as long as maximum, queue and deadline allow, none lost, and every pending future is resolved exactly once, with its own query's answer at its own top-k unless the search of its own batch failed. |

## Left out

- NIXL, Mooncake, NCCL: the transports themselves. Messages are reliable and first-in first-out, copies are atomic, and a read notification arrives only after its read.
- MooncakeTheorems.CopiesAreBuckets: the condition is exact for overwriting, not for the copies, which may come out right by chance when a half is refilled with equal bytes (`MooncakeExact.WrongCopy` says when they do not).
- MooncakeTheorems.NoDeadlock: halves shorter than the four polled bytes would block it; bucket sizes are whole megabytes, so only a size of zero is left out.
- Tensors, dtypes, shapes, devices and synchronisation: weights are byte strings, a slot carries its size in place of a shape and dtype.
- HCCL: the same protocol as NCCL, synchronous.
- Kimi.ReceiveTensor: the bucket generator and the offset assignment of the parameter-server library are not part of this model; buckets come as a list with slots inside their bytes, and a broadcast delivers as many bytes as its bucket has.
- Network values: embeddings, hidden states and the projector are abstract; the training and the plugin projector are one function, without nan clean-up or rounding to a storage type.
- LatentPlugin.RolloutIsUnroll: scheduling, prefill and prefix caching are not modelled; key/value state of earlier turns is reused as the plugin's comment states, and a step decodes one token per request.
- LatentTraining.CachedIsRecomputed: one row at a time; several rows packed into one sequence without a cache would be expanded as one sequence, which is not modelled.
- LatentAgent.RunAgent: log-probabilities, tokenizer decoding, the regular expressions that decide whether a turn asks for a search, and the files the values travel through; their outcomes are inputs.
- LatentDataset.SearchItem: tokenization, the coin flips and the trace files are inputs.
- Scoring.MatchesReflexive: numbers are reals, so a NaN, which does not equal itself, is not modelled; dict keys are strings.
- Scoring.ScoreEpisode: rewards are real numbers, not floating point.
- Validation of assistant replies (regular expressions, JSON repair): a reply comes with the validators' results.
- RolloutLoop.RunTurnLoop: exceptions inside scoring and writing, resuming from an existing output file, and the record of an item without turns beyond its being written once.
- Batcher.Run: top-k values are natural numbers; a negative top-k, which Python's slicing would accept, is not modelled. The embedding model and the index are one function.
- CallSet.CheckCallSet: whether a single call is acceptable is a given relation; completeness of the greedy branch for a given order is proved only for uniform relations.
- Dispatch.Dispatch: meta information, auto-padding and in-place operations on batches.
- Qkv.SplitTensors: the gate/up split, norms and the rest of the checkpoint conversion.
- Worker patching, adapter saving, projector synchronisation, model loading, command lines, HTTP clients, download scripts and the viewer.
