# MCEE channel search, modelled in Dafny

`mcee.py` picks the EEG channels for multi-channel estimation extraction (MCEE)
by one of three greedy searches: `backward_MCEE`, `forward_MCEE` and
`stepwise_MCEE`. Every round scores each candidate move, then applies the
move with the largest score, recording its delta. A move deletes a channel,
adds one, or (in stepwise) swaps one. A candidate's score is the mean SNR of the
regression residual minus the reference SNR `msnr`. Ties go to the largest
index (`np.max(np.where(a == np.max(a)))`).

This project models those three searches on channel labels:

- A search is an imperative method with the source's `while` loop. It keeps
  the column stacks (`w`, `signal_data`, `core_w`, `core_data`) beside the label
  lists.
- Each loop is proved equal to a recursive function over a selection state:
  candidate pool, accepted channels, delta trace and round counter.
- Lemmas about those functions state what the searches promise.

The numeric arrays are represented by the labels of the channels whose columns
they hold. The regression `mlr` and the scorer `snr_time` become one abstract
`Oracle`: a function from a background-window stack and a signal-window stack
to a mean SNR.

Modules, one per file:

- `Outcomes`: the exceptions the code can raise, and a result type.
- `TieBreak`: `np.max`, the last-index-of-max rule, and non-decreasing traces.
- `Channels`: `pop`/`del`/`np.delete`, `[-2:]`, and duplicate-freedom.
- `Scoring`: the oracle and the inner scoring loops.
- `SearchState`: the selection state and the forward step shared by forward and stepwise.
- `Backward`, `Forward`, `Stepwise`: the three searches.
- `StepwiseAsWritten`: the stepwise round exactly as written, including the exception described under Findings.

Where the code and its documented intent disagree, the model follows the
code:

- On an empty input, `backward_MCEE` returns an empty list. It does not fail.
- With fewer than two channels, `forward_MCEE` and `stepwise_MCEE` raise the
  `ValueError` of `np.max` over an empty array. They raise no dedicated
  invalid-input error.
- Duplicate-free output holds only when the input has no duplicate labels.
- Round 2 of `stepwise_MCEE` scores its swap candidates into an array sized by
  the trial count, not by the number of candidates (mcee.py:371). The model
  keeps this padding. `Stepwise.PairSwapPadding` states when it is harmless and
  when it raises.
- The one deviation from the code is the stepwise round from 3 on (see Findings).

## Model

| member | source | states |
|---|---|---|
| TieBreak.SeqMax | mcee.py:135 | `np.max(a)` of a non-empty array: the larger of its last entry and the maximum of the entries before it (`SeqMaxIsMaximum` states that this is the maximum) |
| TieBreak.LastMaxIndex | mcee.py:133 | `np.max(np.where(a == np.max(a)))`: the index of the last entry at least as large as every earlier one; its contract states the index is in range (`LastMaxIndexIsLastMax` states the tie-break) |
| TieBreak.SeqMaxIsMaximum | mcee.py:133-135 | `np.max` of a non-empty array is an element of it that no element exceeds |
| TieBreak.LastMaxIndexIsLastMax | mcee.py:133 | the tie-break index holds the maximum, every later index holds strictly less, and no later index holds the maximum |
| TieBreak.LastMaxIsUnique | mcee.py:214 | at most one index is the last index of the maximum, so the pick is determined by the scores alone |
| TieBreak.TieGoesToHigherIndex | mcee.py:321 | of two indices that both hold the maximum, the tie-break never picks the lower one |
| TieBreak.SeqMaxAppend | mcee.py:240 | appending a delta to the trace raises `np.max(snr_change)` to it or leaves it unchanged |
| TieBreak.NonDecreasingMax | mcee.py:240 | the maximum of a non-decreasing trace is its newest delta |
| TieBreak.NonDecreasingAppend | mcee.py:216 | a delta no smaller than the maximum keeps the trace non-decreasing |
| Channels.RemoveAt | mcee.py:134 | `pop(i)` / `np.delete(.., i)` shortens the list by one |
| Channels.RemoveAtSpec | mcee.py:134-138 | removal keeps the entries before `i` in place, shifts the later ones down by one, and takes out exactly one copy of the removed element |
| Channels.LastTwo | mcee.py:149 | `delete_chans[-2:]` has `min(n, 2)` entries and is a suffix of the list |
| Channels.NoDupIffSingletons | mcee.py:149 | a list has no duplicates exactly when every label occurs at most once in its multiset |
| Channels.SubListKeepsNoDup | mcee.py:149 | a sub-multiset of a duplicate-free list is duplicate-free and a subset of it |
| Scoring.Removals | mcee.py:117-131 | `compare_snr` in a backward round: one score per channel, entry `i` being the oracle on both stacks with column `i` deleted, minus `msnr` |
| Scoring.Additions | mcee.py:191-212 | `compare_snr` in a forward step: one score per candidate, entry `i` being the oracle on the core rows with candidate column `i` stacked after them, minus `msnr` |
| Scoring.EvaluateRemovals | mcee.py:117-131 | the filled `compare_snr` equals the removal scores, entry by entry |
| Scoring.EvaluateAdditions | mcee.py:191-212 | the filled `compare_snr` equals the addition scores of the core rows plus each candidate |
| SearchState.AddBest | mcee.py:214-216 | the forward step moves one channel from the pool to the end of the accepted list and appends one delta |
| SearchState.AddBestSpec | mcee.py:214-216 | the forward step keeps the accepted list and the trace as prefixes, and the pool and accepted list together keep the same channels |
| Backward.Eliminate | mcee.py:113-147 | the rounds of the `while active` loop: while more than one channel is left, delete the tie-break's channel of the removal scores, append it to `delete_chans` and append `np.max(compare_snr)` to `snr_change` |
| Backward.BackwardResult | mcee.py:149-150 | the return value: the channel left after elimination followed by the last two deleted channels, and the delta trace |
| Backward.EliminateShape | mcee.py:113-147 | each round deletes one channel and records one delta until one channel is left; `n` channels take `n - 1` rounds; remaining plus deleted channels are the input |
| Backward.BackwardResultShape | mcee.py:113-150 | the result has `n - 1` deltas and `min(n, 3)` channels, all from the input; it is duplicate-free and a subset when the input is |
| Backward.BackwardMCEE | mcee.py:84-150 | the loop returns exactly the recursive elimination's model channels and trace, with their lengths and sub-multiset property |
| Forward.ForwardRun | mcee.py:189-254 | the `while active` loop and its return: repeat rounds until one stops, then return `remain_chans` without its newest entry and `snr_change`; a crashing round is the run's error |
| Forward.ForwardRound | mcee.py:189-251 | a continuing round moves one channel from the pool, and a stopping round has accepted `j` channels |
| Forward.ForwardRoundChannels | mcee.py:189-251 | a round raises exactly when the pool is empty; otherwise it moves one candidate to the end of the accepted list; it never stops in round 1 |
| Forward.ForwardRoundTrace | mcee.py:214-251 | a round appends one delta; it stops (from round 2) exactly when the new delta is below the largest earlier one, and a continuing round keeps the trace non-decreasing |
| Forward.ForwardRunChannels | mcee.py:189-254 | a stopping run returns one channel fewer than its trace has deltas; its channels extend the ones accepted so far and come from the pool and accepted list |
| Forward.ForwardRunTrace | mcee.py:189-254 | the returned trace extends the trace so far; it is non-decreasing up to its newest delta, and that delta is below the maximum before it |
| Forward.ForwardResult | mcee.py:154-254 | from the start the run raises only the empty `np.max`, always raises with fewer than two channels, and otherwise returns `len(snr_change) - 1 >= 1` channels from the input, duplicate-free when the input is |
| Forward.ForwardFailsWithEmptyReduction | mcee.py:214 | the only exception a forward run raises is the empty `np.max` |
| Forward.ForwardRunUnfold | mcee.py:189-252 | the run from a state is its first round followed by the run from the state that round hands on |
| Forward.ForwardPass | mcee.py:190-251 | one pass of the loop body agrees with the recursive run, and it keeps the column stacks aligned with the pool and the core stacks aligned with the accepted list |
| Forward.ForwardLoop | mcee.py:189-254 | the `while active` loop returns exactly the recursive run from its starting state |
| Forward.ForwardMCEE | mcee.py:154-254 | `forward_MCEE` returns the recursive run from the empty start and raises only the empty `np.max`; it always raises with at most one channel; on success it returns `len(snr_change) - 1 >= 1` channels drawn from the input |
| Stepwise.PaddedAdditions | mcee.py:371-384 | `temp_2_compare_snr`: `nTrials` slots, the first `len(chans)` holding the score of the kept channel plus candidate `k` minus `msnr`, the rest left at zero; its contract states the `nTrials` length |
| Stepwise.SwapAdditions | mcee.py:458-480 | `temp_4_compare_snr` for swap-out position `l`: one score per candidate, on the core rows without row `l` plus that candidate |
| Stepwise.SwapDeltas | mcee.py:455-484 | `temp_3_compare_snr`: one best swap delta per accepted position except the newest, the maximum of that position's `temp_4_compare_snr` |
| Stepwise.SwapPicks | mcee.py:482-483 | there is one replacement pick per accepted position except the newest, and each pick indexes a candidate |
| Stepwise.PairSwap | mcee.py:358-424 | the round-2 swap attempt never stops the search; it hands on round 3 with two accepted channels, a pool no larger and a trace no shorter |
| Stepwise.GeneralSwap | mcee.py:448-514 | the swap attempt of a round `j > 2` never stops the search; it hands on round `j + 1` with `j` accepted channels |
| Stepwise.SwapAttempt | mcee.py:337-514 | the swap attempt chosen by the round number never stops the search and leaves a well-sized state for the next round |
| Stepwise.StepwiseRound | mcee.py:296-531 | a continuing round shrinks the pool and leaves a well-sized state; a stopping round has accepted `j` channels |
| Stepwise.SwapAccounting | mcee.py:486-514 | a committed swap discards the deleted channel and keeps every other channel; the trace stays non-decreasing |
| Stepwise.PairSwapShape | mcee.py:358-424 | after the stop check, the round-2 attempt either keeps the state or swaps out the first accepted channel for one pool channel appended at the end, with a delta above every earlier one; when every candidate has a slot in `temp_2_compare_snr` and either there is no padded slot or the best candidate scores above zero, it swaps exactly when that best score beats `snr_change[-1]` |
| Stepwise.GeneralSwapShape | mcee.py:448-514 | it raises exactly when no candidate is left; it swaps exactly when the best swap delta beats `np.max(snr_change)`, deleting the tie-break's position (never the newest) and appending the replacement |
| Stepwise.StepwiseRoundShape | mcee.py:296-514 | an empty pool raises; round 1 always continues; a round stops exactly when the forward delta is below the best so far, returning the channels accepted before it; a continuing round is either the plain addition or a swap |
| Stepwise.StepwiseRoundAccounting | mcee.py:296-531 | after a continuing round `j` exactly `j` channels are accepted, no channel is created, and the trace stays non-decreasing |
| Stepwise.StepwiseRoundPastTwo | mcee.py:427-514 | from round 3 on, a round whose forward step leaves a candidate and does not stop goes on to the next round |
| Stepwise.StepwiseRunChannels | mcee.py:295-534 | a stopping run returns at least one channel, at least as many channels as are accepted now, fewer than pool and accepted together, all drawn from them |
| Stepwise.StepwiseResult | mcee.py:258-534 | from the start, fewer than two channels raise the empty `np.max`; a success returns between one channel and fewer than all, from the input, duplicate-free when the input is |
| Stepwise.PairSwapPadding | mcee.py:371-391 | with more candidates than trials the fill raises; a padded zero slot wins and `chans.pop` raises when no candidate scores above zero and the newest delta is negative; when every candidate has a slot and either there is no padded slot or some candidate scores above zero, the padded pick equals the unpadded one |
| Stepwise.EvaluatePairSwaps | mcee.py:371-384 | the round-2 fill yields the zero-padded swap scores, or raises when a candidate index reaches the trial count |
| Stepwise.EvaluateSwaps | mcee.py:457-484 | the loop over `l` yields the best swap delta and the tie-break's replacement for every accepted position but the newest |
| Stepwise.TrySwapFirst | mcee.py:358-424 | the in-place round-2 swap attempt equals the recursive one and keeps the stacks aligned |
| Stepwise.TrySwapAny | mcee.py:448-514 | the in-place general swap attempt equals the recursive one and keeps the stacks aligned |
| Stepwise.StepwiseRunUnfold | mcee.py:295-531 | the run from a state is its first round followed by the run from the state that round hands on |
| Stepwise.StepwiseRun | mcee.py:295-534 | the `while active` loop and its return: repeat rounds until one stops, then return `remain_chans` without its newest entry; a crashing round is the run's error |
| Stepwise.StepwisePass | mcee.py:296-531 | one pass of the loop body agrees with the recursive run and keeps the column and core stacks aligned |
| Stepwise.StepwiseLoop | mcee.py:295-534 | the `while active` loop returns exactly the recursive run from its starting state |
| Stepwise.StepwiseMCEE | mcee.py:258-534 | `stepwise_MCEE` returns the recursive run from the empty start; with at most one channel it raises the empty `np.max`; on success it returns between one channel and fewer than all, drawn from the input |
| StepwiseAsWritten.StepwiseRoundAsWritten | mcee.py:427-531 | as written, a round from 3 on that gets through its swap attempt raises; only rounds 1 and 2 continue |
| StepwiseAsWritten.StepwiseRunAsWritten | mcee.py:295-534 | the stepwise loop and its return with every round as written, so the UndefinedName error at mcee.py:516/524 ends the run |
| StepwiseAsWritten.AsWrittenSwapRoundRaises | mcee.py:516-524 | as written, every round from 3 on whose forward step leaves a candidate and does not stop raises UndefinedName |
| StepwiseAsWritten.AsWrittenFromRoundThree | mcee.py:427-534 | as written, a run from round 3 on that succeeds returns exactly the channels accepted before that round |
| StepwiseAsWritten.AsWrittenKeepsAtMostTwo | mcee.py:258-534 | as written, `stepwise_MCEE` never returns more than two channels |

## Left out

- `mlr` and `snr_time` (mcee.py:28-80) are one abstract `Oracle` per search call. The oracle is total: it never raises. The real `mlr` can raise on some array shapes (mcee.py:45, 60), for example if a search hands it its axes in an order it does not expect. The model's exception-free results, such as `Backward.BackwardMCEE` never failing, hold only under that assumption. The least-squares fit, the SNR formula, floating point and NaN are not modelled. `w_target` and `data_target` belong to the oracle.
- The arrays are modelled by the channel labels whose columns they hold. Shapes, trial and time axes, `copy.deepcopy` and the `np.zeros` stacking buffers are not modelled. The trial count enters only as `nTrials`, because it sizes the round-2 swap array.
- `print`, `time.clock` and the `del` statements that only free memory are left out, because on the Python versions the code targets (before 3.8) they do not affect the result. Python 3.8 removed `time.clock`, so on a later interpreter every search raises AttributeError at `start = time.clock()` (mcee.py:104, 175, 281) before any channel is scored; the model does not capture that. The `del` at mcee.py:516 and 524 is the exception: it is modelled in `StepwiseAsWritten`.
- `pop` and `del` also change the caller's `chans` list in place. The model treats `chans` as a value, so that aliasing is not captured.
- `mtemp_snr` and the other per-candidate temporaries are not modelled; only the deltas they feed are.
- `temp_3_chan_index` is stored as strings and converted back with `int(..)`. The model keeps the indices as numbers, since the round trip is the identity on them.
- Stepwise.StepwiseRound: from round 3 on, it models the round as evidently intended, up to mcee.py:514. The code as written raises there instead (see Findings). The raising version is `StepwiseAsWritten.StepwiseRoundAsWritten`.
- `corr_detect_mcee.py` is not part of this model: it is a caller of the searches.

## Findings

| source | as written | input that shows it | evidently intended | confidence | as-written member | corrected member |
|---|---|---|---|---|---|---|
| mcee.py:516, mcee.py:524 | both branches of the round `j > 2` swap attempt run `del temp_3_chans, temp_3_data, temp_3_w, ...`, but `temp_3_data` and `temp_3_w` are never assigned in the function, so Python raises UnboundLocalError | any input whose round 2 swap attempt does not raise and whose round 3 forward step leaves a candidate and does not stop, e.g. four channels, with exactly two trials or with positive deltas, and a score that grows with the number of channels stacked (with three or more trials and no positive delta, round 2 raises IndexError at mcee.py:391 first) | free only the temporaries that exist and go on to round 4, so the search can keep more than two channels | high; not executed | StepwiseAsWritten.AsWrittenKeepsAtMostTwo | Stepwise.StepwiseRoundPastTwo |
