/** `stepwise_MCEE`: forward steps, each followed (from the second round on,
    when the step did not stop the search) by an attempt to swap one earlier
    accepted channel for a new candidate. */
module Stepwise {
  import opened Outcomes
  import opened TieBreak
  import opened Channels
  import opened Scoring
  import opened SearchState

  /** At the start of round `j`, `j - 1` channels are accepted, and at least
      `j - 1` deltas are recorded (a committed swap records a second one); the
      first round starts with none. */
  ghost predicate StepwiseSized<L>(s: Search<L>)
  {
    && s.round >= 1 && |s.accepted| == s.round - 1 && |s.trace| >= s.round - 1
    && (s.round == 1 ==> |s.trace| == 0)
  }

  /** `temp_2_compare_snr` in round 2: an array of `nTrials` zeros (it is sized by
      the trial axis of `temp_1_data`, not by the number of candidates) whose first
      `|w|` slots receive the score of the kept channel with candidate `k` added. */
  function PaddedAdditions<L>(score: Oracle<L>, msnr: real, nTrials: nat,
                              keptW: seq<L>, keptData: seq<L>, w: seq<L>, signalData: seq<L>): (r: seq<real>)
    requires |w| == |signalData| <= nTrials
    ensures |r| == nTrials
  {
    seq(nTrials, k requires 0 <= k < nTrials =>
      if k < |w| then score(keptW + [w[k]], keptData + [signalData[k]]) - msnr else 0.0)
  }

  /** `temp_4_compare_snr` for swap-out position `l`: the core rows without row
      `l`, with each candidate added in turn. */
  function SwapAdditions<L>(score: Oracle<L>, msnr: real, coreW: seq<L>, coreData: seq<L>,
                            w: seq<L>, signalData: seq<L>, l: nat): (r: seq<real>)
    requires l < |coreW| && l < |coreData| && |w| == |signalData|
    ensures |r| == |w|
  {
    Additions(score, msnr, RemoveAt(coreW, l), RemoveAt(coreData, l), w, signalData)
  }

  /** `temp_3_chan_index`: for each accepted position but the newest, the
      candidate the tie-break picks as its replacement. */
  function SwapPicks<L>(score: Oracle<L>, msnr: real, coreW: seq<L>, coreData: seq<L>,
                        w: seq<L>, signalData: seq<L>): (picks: seq<nat>)
    requires |coreW| == |coreData| >= 1 && |w| == |signalData| > 0
    ensures |picks| == |coreW| - 1
    ensures forall l :: 0 <= l < |picks| ==> picks[l] < |w|
  {
    seq(|coreW| - 1, l requires 0 <= l < |coreW| - 1 =>
      LastMaxIndex(SwapAdditions(score, msnr, coreW, coreData, w, signalData, l)))
  }

  /** `temp_3_compare_snr`: for each accepted position but the newest, the best
      delta of swapping it out. */
  function SwapDeltas<L>(score: Oracle<L>, msnr: real, coreW: seq<L>, coreData: seq<L>,
                         w: seq<L>, signalData: seq<L>): (r: seq<real>)
    requires |coreW| == |coreData| >= 1 && |w| == |signalData| > 0
    ensures |r| == |coreW| - 1
  {
    seq(|coreW| - 1, l requires 0 <= l < |coreW| - 1 =>
      SeqMax(SwapAdditions(score, msnr, coreW, coreData, w, signalData, l)))
  }

  /** The swap attempt of round 2 (`j == 2`), after the forward step accepted a
      second channel: replace the first accepted channel by the best candidate if
      that beats the newest delta. Written as the code stands, padding included. */
  function PairSwap<L>(score: Oracle<L>, msnr: real, nTrials: nat,
                       pool: seq<L>, accepted: seq<L>, trace: seq<real>): (r: Step<L>)
    requires |accepted| == 2 && |trace| > 0
    ensures r.Continue? ==> r.next.round == 3 && |r.next.accepted| == 2 && |r.next.pool| <= |pool|
                            && |r.next.trace| >= |trace|
    ensures !r.Stop?
  {
    if |pool| > nTrials then Crash(IndexOutOfRange)     // temp_2_compare_snr[k] for k >= n_trials
    else if nTrials == 0 then Crash(EmptyReduction)     // np.max of a zero-size array
    else
      var kept := RemoveAt(accepted, 0);
      var padded := PaddedAdditions(score, msnr, nTrials, kept, kept, pool, pool);
      var t := LastMaxIndex(padded);
      if padded[t] > trace[|trace| - 1] then
        if t >= |pool| then Crash(IndexOutOfRange)      // chans.pop on a padded slot
        else Continue(Search(RemoveAt(pool, t), RemoveAt(accepted + [pool[t]], 0), trace + [padded[t]], 3))
      else Continue(Search(pool, accepted, trace, 3))
  }

  /** The swap attempt of a round `j > 2`, after the forward step accepted its
      channel: for every accepted position but the newest find the best
      replacement; commit the best of those if it beats every delta so far. */
  function GeneralSwap<L>(score: Oracle<L>, msnr: real, pool: seq<L>, accepted: seq<L>,
                          trace: seq<real>, round: nat): (r: Step<L>)
    requires |accepted| == round >= 3 && |trace| > 0
    ensures r.Continue? ==> r.next.round == round + 1 && |r.next.accepted| == round && |r.next.pool| <= |pool|
                            && |r.next.trace| >= |trace|
    ensures !r.Stop?
  {
    if |pool| == 0 then Crash(EmptyReduction)           // np.max of an empty temp_4_compare_snr
    else
      var deltas := SwapDeltas(score, msnr, accepted, accepted, pool, pool);
      if SeqMax(deltas) > SeqMax(trace) then
        var d := LastMaxIndex(deltas);
        var a := SwapPicks(score, msnr, accepted, accepted, pool, pool)[d];
        Continue(Search(RemoveAt(pool, a), RemoveAt(accepted, d) + [pool[a]], trace + [deltas[d]], round + 1))
      else Continue(Search(pool, accepted, trace, round + 1))
  }

  /** The swap attempt that follows a forward step that did not stop the search:
      the two-channel form in round 2, the general form after. */
  function SwapAttempt<L>(score: Oracle<L>, msnr: real, nTrials: nat, t: Search<L>): (r: Step<L>)
    requires t.round >= 2 && |t.accepted| == t.round && |t.trace| >= t.round
    ensures r.Continue? ==> StepwiseSized(r.next) && r.next.round == t.round + 1 && |r.next.pool| <= |t.pool|
    ensures !r.Stop?
  {
    if t.round == 2 then PairSwap(score, msnr, nTrials, t.pool, t.accepted, t.trace)
    else GeneralSwap(score, msnr, t.pool, t.accepted, t.trace, t.round)
  }

  /** One round of the `while active` loop, through line 514 of the code: the
      forward step, the stop check (from round 2 on), then the swap attempt. */
  function StepwiseRound<L>(score: Oracle<L>, msnr: real, nTrials: nat, s: Search<L>): (r: Step<L>)
    requires StepwiseSized(s)
    ensures r.Continue? ==> StepwiseSized(r.next) && |r.next.pool| < |s.pool|
    ensures r.Stop? ==> |r.last.accepted| == s.round
  {
    if |s.pool| == 0 then Crash(EmptyReduction)
    else
      var t := AddBest(score, msnr, s);
      if s.round == 1 then Continue(Search(t.pool, t.accepted, t.trace, 2))
      else if t.trace[|t.trace| - 1] < SeqMax(t.trace) then Stop(t)
      else SwapAttempt(score, msnr, nTrials, t)
  }

  /** The rest of the run from state `s`: the accepted channels without the
      newest one at the round that stops, or the exception. */
  function StepwiseRun<L>(score: Oracle<L>, msnr: real, nTrials: nat, s: Search<L>): (r: Result<seq<L>>)
    requires StepwiseSized(s)
    decreases |s.pool|
  {
    match StepwiseRound(score, msnr, nTrials, s)
    case Crash(e) => Failure(e)
    case Stop(last) => Success(last.accepted[..|last.accepted| - 1])
    case Continue(next) => StepwiseRun(score, msnr, nTrials, next)
  }

  /** A committed swap, seen from the state `f` the forward step of the round
      reached: accepted position `d`, never the newest one, is deleted and the
      rest keep their order; one channel taken from the pool is appended; and the
      delta recorded for it beats every delta so far. */
  ghost predicate SwapsOut<L>(f: Search<L>, t: Search<L>, d: nat)
  {
    && d < |f.accepted| - 1
    && |t.accepted| == |f.accepted|
    && t.accepted[..|f.accepted| - 1] == RemoveAt(f.accepted, d)
    && |t.pool| == |f.pool| - 1
    && multiset(t.pool) + multiset{t.accepted[|f.accepted| - 1]} == multiset(f.pool)
    && |f.trace| > 0
    && |t.trace| == |f.trace| + 1 && t.trace[..|f.trace|] == f.trace
    && t.trace[|f.trace|] > SeqMax(f.trace)
  }

  /** A swap discards the channel it deletes: the pool and the accepted list
      together lose exactly one copy of it and keep every other channel; the
      trace stays non-decreasing. */
  lemma SwapAccounting<L>(f: Search<L>, t: Search<L>, d: nat)
    requires SwapsOut(f, t, d)
    ensures multiset(t.pool) + multiset(t.accepted) + multiset{f.accepted[d]} == multiset(f.pool) + multiset(f.accepted)
    ensures NonDecreasing(f.trace) ==> NonDecreasing(t.trace)
  {
    var n := |f.accepted|;
    var x := t.accepted[n - 1];
    assert t.accepted == RemoveAt(f.accepted, d) + [x];
    RemoveAtSpec(f.accepted, d);
    assert t.trace == f.trace + [t.trace[|f.trace|]];
    if NonDecreasing(f.trace) {
      NonDecreasingAppend(f.trace, t.trace[|f.trace|]);
    }
  }

  /** The round-2 swap attempt on a state that passed the stop check: it either
      keeps the state or swaps out the first accepted channel. Where the
      padding of `temp_2_compare_snr` is harmless (every candidate has a slot,
      and either no slot is padding or the best candidate scores above zero),
      it swaps exactly when the best unpadded score beats the newest delta. */
  lemma PairSwapShape<L>(score: Oracle<L>, msnr: real, nTrials: nat, f: Search<L>)
    requires |f.accepted| == 2 && |f.trace| > 0 && f.trace[|f.trace| - 1] >= SeqMax(f.trace)
    ensures var r := PairSwap(score, msnr, nTrials, f.pool, f.accepted, f.trace);
      && (r.Crash? ==> r.error == IndexOutOfRange || (nTrials == 0 && |f.pool| == 0))
      && (r.Continue? ==> r.next == Search(f.pool, f.accepted, f.trace, 3) || SwapsOut(f, r.next, 0))
    ensures var r := PairSwap(score, msnr, nTrials, f.pool, f.accepted, f.trace);
      var kept := RemoveAt(f.accepted, 0);
      0 < |f.pool| <= nTrials ==>
        var best := SeqMax(Additions(score, msnr, kept, kept, f.pool, f.pool));
        (|f.pool| == nTrials || best > 0.0) ==>
          && r.Continue?
          && (best > f.trace[|f.trace| - 1] ==> SwapsOut(f, r.next, 0))
          && (best <= f.trace[|f.trace| - 1] ==> r.next == Search(f.pool, f.accepted, f.trace, 3))
  {
    PairSwapPadding(score, msnr, nTrials, f.pool, f.accepted, f.trace);
    var r := PairSwap(score, msnr, nTrials, f.pool, f.accepted, f.trace);
    if r.Continue? && r.next != Search(f.pool, f.accepted, f.trace, 3) {
      var kept := RemoveAt(f.accepted, 0);
      var padded := PaddedAdditions(score, msnr, nTrials, kept, kept, f.pool, f.pool);
      var t := LastMaxIndex(padded);
      var x := f.pool[t];
      assert r.next == Search(RemoveAt(f.pool, t), RemoveAt(f.accepted + [x], 0), f.trace + [padded[t]], 3);
      assert r.next.accepted == [f.accepted[1], x];
      RemoveAtSpec(f.pool, t);
      assert (f.trace + [padded[t]])[..|f.trace|] == f.trace;
    }
  }

  /** The swap attempt of a round `j > 2`: it raises exactly when no candidate
      is left; it swaps exactly when the best swap delta beats every delta so far,
      and then deletes the position the tie-break picks among the swap deltas. */
  lemma GeneralSwapShape<L>(score: Oracle<L>, msnr: real, f: Search<L>, round: nat)
    requires |f.accepted| == round >= 3 && |f.trace| > 0
    ensures var r := GeneralSwap(score, msnr, f.pool, f.accepted, f.trace, round);
      && (r.Crash? <==> |f.pool| == 0)
      && (r.Crash? ==> r.error == EmptyReduction)
      && (r.Continue? ==>
            var deltas := SwapDeltas(score, msnr, f.accepted, f.accepted, f.pool, f.pool);
            && r.next.round == round + 1
            && (SeqMax(deltas) > SeqMax(f.trace) ==> SwapsOut(f, r.next, LastMaxIndex(deltas)))
            && (SeqMax(deltas) <= SeqMax(f.trace) ==> r.next == Search(f.pool, f.accepted, f.trace, round + 1)))
  {
    if |f.pool| > 0 {
      var deltas := SwapDeltas(score, msnr, f.accepted, f.accepted, f.pool, f.pool);
      if SeqMax(deltas) > SeqMax(f.trace) {
        var d := LastMaxIndex(deltas);
        LastMaxIndexIsLastMax(deltas);
        var a := SwapPicks(score, msnr, f.accepted, f.accepted, f.pool, f.pool)[d];
        var t := Search(RemoveAt(f.pool, a), RemoveAt(f.accepted, d) + [f.pool[a]], f.trace + [deltas[d]], round + 1);
        assert GeneralSwap(score, msnr, f.pool, f.accepted, f.trace, round) == Continue(t);
        assert t.accepted[..|f.accepted| - 1] == RemoveAt(f.accepted, d);
        RemoveAtSpec(f.pool, a);
        assert t.trace[..|f.trace|] == f.trace;
      }
    }
  }

  /** What one stepwise round promises about its control flow. It raises
      `np.max` of an empty array when no candidate is left; it never stops in
      the first round, and from the second round on it stops exactly when the
      forward delta is below the largest delta so far, returning the accepted
      channels of that round. A round that continues adds the forward pick and
      then either keeps that state or commits one swap. */
  lemma StepwiseRoundShape<L>(score: Oracle<L>, msnr: real, nTrials: nat, s: Search<L>)
    requires StepwiseSized(s)
    ensures var r := StepwiseRound(score, msnr, nTrials, s);
      && (|s.pool| == 0 ==> r == Crash(EmptyReduction))
      && (s.round == 1 && |s.pool| > 0 ==> r.Continue?)
      && (r.Stop? ==>
            && s.round >= 2
            && r.last.accepted[..|r.last.accepted| - 1] == s.accepted
            && multiset(r.last.pool) + multiset(r.last.accepted) == multiset(s.pool) + multiset(s.accepted))
      && (|s.pool| > 0 && s.round >= 2 ==>
            (r.Stop? <==> SeqMax(Additions(score, msnr, s.accepted, s.accepted, s.pool, s.pool)) < SeqMax(s.trace)))
      && (r.Continue? ==>
            var f := AddBest(score, msnr, s);
            && r.next.round == s.round + 1
            && (r.next == Search(f.pool, f.accepted, f.trace, s.round + 1)
                || exists d :: SwapsOut(f, r.next, d)))
  {
    var r := StepwiseRound(score, msnr, nTrials, s);
    if |s.pool| > 0 {
      var f := AddBest(score, msnr, s);
      AddBestSpec(score, msnr, s);
      var x := f.trace[|s.trace|];
      assert x == SeqMax(Additions(score, msnr, s.accepted, s.accepted, s.pool, s.pool));
      assert f.trace == s.trace + [x];
      assert f.accepted[..|f.accepted| - 1] == s.accepted;
      if s.round == 1 {
        assert r == Continue(Search(f.pool, f.accepted, f.trace, 2));
      } else {
        SeqMaxAppend(s.trace, x);
        if x < SeqMax(s.trace) {
          assert r == Stop(f);
        } else {
          assert r == SwapAttempt(score, msnr, nTrials, f);
          if s.round == 2 {
            PairSwapShape(score, msnr, nTrials, f);
          } else {
            GeneralSwapShape(score, msnr, f, s.round);
          }
        }
      }
    }
  }

  /** What a stepwise round that continues does with the channels and the
      trace: after round `j` exactly `j` channels are accepted; no channel is
      created, only moved from the pool to the accepted list or discarded by a
      swap; and the trace stays non-decreasing. */
  lemma StepwiseRoundAccounting<L>(score: Oracle<L>, msnr: real, nTrials: nat, s: Search<L>)
    requires StepwiseSized(s)
    ensures var r := StepwiseRound(score, msnr, nTrials, s);
      r.Continue? ==>
        && |r.next.accepted| == s.round
        && |r.next.pool| + |r.next.accepted| <= |s.pool| + |s.accepted|
        && multiset(r.next.pool) + multiset(r.next.accepted) <= multiset(s.pool) + multiset(s.accepted)
        && (NonDecreasing(s.trace) ==> NonDecreasing(r.next.trace))
  {
    StepwiseRoundShape(score, msnr, nTrials, s);
    var r := StepwiseRound(score, msnr, nTrials, s);
    if r.Continue? {
      var f := AddBest(score, msnr, s);
      AddBestSpec(score, msnr, s);
      var x := f.trace[|s.trace|];
      assert f.trace == s.trace + [x];
      assert x == SeqMax(Additions(score, msnr, s.accepted, s.accepted, s.pool, s.pool));
      if NonDecreasing(s.trace) {
        if s.round >= 2 {
          SeqMaxAppend(s.trace, x);
        }
        NonDecreasingAppend(s.trace, x);
      }
      ContinueAccounting(s, f, r.next, s.round + 1);
    }
  }

  /** The intended third stage: from round 3 on, a round whose forward step
      leaves a candidate and does not stop goes on to the next round, whether or
      not its swap attempt finds an improvement. */
  lemma StepwiseRoundPastTwo<L>(score: Oracle<L>, msnr: real, nTrials: nat, s: Search<L>)
    requires StepwiseSized(s) && s.round >= 3 && |s.pool| >= 2
    requires SeqMax(Additions(score, msnr, s.accepted, s.accepted, s.pool, s.pool)) >= SeqMax(s.trace)
    ensures StepwiseRound(score, msnr, nTrials, s).Continue?
  {
    StepwiseRoundShape(score, msnr, nTrials, s);
    var f := AddBest(score, msnr, s);
    GeneralSwapShape(score, msnr, f, s.round);
  }

  /** The accounting of a continuing round, from the state `f` its forward
      step reached to the state `t` it hands on. */
  lemma ContinueAccounting<L>(s: Search<L>, f: Search<L>, t: Search<L>, round: nat)
    requires |f.pool| + |f.accepted| == |s.pool| + |s.accepted|
    requires multiset(f.pool) + multiset(f.accepted) == multiset(s.pool) + multiset(s.accepted)
    requires t == Search(f.pool, f.accepted, f.trace, round) || exists d :: SwapsOut(f, t, d)
    ensures |t.accepted| == |f.accepted|
    ensures |t.pool| + |t.accepted| <= |s.pool| + |s.accepted|
    ensures multiset(t.pool) + multiset(t.accepted) <= multiset(s.pool) + multiset(s.accepted)
    ensures NonDecreasing(f.trace) ==> NonDecreasing(t.trace)
  {
    if t != Search(f.pool, f.accepted, f.trace, round) {
      var d :| SwapsOut(f, t, d);
      SwapAccounting(f, t, d);
    }
  }

  /** What a stepwise run that stops delivers, from any reachable state: at
      least one channel and at least as many as are accepted now, fewer than the
      pool and the accepted list hold together, all drawn from them. */
  lemma {:induction false} StepwiseRunChannels<L>(score: Oracle<L>, msnr: real, nTrials: nat, s: Search<L>)
    requires StepwiseSized(s)
    ensures var r := StepwiseRun(score, msnr, nTrials, s);
      r.Success? ==>
        && 1 <= |r.value| && |s.accepted| <= |r.value| < |s.pool| + |s.accepted|
        && multiset(r.value) <= multiset(s.pool) + multiset(s.accepted)
    decreases |s.pool|
  {
    var step := StepwiseRound(score, msnr, nTrials, s);
    if step.Stop? {
      StepwiseStopChannels(score, msnr, nTrials, s);
      assert StepwiseRun(score, msnr, nTrials, s) == Success(step.last.accepted[..|step.last.accepted| - 1]);
    } else if step.Continue? {
      var next := step.next;
      StepwiseRoundAccounting(score, msnr, nTrials, s);
      StepwiseRunChannels(score, msnr, nTrials, next);
      assert StepwiseRun(score, msnr, nTrials, s) == StepwiseRun(score, msnr, nTrials, next);
    }
  }

  /** The round that stops returns the channels accepted before it. */
  lemma StepwiseStopChannels<L>(score: Oracle<L>, msnr: real, nTrials: nat, s: Search<L>)
    requires StepwiseSized(s)
    ensures var step := StepwiseRound(score, msnr, nTrials, s);
      step.Stop? ==>
        && step.last.accepted[..|step.last.accepted| - 1] == s.accepted
        && 1 <= |s.accepted| < |s.pool| + |s.accepted|
  {
    StepwiseRoundShape(score, msnr, nTrials, s);
  }

  /** From the start state: with fewer than two channels the run raises the
      empty `np.max`; a run that stops returns at least one and fewer than all of
      the input channels, drawn from them, without duplicates when the input has
      none. */
  lemma StepwiseResult<L>(score: Oracle<L>, msnr: real, nTrials: nat, chans: seq<L>)
    ensures var r := StepwiseRun(score, msnr, nTrials, Search(chans, [], [], 1));
      && (|chans| <= 1 ==> r == Failure(EmptyReduction))
      && (r.Success? ==>
            && 1 <= |r.value| < |chans|
            && multiset(r.value) <= multiset(chans)
            && (NoDup(chans) ==> NoDup(r.value) && forall x :: x in r.value ==> x in chans))
  {
    var s := Search(chans, [], [], 1);
    StepwiseRunChannels(score, msnr, nTrials, s);
    var r := StepwiseRun(score, msnr, nTrials, s);
    if |chans| <= 1 {
      StepwiseRoundShape(score, msnr, nTrials, s);
      if |chans| == 1 {
        var next := StepwiseRound(score, msnr, nTrials, s).next;
        StepwiseRoundAccounting(score, msnr, nTrials, s);
        StepwiseRoundShape(score, msnr, nTrials, next);
        assert r == StepwiseRun(score, msnr, nTrials, next);
      }
    }
    if r.Success? {
      assert multiset(chans) + multiset(s.accepted) == multiset(chans);
      if NoDup(chans) {
        SubListKeepsNoDup(r.value, chans);
      }
    }
  }

  /** The round-2 swap array is padded with zeros up to the trial count. With
      more candidates than trials the fill runs past its end. A padded slot can
      win the tie-break: the last padded slot holds 0.0, so when no candidate
      scores above zero and the forward delta is negative, the swap is attempted
      on a padded index and `chans.pop` raises. When every candidate has a slot
      and either there are exactly as many candidates as trials or some
      candidate scores above zero, the padding is harmless: the pick is the one
      an array sized by the candidates would give. */
  lemma PairSwapPadding<L>(score: Oracle<L>, msnr: real, nTrials: nat,
                           pool: seq<L>, accepted: seq<L>, trace: seq<real>)
    requires |accepted| == 2 && |trace| > 0
    ensures |pool| > nTrials ==> PairSwap(score, msnr, nTrials, pool, accepted, trace) == Crash(IndexOutOfRange)
    ensures var kept := RemoveAt(accepted, 0);
      (&& |pool| < nTrials && trace[|trace| - 1] < 0.0
       && (|pool| > 0 ==> SeqMax(Additions(score, msnr, kept, kept, pool, pool)) <= 0.0))
      ==> PairSwap(score, msnr, nTrials, pool, accepted, trace) == Crash(IndexOutOfRange)
    ensures var kept := RemoveAt(accepted, 0);
      (0 < |pool| <= nTrials && (|pool| == nTrials || SeqMax(Additions(score, msnr, kept, kept, pool, pool)) > 0.0))
      ==> var padded := PaddedAdditions(score, msnr, nTrials, kept, kept, pool, pool);
          var compare := Additions(score, msnr, kept, kept, pool, pool);
          && LastMaxIndex(padded) == LastMaxIndex(compare)
          && padded[LastMaxIndex(padded)] == SeqMax(compare)
  {
    var kept := RemoveAt(accepted, 0);
    if |pool| <= nTrials && nTrials > 0 {
      var padded := PaddedAdditions(score, msnr, nTrials, kept, kept, pool, pool);
      var t := LastMaxIndex(padded);
      LastMaxIndexIsLastMax(padded);
      assert padded[nTrials - 1] <= padded[t];
      if |pool| > 0 {
        var compare := Additions(score, msnr, kept, kept, pool, pool);
        assert forall i :: 0 <= i < |pool| ==> padded[i] == compare[i];
        SeqMaxIsMaximum(compare);
        if |pool| == nTrials {
          // no padded slot: the array is the unpadded one
          assert padded == compare;
          LastMaxIndexIsLastMax(compare);
        } else if SeqMax(compare) > 0.0 {
          var i :| 0 <= i < |compare| && compare[i] == SeqMax(compare);
          assert padded[i] > 0.0;
          assert t < |pool|;
          assert IsLastMax(compare, t);
          LastMaxIndexIsLastMax(compare);
          LastMaxIsUnique(compare, t, LastMaxIndex(compare));
        }
      }
    }
  }

  /** The round-2 loop over `k`: `temp_2_compare_snr` starts as `nTrials` zeros
      and slot `k` receives the score of the kept channel with candidate `k`
      stacked after it; a `k` past the trial count raises. */
  method EvaluatePairSwaps<L>(score: Oracle<L>, msnr: real, nTrials: nat, keptW: seq<L>, keptData: seq<L>,
                              w: seq<L>, signalData: seq<L>)
    returns (result: Result<seq<real>>)
    requires |w| == |signalData|
    ensures |w| > nTrials ==> result == Failure(IndexOutOfRange)
    ensures |w| <= nTrials ==> result == Success(PaddedAdditions(score, msnr, nTrials, keptW, keptData, w, signalData))
  {
    var c := new real[nTrials](_ => 0.0);
    for k := 0 to |w|
      invariant k <= nTrials
      invariant forall i :: 0 <= i < k ==> c[i] == score(keptW + [w[i]], keptData + [signalData[i]]) - msnr
      invariant forall i :: k <= i < nTrials ==> c[i] == 0.0
    {
      var tempW := keptW + [w[k]];
      var tempData := keptData + [signalData[k]];
      var delta := score(tempW, tempData) - msnr;
      if k >= nTrials {
        return Failure(IndexOutOfRange);
      }
      c[k] := delta;
    }
    ghost var padded := PaddedAdditions(score, msnr, nTrials, keptW, keptData, w, signalData);
    assert forall i :: 0 <= i < nTrials ==> c[..][i] == padded[i];
    assert c[..] == padded;
    result := Success(c[..]);
  }

  /** The loop over `l` in a round `j > 2`: for every accepted position but the
      newest, delete that core row, try every candidate in its place, and keep
      the best delta (`temp_3_compare_snr`) and the candidate the tie-break
      picks for it (`temp_3_chan_index`). */
  method EvaluateSwaps<L>(score: Oracle<L>, msnr: real, remain: seq<L>, coreW: seq<L>, coreData: seq<L>,
                          w: seq<L>, signalData: seq<L>)
    returns (deltas: seq<real>, picks: seq<nat>)
    requires |remain| == |coreW| == |coreData| >= 1 && |w| == |signalData| > 0
    ensures deltas == SwapDeltas(score, msnr, coreW, coreData, w, signalData)
    ensures picks == SwapPicks(score, msnr, coreW, coreData, w, signalData)
  {
    ghost var best := SwapDeltas(score, msnr, coreW, coreData, w, signalData);
    ghost var chosen := SwapPicks(score, msnr, coreW, coreData, w, signalData);
    var d := new real[|remain| - 1](_ => 0.0);
    picks := [];
    for l := 0 to |remain| - 1
      invariant |picks| == l
      invariant forall i :: 0 <= i < l ==> d[i] == best[i]
      invariant picks == chosen[..l]
    {
      var tempW := RemoveAt(coreW, l);
      var tempData := RemoveAt(coreData, l);
      var c := EvaluateAdditions(score, msnr, tempW, tempData, w, signalData);
      var index := LastMaxIndex(c);
      LastMaxIndexIsLastMax(c);
      assert c == SwapAdditions(score, msnr, coreW, coreData, w, signalData, l);
      assert chosen[l] == index && best[l] == c[index];
      assert chosen[..l + 1] == chosen[..l] + [index];
      picks := picks + [index];
      d[l] := c[index];
    }
    assert picks == chosen;
    deltas := d[..];
  }

  /** The swap attempt of round 2, on the state after the forward step (the
      `else` branch from line 358 on, after the forward pick's columns are
      deleted): delete the first core row, try every candidate after the kept
      one, and commit the best if it beats the newest delta. */
  method TrySwapFirst<L>(score: Oracle<L>, msnr: real, nTrials: nat, pool: seq<L>, remain: seq<L>,
                         snrChange: seq<real>, bg: seq<L>, sig: seq<L>, coreW: seq<L>, coreData: seq<L>)
    returns (step: Step<L>, bg': seq<L>, sig': seq<L>, coreW': seq<L>, coreData': seq<L>)
    requires bg == pool && sig == pool && coreW == remain && coreData == remain
    requires |remain| == 2 && |snrChange| > 0
    ensures step == PairSwap(score, msnr, nTrials, pool, remain, snrChange)
    ensures step.Continue? ==> bg' == step.next.pool && sig' == step.next.pool
                               && coreW' == step.next.accepted && coreData' == step.next.accepted
  {
    bg', sig', coreW', coreData' := bg, sig, coreW, coreData;
    var keptW := RemoveAt(coreW, 0);
    var keptData := RemoveAt(coreData, 0);
    var padded := EvaluatePairSwaps(score, msnr, nTrials, keptW, keptData, bg, sig);
    if padded.Failure? {
      return Crash(padded.error), bg', sig', coreW', coreData';
    }
    var swapCompare := padded.value;
    // np.max of a zero-size array
    if |swapCompare| == 0 {
      return Crash(EmptyReduction), bg', sig', coreW', coreData';
    }
    var swapIndex := LastMaxIndex(swapCompare);
    if swapCompare[swapIndex] > snrChange[|snrChange| - 1] {
      // chans.pop on a padded slot
      if swapIndex >= |pool| {
        return Crash(IndexOutOfRange), bg', sig', coreW', coreData';
      }
      var remain' := remain + [pool[swapIndex]];
      var pool' := RemoveAt(pool, swapIndex);
      var snrChange' := snrChange + [swapCompare[swapIndex]];
      coreW' := RemoveAt(coreW, 0) + [bg[swapIndex]];
      coreData' := RemoveAt(coreData, 0) + [sig[swapIndex]];
      sig' := RemoveAt(sig, swapIndex);
      bg' := RemoveAt(bg, swapIndex);
      remain' := RemoveAt(remain', 0);
      assert coreW' == remain';
      step := Continue(Search(pool', remain', snrChange', 3));
    } else {
      step := Continue(Search(pool, remain, snrChange, 3));
    }
  }

  /** The swap attempt of a round `j > 2`, on the state after the forward step
      (the `else` branch from line 448 on, after the forward pick's columns are
      deleted): find the best replacement for every accepted position but the
      newest, and commit the best of those if it beats every delta so far. */
  method TrySwapAny<L>(score: Oracle<L>, msnr: real, round: nat, pool: seq<L>, remain: seq<L>,
                       snrChange: seq<real>, bg: seq<L>, sig: seq<L>, coreW: seq<L>, coreData: seq<L>)
    returns (step: Step<L>, bg': seq<L>, sig': seq<L>, coreW': seq<L>, coreData': seq<L>)
    requires bg == pool && sig == pool && coreW == remain && coreData == remain
    requires |remain| == round >= 3 && |snrChange| > 0
    ensures step == GeneralSwap(score, msnr, pool, remain, snrChange, round)
    ensures step.Continue? ==> bg' == step.next.pool && sig' == step.next.pool
                               && coreW' == step.next.accepted && coreData' == step.next.accepted
  {
    bg', sig', coreW', coreData' := bg, sig, coreW, coreData;
    // np.max of an empty temp_4_compare_snr
    if |pool| == 0 {
      return Crash(EmptyReduction), bg', sig', coreW', coreData';
    }
    var swapDeltas, swapPicks := EvaluateSwaps(score, msnr, remain, coreW, coreData, bg, sig);
    if SeqMax(swapDeltas) > SeqMax(snrChange) {
      var deleteIndex := LastMaxIndex(swapDeltas);
      var addIndex := swapPicks[deleteIndex];
      var remain' := RemoveAt(remain, deleteIndex) + [pool[addIndex]];
      var snrChange' := snrChange + [swapDeltas[deleteIndex]];
      coreW' := RemoveAt(coreW, deleteIndex) + [bg[addIndex]];
      coreData' := RemoveAt(coreData, deleteIndex) + [sig[addIndex]];
      sig' := RemoveAt(sig, addIndex);
      bg' := RemoveAt(bg, addIndex);
      var pool' := RemoveAt(pool, addIndex);
      step := Continue(Search(pool', remain', snrChange', round + 1));
    } else {
      step := Continue(Search(pool, remain, snrChange, round + 1));
    }
  }

  /** A run is its first round followed by the run from the state that round
      hands on. */
  lemma StepwiseRunUnfold<L>(score: Oracle<L>, msnr: real, nTrials: nat, s: Search<L>)
    requires StepwiseSized(s)
    ensures var step := StepwiseRound(score, msnr, nTrials, s);
      && (step.Crash? ==> StepwiseRun(score, msnr, nTrials, s) == Failure(step.error))
      && (step.Stop? ==> |step.last.accepted| >= 1 && |step.last.pool| < |s.pool|
                         && StepwiseRun(score, msnr, nTrials, s) == Success(step.last.accepted[..|step.last.accepted| - 1]))
      && (step.Continue? ==> StepwiseSized(step.next) && |step.next.pool| < |s.pool| && step.next.round == s.round + 1
                             && StepwiseRun(score, msnr, nTrials, s) == StepwiseRun(score, msnr, nTrials, step.next))
  {
    StepwiseRoundShape(score, msnr, nTrials, s);
  }

  /** One pass of the `while active` loop of `stepwise_MCEE` (mcee.py lines 295-531),
      from the state at the top of round `j`: the forward step, the stop check
      from round 2 on, and the swap attempt. */
  method StepwisePass<L>(score: Oracle<L>, msnr: real, nTrials: nat, j: nat, pool: seq<L>, remain: seq<L>,
                         snrChange: seq<real>, bg: seq<L>, sig: seq<L>, coreW: seq<L>, coreData: seq<L>)
    returns (step: Step<L>, bg': seq<L>, sig': seq<L>, coreW': seq<L>, coreData': seq<L>)
    requires bg == pool && sig == pool && coreW == remain && coreData == remain
    requires StepwiseSized(Search(pool, remain, snrChange, j))
    ensures var s := Search(pool, remain, snrChange, j);
      && (step.Crash? ==> StepwiseRun(score, msnr, nTrials, s) == Failure(step.error))
      && (step.Stop? ==> |step.last.accepted| >= 1 && |step.last.pool| < |s.pool|
                         && StepwiseRun(score, msnr, nTrials, s) == Success(step.last.accepted[..|step.last.accepted| - 1]))
      && (step.Continue? ==> StepwiseSized(step.next) && |step.next.pool| < |s.pool| && step.next.round == j + 1
                             && StepwiseRun(score, msnr, nTrials, s) == StepwiseRun(score, msnr, nTrials, step.next))
    ensures step.Continue? ==> bg' == step.next.pool && sig' == step.next.pool
                               && coreW' == step.next.accepted && coreData' == step.next.accepted
  {
    ghost var s := Search(pool, remain, snrChange, j);
    StepwiseRunUnfold(score, msnr, nTrials, s);
    bg', sig', coreW', coreData' := bg, sig, coreW, coreData;
    // np.max of an empty compare_snr
    if |pool| == 0 {
      return Crash(EmptyReduction), bg', sig', coreW', coreData';
    }
    // the forward step; in round 1 the core is empty
    var compare := EvaluateAdditions(score, msnr, coreW, coreData, bg, sig);
    var chanIndex := LastMaxIndex(compare);
    var remain' := remain + [pool[chanIndex]];
    var pool' := RemoveAt(pool, chanIndex);
    var snrChange' := snrChange + [SeqMax(compare)];
    ghost var f := Search(pool', remain', snrChange', j);
    assert f == AddBest(score, msnr, s);
    if j == 1 {
      coreW' := [bg[chanIndex]];
      coreData' := [sig[chanIndex]];
      sig' := RemoveAt(sig, chanIndex);
      bg' := RemoveAt(bg, chanIndex);
      step := Continue(Search(pool', remain', snrChange', 2));
    } else {
      // both branches stack the forward pick's columns onto the core first
      coreW' := coreW + [bg[chanIndex]];
      coreData' := coreData + [sig[chanIndex]];
      if snrChange'[|snrChange'| - 1] < SeqMax(snrChange') {
        step := Stop(Search(pool', remain', snrChange', j));
      } else {
        sig' := RemoveAt(sig, chanIndex);
        bg' := RemoveAt(bg, chanIndex);
        assert StepwiseRound(score, msnr, nTrials, s) == SwapAttempt(score, msnr, nTrials, f);
        if j == 2 {
          step, bg', sig', coreW', coreData' := TrySwapFirst(score, msnr, nTrials, pool', remain', snrChange',
                                                             bg', sig', coreW', coreData');
        } else {
          step, bg', sig', coreW', coreData' := TrySwapAny(score, msnr, j, pool', remain', snrChange',
                                                           bg', sig', coreW', coreData');
        }
      }
    }
  }

  /** The `while active` loop of `stepwise_MCEE` (mcee.py lines 295-531) from the state
      at the top of round `j0`: it runs passes until one stops or crashes. The
      column stacks `bg` (`w`) and `sig` (`signal_data`) start out holding the
      candidates' columns, the core stacks the rows of the accepted channels. */
  method StepwiseLoop<L>(score: Oracle<L>, msnr: real, nTrials: nat, chans: seq<L>, w: seq<L>,
                         signalData: seq<L>, remainChans: seq<L>, snrChange0: seq<real>, j0: nat)
    returns (result: Result<seq<L>>)
    requires w == chans && signalData == chans
    requires StepwiseSized(Search(chans, remainChans, snrChange0, j0))
    ensures result == StepwiseRun(score, msnr, nTrials, Search(chans, remainChans, snrChange0, j0))
  {
    ghost var cur := Search(chans, remainChans, snrChange0, j0);
    ghost var answer := StepwiseRun(score, msnr, nTrials, cur);
    var pool, bg, sig := chans, w, signalData;
    var j := j0;
    var maxLoop := |pool|;
    var remain: seq<L> := remainChans;
    var snrChange: seq<real> := snrChange0;
    var coreData: seq<L> := remainChans;
    var coreW: seq<L> := remainChans;
    var active := true;
    // `len(chans) <= max_loop` always holds: the pool only shrinks.
    while active && |pool| <= maxLoop
      invariant |pool| <= maxLoop
      invariant active ==> cur == Search(pool, remain, snrChange, j)
      invariant active ==> bg == pool && sig == pool && coreW == remain && coreData == remain
      invariant active ==> StepwiseSized(cur) && StepwiseRun(score, msnr, nTrials, cur) == answer
      invariant !active ==> |remain| >= 1 && answer == Success(remain[..|remain| - 1])
      decreases |pool| + (if active then 1 else 0)
    {
      var step;
      step, bg, sig, coreW, coreData := StepwisePass(score, msnr, nTrials, j, pool, remain, snrChange,
                                                     bg, sig, coreW, coreData);
      match step
      case Crash(e) =>
        return Failure(e);
      case Stop(last) =>
        assert answer == Success(last.accepted[..|last.accepted| - 1]);
        pool, remain := last.pool, last.accepted;
        active := false;
      case Continue(next) =>
        assert StepwiseSized(next) && StepwiseRun(score, msnr, nTrials, next) == answer;
        pool, remain, snrChange, j := next.pool, next.accepted, next.trace, next.round;
        cur := next;
    }
    result := Success(remain[..|remain| - 1]);
  }

  /** `stepwise_MCEE(chans, msnr, w, w_target, signal_data, data_target)`, with
      `nTrials` the trial count of the arrays; the targets are inside `score`.
      The search starts in round 1 with nothing accepted and no deltas. */
  method StepwiseMCEE<L>(chans: seq<L>, msnr: real, w: seq<L>, signalData: seq<L>, nTrials: nat,
                         score: Oracle<L>)
    returns (result: Result<seq<L>>)
    requires w == chans && signalData == chans
    ensures result == StepwiseRun(score, msnr, nTrials, Search(chans, [], [], 1))
    ensures |chans| <= 1 ==> result == Failure(EmptyReduction)
    ensures result.Success? ==> 1 <= |result.value| < |chans| && multiset(result.value) <= multiset(chans)
  {
    result := StepwiseLoop(score, msnr, nTrials, chans, w, signalData, [], [], 1);
    StepwiseResult(score, msnr, nTrials, chans);
  }
}
