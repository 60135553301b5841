/** The third stage of `stepwise_MCEE` exactly as the code is written. After
    every swap attempt from round 3 on, with or without an improvement, the code
    frees `temp_3_data` and `temp_3_w` (mcee.py lines 516 and 524), names the
    function never binds, so Python raises before the round can end. The model in
    `Stepwise` runs the round as evidently intended instead; this module keeps the
    raising version beside it and proves what it costs. */
module StepwiseAsWritten {
  import opened Outcomes
  import opened TieBreak
  import opened Scoring
  import opened SearchState
  import opened Stepwise

  /** One round as written: the intended round, except that a round 3 or later
      that gets through its swap attempt raises on the `del`. */
  function StepwiseRoundAsWritten<L>(score: Oracle<L>, msnr: real, nTrials: nat, s: Search<L>): (r: Step<L>)
    requires StepwiseSized(s)
    ensures r.Continue? ==> StepwiseSized(r.next) && |r.next.pool| < |s.pool| && s.round <= 2
    ensures r.Stop? ==> |r.last.accepted| == s.round
  {
    var r := StepwiseRound(score, msnr, nTrials, s);
    if s.round >= 3 && r.Continue? then Crash(UndefinedName) else r
  }

  /** The run from `s` with the as-written rounds. */
  function StepwiseRunAsWritten<L>(score: Oracle<L>, msnr: real, nTrials: nat, s: Search<L>): (r: Result<seq<L>>)
    requires StepwiseSized(s)
    decreases |s.pool|
  {
    match StepwiseRoundAsWritten(score, msnr, nTrials, s)
    case Crash(e) => Failure(e)
    case Stop(last) => Success(last.accepted[..|last.accepted| - 1])
    case Continue(next) => StepwiseRunAsWritten(score, msnr, nTrials, next)
  }

  /** As written, every round from 3 on whose forward step leaves a candidate
      and does not stop raises UndefinedName. */
  lemma AsWrittenSwapRoundRaises<L>(score: Oracle<L>, msnr: real, nTrials: nat, s: Search<L>)
    requires StepwiseSized(s) && s.round >= 3 && |s.pool| >= 2
    requires SeqMax(Additions(score, msnr, s.accepted, s.accepted, s.pool, s.pool)) >= SeqMax(s.trace)
    ensures StepwiseRoundAsWritten(score, msnr, nTrials, s) == Crash(UndefinedName)
  {
    StepwiseRoundPastTwo(score, msnr, nTrials, s);
  }

  /** From round 3 on the as-written search can only stop or raise, so a stop
      returns the channels accepted before that round. */
  lemma {:induction false} AsWrittenFromRoundThree<L>(score: Oracle<L>, msnr: real, nTrials: nat, s: Search<L>)
    requires StepwiseSized(s) && s.round >= 3
    ensures var r := StepwiseRunAsWritten(score, msnr, nTrials, s);
      r.Success? ==> |r.value| == s.round - 1
  {
    var step := StepwiseRoundAsWritten(score, msnr, nTrials, s);
    assert !step.Continue?;
  }

  /** As written, `stepwise_MCEE` never returns more than two channels: a search
      that keeps improving past two accepted channels raises instead. */
  lemma AsWrittenKeepsAtMostTwo<L>(score: Oracle<L>, msnr: real, nTrials: nat, chans: seq<L>)
    ensures var r := StepwiseRunAsWritten(score, msnr, nTrials, Search(chans, [], [], 1));
      r.Success? ==> |r.value| <= 2
  {
    var s1 := Search(chans, [], [], 1);
    var step1 := StepwiseRoundAsWritten(score, msnr, nTrials, s1);
    if step1.Continue? {
      var s2 := step1.next;
      assert s2.round == 2 by {
        StepwiseRoundShape(score, msnr, nTrials, s1);
      }
      var step2 := StepwiseRoundAsWritten(score, msnr, nTrials, s2);
      if step2.Continue? {
        StepwiseRoundShape(score, msnr, nTrials, s2);
        AsWrittenFromRoundThree(score, msnr, nTrials, step2.next);
      }
    }
  }
}
