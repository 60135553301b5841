/** `forward_MCEE`: start from no channels, and in each round accept the
    candidate whose addition scores best; stop at the first round (from the
    second on) whose delta falls below the best delta so far. */
module Forward {
  import opened Outcomes
  import opened TieBreak
  import opened Channels
  import opened Scoring
  import opened SearchState

  /** At the start of round `j`, `j - 1` channels have been accepted and `j - 1`
      deltas recorded. */
  ghost predicate ForwardSized<L>(s: Search<L>)
  {
    s.round >= 1 && |s.accepted| == s.round - 1 && |s.trace| == s.round - 1
  }

  /** One round of the `while active` loop. */
  function ForwardRound<L>(score: Oracle<L>, msnr: real, s: Search<L>): (r: Step<L>)
    requires ForwardSized(s)
    ensures r.Continue? ==> ForwardSized(r.next) && |r.next.pool| < |s.pool|
    ensures r.Stop? ==> |r.last.accepted| == s.round
  {
    if |s.pool| == 0 then Crash(EmptyReduction)
    else
      var t := AddBest(score, msnr, s);
      if s.round == 1 then Continue(Search(t.pool, t.accepted, t.trace, 2))
      else if t.trace[s.round - 1] < SeqMax(t.trace) then Stop(t)
      else Continue(Search(t.pool, t.accepted, t.trace, s.round + 1))
  }

  /** The rest of the run from state `s`: the accepted channels without the last
      one, and the whole trace, at the round that stops; or the exception. */
  function ForwardRun<L>(score: Oracle<L>, msnr: real, s: Search<L>): (r: Result<(seq<L>, seq<real>)>)
    requires ForwardSized(s)
    decreases |s.pool|
  {
    match ForwardRound(score, msnr, s)
    case Crash(e) => Failure(e)
    case Stop(last) => Success((last.accepted[..|last.accepted| - 1], last.trace))
    case Continue(next) => ForwardRun(score, msnr, next)
  }

  /** What one round does with the channels. It raises (`np.max` of an empty
      `compare_snr`) exactly when no candidate is left; otherwise it moves one
      candidate from the pool to the end of the accepted list, and it never stops
      in the first round. */
  lemma ForwardRoundChannels<L>(score: Oracle<L>, msnr: real, s: Search<L>)
    requires ForwardSized(s)
    ensures var r := ForwardRound(score, msnr, s);
      && (r.Crash? <==> |s.pool| == 0)
      && (r.Crash? ==> r.error == EmptyReduction)
      && (r.Continue? ==>
            && r.next.round == s.round + 1
            && |r.next.pool| == |s.pool| - 1
            && r.next.accepted[..|s.accepted|] == s.accepted
            && multiset(r.next.pool) + multiset(r.next.accepted) == multiset(s.pool) + multiset(s.accepted))
      && (r.Stop? ==>
            && s.round >= 2
            && r.last.accepted[..|r.last.accepted| - 1] == s.accepted)
  {
    if |s.pool| > 0 {
      var t := AddBest(score, msnr, s);
      AddBestSpec(score, msnr, s);
      assert t.accepted[..|t.accepted| - 1] == s.accepted;
    }
  }

  /** What one round does with the trace: it appends one delta and keeps the
      trace non-decreasing when it continues; from the second round on it stops
      exactly when the new delta is below the largest earlier one. */
  lemma ForwardRoundTrace<L>(score: Oracle<L>, msnr: real, s: Search<L>)
    requires ForwardSized(s)
    ensures var r := ForwardRound(score, msnr, s);
      && (r.Continue? ==>
            && |r.next.trace| == |s.trace| + 1
            && r.next.trace[..|s.trace|] == s.trace
            && (NonDecreasing(s.trace) ==> NonDecreasing(r.next.trace)))
      && (r.Stop? ==>
            && |r.last.trace| == |s.trace| + 1
            && r.last.trace[..|s.trace|] == s.trace
            && r.last.trace[|s.trace|] < SeqMax(s.trace))
      && (|s.pool| > 0 && s.round >= 2 ==>
            (r.Stop? <==> SeqMax(Additions(score, msnr, s.accepted, s.accepted, s.pool, s.pool)) < SeqMax(s.trace)))
  {
    if |s.pool| > 0 {
      var t := AddBest(score, msnr, s);
      AddBestSpec(score, msnr, s);
      var d := t.trace[|s.trace|];
      assert t.trace == s.trace + [d];
      if s.round >= 2 {
        SeqMaxAppend(s.trace, d);
        if d >= SeqMax(s.trace) && NonDecreasing(s.trace) {
          NonDecreasingAppend(s.trace, d);
        }
      } else {
        NonDecreasingAppend(s.trace, d);
      }
    }
  }

  /** The trace of a run that stopped: it is non-decreasing up to its newest
      delta, and that delta is below the largest one before it. */
  ghost predicate StoppedTrace(trace: seq<real>)
  {
    && |trace| >= 2
    && NonDecreasing(trace[..|trace| - 1])
    && trace[|trace| - 1] < SeqMax(trace[..|trace| - 1])
  }

  /** What a run that stops delivers, from any reachable state: it keeps every
      channel accepted so far, in order, and returns one channel fewer than the
      trace has deltas; the channels come from the pool and the accepted list. */
  lemma {:induction false} ForwardRunChannels<L>(score: Oracle<L>, msnr: real, s: Search<L>)
    requires ForwardSized(s)
    ensures var r := ForwardRun(score, msnr, s);
      r.Success? ==>
        var (chans, trace) := r.value;
        && |chans| == |trace| - 1
        && |chans| >= |s.accepted| && chans[..|s.accepted|] == s.accepted
        && multiset(chans) <= multiset(s.pool) + multiset(s.accepted)
    decreases |s.pool|
  {
    ForwardRoundChannels(score, msnr, s);
    var step := ForwardRound(score, msnr, s);
    if step.Stop? {
      var last := step.last;
      assert last.accepted[..|last.accepted| - 1] == s.accepted;
      assert ForwardRun(score, msnr, s) == Success((s.accepted, last.trace));
      assert multiset(s.accepted) <= multiset(s.pool) + multiset(s.accepted);
    } else if step.Continue? {
      var next := step.next;
      ForwardRunChannels(score, msnr, next);
      var r := ForwardRun(score, msnr, next);
      assert ForwardRun(score, msnr, s) == r;
      if r.Success? {
        var chans := r.value.0;
        assert multiset(chans) <= multiset(s.pool) + multiset(s.accepted);
        PrefixOfPrefix(chans, next.accepted, s.accepted);
      }
    }
  }

  /** The trace of a run that stops extends the trace so far by at least one
      delta, and is non-decreasing up to its newest delta, which is below the
      largest one before it. */
  lemma {:induction false} ForwardRunTrace<L>(score: Oracle<L>, msnr: real, s: Search<L>)
    requires ForwardSized(s) && NonDecreasing(s.trace)
    ensures var r := ForwardRun(score, msnr, s);
      r.Success? ==>
        var trace := r.value.1;
        && StoppedTrace(trace)
        && |trace| > |s.trace| && trace[..|s.trace|] == s.trace
    decreases |s.pool|
  {
    ForwardRoundTrace(score, msnr, s);
    var step := ForwardRound(score, msnr, s);
    if step.Stop? {
      ForwardStopTrace(score, msnr, s);
      assert ForwardRun(score, msnr, s) == Success((step.last.accepted[..|step.last.accepted| - 1], step.last.trace));
    } else if step.Continue? {
      var next := step.next;
      ForwardRunTrace(score, msnr, next);
      var r := ForwardRun(score, msnr, next);
      assert ForwardRun(score, msnr, s) == r;
      if r.Success? {
        PrefixOfPrefix(r.value.1, next.trace, s.trace);
      }
    }
  }

  /** The round that stops leaves a stopped trace. */
  lemma ForwardStopTrace<L>(score: Oracle<L>, msnr: real, s: Search<L>)
    requires ForwardSized(s) && NonDecreasing(s.trace)
    ensures var step := ForwardRound(score, msnr, s);
      step.Stop? ==> StoppedTrace(step.last.trace)
  {
    ForwardRoundTrace(score, msnr, s);
    var step := ForwardRound(score, msnr, s);
    if step.Stop? {
      var trace := step.last.trace;
      assert trace[..|trace| - 1] == s.trace;
    }
  }

  /** From the start state: with fewer than two channels the run always raises
      (the pool empties before a stop check can fire); a run that stops returns
      channels drawn from the input, without duplicates when the input has none. */
  lemma ForwardResult<L>(score: Oracle<L>, msnr: real, chans: seq<L>)
    ensures var r := ForwardRun(score, msnr, Search(chans, [], [], 1));
      && (r.Failure? ==> r.error == EmptyReduction)
      && (|chans| <= 1 ==> r.Failure?)
      && (r.Success? ==>
            && |r.value.0| == |r.value.1| - 1 >= 1
            && multiset(r.value.0) <= multiset(chans)
            && (NoDup(chans) ==> NoDup(r.value.0) && forall x :: x in r.value.0 ==> x in chans))
  {
    var s := Search(chans, [], [], 1);
    ForwardRunChannels(score, msnr, s);
    ForwardRunTrace(score, msnr, s);
    ForwardFailsWithEmptyReduction(score, msnr, s);
    var r := ForwardRun(score, msnr, s);
    if |chans| <= 1 {
      ForwardRoundChannels(score, msnr, s);
      if |chans| == 1 {
        var next := ForwardRound(score, msnr, s).next;
        ForwardRoundChannels(score, msnr, next);
      }
    }
    if r.Success? {
      assert multiset(chans) + multiset(s.accepted) == multiset(chans);
      if NoDup(chans) {
        SubListKeepsNoDup(r.value.0, chans);
      }
    }
  }

  /** The only exception a forward run raises is the empty `np.max`. */
  lemma {:induction false} ForwardFailsWithEmptyReduction<L>(score: Oracle<L>, msnr: real, s: Search<L>)
    requires ForwardSized(s)
    ensures ForwardRun(score, msnr, s).Failure? ==> ForwardRun(score, msnr, s).error == EmptyReduction
    decreases |s.pool|
  {
    ForwardRoundChannels(score, msnr, s);
    match ForwardRound(score, msnr, s)
    case Crash(_) =>
    case Stop(_) =>
    case Continue(next) => ForwardFailsWithEmptyReduction(score, msnr, next);
  }

  /** How the run from `s` follows from its first round: a crash or a stop ends
      it there, a continuing round hands over to the run from the next state. */
  lemma ForwardRunUnfold<L>(score: Oracle<L>, msnr: real, s: Search<L>)
    requires ForwardSized(s)
    ensures var step := ForwardRound(score, msnr, s);
      && (step.Crash? ==> ForwardRun(score, msnr, s) == Failure(step.error))
      && (step.Stop? ==> |step.last.accepted| >= 1 && |step.last.pool| < |s.pool|
                         && ForwardRun(score, msnr, s)
                            == Success((step.last.accepted[..|step.last.accepted| - 1], step.last.trace)))
      && (step.Continue? ==> ForwardSized(step.next) && |step.next.pool| < |s.pool| && step.next.round == s.round + 1
                             && ForwardRun(score, msnr, s) == ForwardRun(score, msnr, step.next))
  {
    ForwardRoundChannels(score, msnr, s);
  }

  /** One pass of the `while active` loop of `forward_MCEE` (mcee.py lines 189-251), from
      the state at the top of round `j`: the forward step and, from round 2 on,
      the stop check. */
  method ForwardPass<L>(score: Oracle<L>, msnr: real, j: nat, pool: seq<L>, remainChans: seq<L>,
                        snrChange: seq<real>, bg: seq<L>, sig: seq<L>, coreW: seq<L>, coreData: seq<L>)
    returns (step: Step<L>, bg': seq<L>, sig': seq<L>, coreW': seq<L>, coreData': seq<L>)
    requires bg == pool && sig == pool && coreW == remainChans && coreData == remainChans
    requires ForwardSized(Search(pool, remainChans, snrChange, j))
    ensures var s := Search(pool, remainChans, snrChange, j);
      && (step.Crash? ==> ForwardRun(score, msnr, s) == Failure(step.error))
      && (step.Stop? ==> |step.last.accepted| >= 1 && |step.last.pool| < |s.pool|
                         && ForwardRun(score, msnr, s)
                            == Success((step.last.accepted[..|step.last.accepted| - 1], step.last.trace)))
      && (step.Continue? ==> ForwardSized(step.next) && |step.next.pool| < |s.pool| && step.next.round == j + 1
                             && ForwardRun(score, msnr, s) == ForwardRun(score, msnr, step.next))
    ensures step.Continue? ==> bg' == step.next.pool && sig' == step.next.pool
                               && coreW' == step.next.accepted && coreData' == step.next.accepted
  {
    ghost var s := Search(pool, remainChans, snrChange, j);
    ForwardRunUnfold(score, msnr, s);
    bg', sig', coreW', coreData' := bg, sig, coreW, coreData;
    // np.max of an empty compare_snr
    if |pool| == 0 {
      return Crash(EmptyReduction), bg', sig', coreW', coreData';
    }
    // in round 1 the core is empty, so each candidate is scored on its own column
    var compare := EvaluateAdditions(score, msnr, coreW, coreData, bg, sig);
    var chanIndex := LastMaxIndex(compare);
    var remain' := remainChans + [pool[chanIndex]];
    var pool' := RemoveAt(pool, chanIndex);
    var snrChange' := snrChange + [SeqMax(compare)];
    assert Search(pool', remain', snrChange', j) == AddBest(score, msnr, s);
    if j == 1 {
      coreW' := [bg[chanIndex]];
      coreData' := [sig[chanIndex]];
      sig' := RemoveAt(sig, chanIndex);
      bg' := RemoveAt(bg, chanIndex);
      step := Continue(Search(pool', remain', snrChange', 2));
    } else {
      coreW' := coreW + [bg[chanIndex]];
      coreData' := coreData + [sig[chanIndex]];
      if snrChange'[j - 1] < SeqMax(snrChange') {
        step := Stop(Search(pool', remain', snrChange', j));
      } else {
        sig' := RemoveAt(sig, chanIndex);
        bg' := RemoveAt(bg, chanIndex);
        step := Continue(Search(pool', remain', snrChange', j + 1));
      }
    }
  }

  /** The `while active` loop of `forward_MCEE` from the state at the top of round
      `j0`: it runs passes until one stops or crashes. The column stacks `bg`
      (`w`) and `sig` (`signal_data`) start out holding the candidates' columns,
      the core stacks the rows of the accepted channels. */
  method ForwardLoop<L>(score: Oracle<L>, msnr: real, chans: seq<L>, w: seq<L>, signalData: seq<L>,
                        remainChans0: seq<L>, snrChange0: seq<real>, j0: nat)
    returns (result: Result<(seq<L>, seq<real>)>)
    requires w == chans && signalData == chans
    requires ForwardSized(Search(chans, remainChans0, snrChange0, j0))
    ensures result == ForwardRun(score, msnr, Search(chans, remainChans0, snrChange0, j0))
  {
    ghost var cur := Search(chans, remainChans0, snrChange0, j0);
    ghost var answer := ForwardRun(score, msnr, cur);
    var pool, bg, sig := chans, w, signalData;
    var j := j0;
    var maxLoop := |pool|;
    var remainChans: seq<L> := remainChans0;
    var snrChange: seq<real> := snrChange0;
    var coreData: seq<L> := remainChans0;
    var coreW: seq<L> := remainChans0;
    var active := true;
    // `len(chans) <= max_loop` always holds: the pool only shrinks.
    while active && |pool| <= maxLoop
      invariant |pool| <= maxLoop
      invariant active ==> cur == Search(pool, remainChans, snrChange, j)
      invariant active ==> bg == pool && sig == pool && coreW == remainChans && coreData == remainChans
      invariant active ==> ForwardSized(cur) && ForwardRun(score, msnr, cur) == answer
      invariant !active ==> |remainChans| >= 1
                            && answer == Success((remainChans[..|remainChans| - 1], snrChange))
      decreases |pool| + (if active then 1 else 0)
    {
      var step;
      step, bg, sig, coreW, coreData := ForwardPass(score, msnr, j, pool, remainChans, snrChange,
                                                    bg, sig, coreW, coreData);
      match step
      case Crash(e) =>
        return Failure(e);
      case Stop(last) =>
        assert answer == Success((last.accepted[..|last.accepted| - 1], last.trace));
        pool, remainChans, snrChange := last.pool, last.accepted, last.trace;
        active := false;
      case Continue(next) =>
        assert ForwardSized(next) && ForwardRun(score, msnr, next) == answer;
        pool, remainChans, snrChange, j := next.pool, next.accepted, next.trace, next.round;
        cur := next;
    }
    result := Success((remainChans[..|remainChans| - 1], snrChange));
  }

  /** `forward_MCEE(chans, msnr, w, w_target, signal_data, data_target)`; the
      targets are inside `score`. The search starts in round 1 with nothing
      accepted and no deltas. */
  method ForwardMCEE<L>(chans: seq<L>, msnr: real, w: seq<L>, signalData: seq<L>, score: Oracle<L>)
    returns (result: Result<(seq<L>, seq<real>)>)
    requires w == chans && signalData == chans
    ensures result == ForwardRun(score, msnr, Search(chans, [], [], 1))
    ensures result.Failure? ==> result.error == EmptyReduction
    ensures |chans| <= 1 ==> result.Failure?
    ensures result.Success? ==>
              && |result.value.0| == |result.value.1| - 1 >= 1
              && multiset(result.value.0) <= multiset(chans)
  {
    result := ForwardLoop(score, msnr, chans, w, signalData, [], [], 1);
    ForwardResult(score, msnr, chans);
  }
}
