/** `backward_MCEE`: start with every channel in the model, and in each round
    delete the channel whose removal scores best, until one channel is left. */
module Backward {
  import opened TieBreak
  import opened Channels
  import opened Scoring

  /** The rounds still to run from a state with model channels `chans`, deleted
      channels `deleted` and delta trace `trace`; yields the final three. Each
      round deletes the last index of the best removal score and records that score. */
  function Eliminate<L>(score: Oracle<L>, msnr: real, chans: seq<L>, deleted: seq<L>, trace: seq<real>)
    : (r: (seq<L>, seq<L>, seq<real>))
    decreases |chans|
  {
    if |chans| <= 1 then (chans, deleted, trace)
    else
      var compare := Removals(score, msnr, chans, chans);
      var k := LastMaxIndex(compare);
      Eliminate(score, msnr, RemoveAt(chans, k), deleted + [chans[k]], trace + [SeqMax(compare)])
  }

  /** What `backward_MCEE` returns: the channel left at the end plus the last two
      deleted ones, and the per-round delta trace. */
  function BackwardResult<L>(score: Oracle<L>, msnr: real, chans: seq<L>): (r: (seq<L>, seq<real>))
  {
    var (rest, deleted, trace) := Eliminate(score, msnr, chans, [], []);
    (rest + LastTwo(deleted), trace)
  }

  /** Every round deletes exactly one channel and appends exactly one delta, until
      one channel is left (none if there were none): from `n` channels the search
      runs `n - 1` rounds. No channel is lost or invented: the remaining and
      deleted channels together are the channels it started with. */
  lemma {:induction false} EliminateShape<L>(score: Oracle<L>, msnr: real, chans: seq<L>,
                                            deleted: seq<L>, trace: seq<real>)
    ensures var (rest, deleted', trace') := Eliminate(score, msnr, chans, deleted, trace);
      && |rest| == (if |chans| == 0 then 0 else 1)
      && |deleted'| == |deleted| + |chans| - |rest|
      && |trace'| == |trace| + |chans| - |rest|
      && deleted'[..|deleted|] == deleted
      && multiset(rest) + multiset(deleted') == multiset(chans) + multiset(deleted)
    decreases |chans|
  {
    if |chans| > 1 {
      var compare := Removals(score, msnr, chans, chans);
      var k := LastMaxIndex(compare);
      var deleted1 := deleted + [chans[k]];
      RemoveAtSpec(chans, k);
      EliminateShape(score, msnr, RemoveAt(chans, k), deleted1, trace + [SeqMax(compare)]);
      var (rest, deleted', trace') := Eliminate(score, msnr, chans, deleted, trace);
      assert deleted'[..|deleted1|] == deleted1;
      assert deleted'[..|deleted|] == deleted1[..|deleted|];
    }
  }

  /** The backward result: one delta per round (`n - 1` of them for `n >= 1`
      channels), `min(n, 3)` channels, all drawn from the input; without duplicate
      labels in the input there are none in the result and it is a subset of it. */
  lemma BackwardResultShape<L>(score: Oracle<L>, msnr: real, chans: seq<L>)
    ensures var (model, trace) := BackwardResult(score, msnr, chans);
      && |trace| == (if |chans| == 0 then 0 else |chans| - 1)
      && |model| == (if |chans| < 3 then |chans| else 3)
      && multiset(model) <= multiset(chans)
      && (NoDup(chans) ==> NoDup(model) && forall x :: x in model ==> x in chans)
  {
    EliminateShape(score, msnr, chans, [], []);
    var e := Eliminate(score, msnr, chans, [], []);
    var rest, deleted := e.0, e.1;
    var tail := LastTwo(deleted);
    var model := rest + tail;
    assert BackwardResult(score, msnr, chans) == (model, e.2);
    assert deleted[..|deleted| - |tail|] + tail == deleted;
    var dropped := deleted[..|deleted| - |tail|];
    assert multiset(deleted) == multiset(dropped) + multiset(tail);
    assert multiset(rest) + multiset(deleted) == multiset(chans) + multiset{};
    assert multiset(rest) + multiset(deleted) == multiset(chans);
    assert multiset(model) == multiset(rest) + multiset(tail);
    assert multiset(chans) == multiset(model) + multiset(dropped);
    if NoDup(chans) {
      SubListKeepsNoDup(model, chans);
    }
  }

  /** `backward_MCEE(chans, msnr, w, w_target, signal_data, data_target)`. `w` and
      `signalData` are the channel axes of the background- and signal-window arrays,
      which the caller lines up with `chans`; the targets are inside `score`. */
  method BackwardMCEE<L>(chans: seq<L>, msnr: real, w: seq<L>, signalData: seq<L>, score: Oracle<L>)
    returns (modelChans: seq<L>, snrChange: seq<real>)
    requires w == chans && signalData == chans
    ensures (modelChans, snrChange) == BackwardResult(score, msnr, chans)
    ensures |snrChange| == if |chans| == 0 then 0 else |chans| - 1
    ensures |modelChans| == if |chans| < 3 then |chans| else 3
    ensures multiset(modelChans) <= multiset(chans)
  {
    var pool, bg, sig := chans, w, signalData;
    var j := 0;
    var deleteChans: seq<L> := [];
    snrChange := [];
    var active := true;
    while active
      invariant bg == pool && sig == pool
      invariant j == |deleteChans|
      invariant active ==> Eliminate(score, msnr, pool, deleteChans, snrChange)
                           == Eliminate(score, msnr, chans, [], [])
      invariant !active ==> (pool, deleteChans, snrChange) == Eliminate(score, msnr, chans, [], [])
      decreases |pool| + (if active then 1 else 0)
    {
      if |pool| > 1 {
        var compare := EvaluateRemovals(score, msnr, bg, sig);
        var chanIndex := LastMaxIndex(compare);
        deleteChans := deleteChans + [pool[chanIndex]];
        pool := RemoveAt(pool, chanIndex);
        snrChange := snrChange + [SeqMax(compare)];
        sig := RemoveAt(sig, chanIndex);
        bg := RemoveAt(bg, chanIndex);
        j := j + 1;
      } else {
        active := false;
      }
    }
    modelChans := pool + LastTwo(deleteChans);
    BackwardResultShape(score, msnr, chans);
  }
}
