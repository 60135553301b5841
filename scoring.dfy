/** The regression-plus-scoring step, abstracted. `mlr` fits one linear model
    per trial on the background window and applies it to the signal window;
    `snr_time` scores the extracted waveform; a search compares
    `mean(snr_time(extract)) - msnr`. None of that arithmetic is modelled:
    an `Oracle` gives the mean SNR for a stack of background-window channels
    and a stack of signal-window channels (the reference channel's target
    waveforms are fixed for a search run and so are part of the oracle). */
module Scoring {
  import opened Channels

  type Oracle<!L> = (seq<L>, seq<L>) -> real

  /** `compare_snr` when channel `i` is deleted from both column stacks. */
  function Removals<L>(score: Oracle<L>, msnr: real, w: seq<L>, signalData: seq<L>): (r: seq<real>)
    requires |w| == |signalData|
  {
    seq(|w|, i requires 0 <= i < |w| => score(RemoveAt(w, i), RemoveAt(signalData, i)) - msnr)
  }

  /** `compare_snr` when candidate column `i` is stacked after the core rows. */
  function Additions<L>(score: Oracle<L>, msnr: real, coreW: seq<L>, coreData: seq<L>,
                        w: seq<L>, signalData: seq<L>): (r: seq<real>)
    requires |w| == |signalData|
  {
    seq(|w|, i requires 0 <= i < |w| => score(coreW + [w[i]], coreData + [signalData[i]]) - msnr)
  }

  /** Backward's inner loop (the loop over `i` at the top of each round):
      `compare_snr[i]` is the score with channel `i` removed, minus `msnr`. */
  method EvaluateRemovals<L>(score: Oracle<L>, msnr: real, w: seq<L>, signalData: seq<L>)
    returns (compare: seq<real>)
    requires |w| == |signalData|
    ensures compare == Removals(score, msnr, w, signalData)
  {
    var c := new real[|w|](_ => 0.0);
    for i := 0 to |w|
      invariant forall k :: 0 <= k < i ==>
                  c[k] == score(RemoveAt(w, k), RemoveAt(signalData, k)) - msnr
    {
      var tempW := RemoveAt(w, i);
      var tempData := RemoveAt(signalData, i);
      c[i] := score(tempW, tempData) - msnr;
    }
    compare := c[..];
  }

  /** The forward step's inner loop (forward and stepwise): `compare_snr[i]` is the
      score of the core rows with candidate column `i` stacked after them, minus `msnr`. */
  method EvaluateAdditions<L>(score: Oracle<L>, msnr: real, coreW: seq<L>, coreData: seq<L>,
                              w: seq<L>, signalData: seq<L>)
    returns (compare: seq<real>)
    requires |w| == |signalData|
    ensures compare == Additions(score, msnr, coreW, coreData, w, signalData)
  {
    var c := new real[|w|](_ => 0.0);
    for i := 0 to |w|
      invariant forall k :: 0 <= k < i ==>
                  c[k] == score(coreW + [w[k]], coreData + [signalData[k]]) - msnr
    {
      var tempW := coreW + [w[i]];
      var tempData := coreData + [signalData[i]];
      c[i] := score(tempW, tempData) - msnr;
    }
    compare := c[..];
  }
}
