/** The selection state that forward and stepwise thread through their rounds,
    what one round does with it, and the forward step both searches share. */
module SearchState {
  import opened Outcomes
  import opened TieBreak
  import opened Channels
  import opened Scoring

  /** `pool` is `chans` (the candidates not yet taken), `accepted` is
      `remain_chans`, `trace` is `snr_change` and `round` is the counter `j`. */
  datatype Search<L> = Search(pool: seq<L>, accepted: seq<L>, trace: seq<real>, round: nat)

  /** A round either continues with a new state, stops (`active = False`) in the
      state it reached, or raises an exception. */
  datatype Step<L> = Continue(next: Search<L>) | Stop(last: Search<L>) | Crash(error: Error)

  /** The forward step: score every candidate added to the accepted channels,
      move the one the tie-break picks from the pool to the end of the accepted
      list, and record its delta, the largest of all. */
  function AddBest<L>(score: Oracle<L>, msnr: real, s: Search<L>): (t: Search<L>)
    requires |s.pool| > 0
    ensures t.round == s.round
    ensures |t.pool| == |s.pool| - 1 && |t.accepted| == |s.accepted| + 1 && |t.trace| == |s.trace| + 1
  {
    var compare := Additions(score, msnr, s.accepted, s.accepted, s.pool, s.pool);
    var k := LastMaxIndex(compare);
    Search(RemoveAt(s.pool, k), s.accepted + [s.pool[k]], s.trace + [SeqMax(compare)], s.round)
  }

  /** The forward step keeps the accepted list and the trace as prefixes, and it
      only moves a channel: pool and accepted list together hold the same
      channels before and after. */
  lemma AddBestSpec<L>(score: Oracle<L>, msnr: real, s: Search<L>)
    requires |s.pool| > 0
    ensures var t := AddBest(score, msnr, s);
      && t.accepted[..|s.accepted|] == s.accepted && t.trace[..|s.trace|] == s.trace
      && multiset(t.pool) + multiset(t.accepted) == multiset(s.pool) + multiset(s.accepted)
  {
    var compare := Additions(score, msnr, s.accepted, s.accepted, s.pool, s.pool);
    var k := LastMaxIndex(compare);
    RemoveAtSpec(s.pool, k);
    var t := AddBest(score, msnr, s);
    assert t.accepted == s.accepted + [s.pool[k]];
    assert t.accepted[..|s.accepted|] == s.accepted;
    assert t.trace[..|s.trace|] == s.trace;
    assert multiset(t.accepted) == multiset(s.accepted) + multiset{s.pool[k]};
  }
}
