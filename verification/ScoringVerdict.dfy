/** What becomes of a queue entry, seen from the token pool: the scoring of an entry is one rotated
    call for its signals, and the outcome of that call is the worker's verdict. */
module ScoringVerdicts {
  import BatchDrain
  import opened PoolClients
  import opened TokenPools

  /** The verdict on an entry. `terminal` says whether an error that is not retried will never go
      away (a deleted user, say), and `stored` whether a computed score was saved. */
  function VerdictOf<T>(r: Result<T>, terminal: bool, stored: bool): BatchDrain.Verdict {
    match r
    case Ok(_) => if stored then BatchDrain.Scored else BatchDrain.Failed
    case NoTokens => BatchDrain.Dry
    case Failed => if terminal then BatchDrain.Skipped else BatchDrain.Failed
    case _ => BatchDrain.Failed
  }

  /** With the pool to itself, an entry is put back for want of tokens exactly when its call found
      none at the start. The entry whose call uses up the last token is settled as failed, although
      the pool is then as empty as for the entries after it. */
  lemma DryExactlyWhenEmptyAtStart<T>(s: State, tokens: seq<string>, env: seq<Attempt<T>>, from: int, to: int,
                                      terminal: bool, stored: bool)
    requires Valid(s) && |env| == MAX_POOL_RETRIES && from <= to
    requires Within(env, from, to) && Steady(s, from, to) && SteadyMarks(env, to) && DistinctTokens(s.entries)
    requires Awaits(s, from, tokens, 0) && forall i :: 0 <= i < |tokens| ==> tokens[i] != ""
    ensures var r := Rotation(s, env, 0);
            var settled := BatchDrain.Settled(BatchDrain.Released(VerdictOf(r.1, terminal, stored)));
            && (!settled <==> NoneAvailable(s, from))
            && (0 < |tokens| <= MAX_POOL_RETRIES && RetriedBefore(tokens, env, |tokens|) ==>
                  VerdictOf(r.1, terminal, stored).Failed? && NoneAvailable(r.0, to))
            && (VerdictOf(r.1, terminal, stored).Scored? <==> stored && exists j: nat :: FirstValueAt(tokens, env, j))
            && (VerdictOf(r.1, terminal, stored).Skipped? ==> terminal && r.1.Failed?)
  {
    hide Awaits, NoneAvailable, Within, Steady, SteadyMarks, DistinctTokens, RetriedBefore, Rotation, FirstValueAt;
    RotationRunsDry(s, tokens, env, from, to);
    RotationMeaning(s, tokens, env, from, to);
  }
}
