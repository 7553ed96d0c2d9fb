/** The credential history: the newest-first list stored in the secret, and
    how a rotation extends it. */
module History {
  import opened Primitives
  import opened Tokens

  /** The prior history as the rotator sees it: the list the stored blob
      decoded to, or the empty list when decoding failed, because the decode
      error is ignored and the list it decodes into starts out empty. */
  function PriorHistory(parsed: Option<seq<Token>>): (h: seq<Token>)
  {
    match parsed
    case Some(tokens) => tokens
    case None => []
  }

  /** A blob that does not decode and a blob that decodes to an empty list
      look the same to the rotator: in both cases there is no prior history,
      and in no other case is the prior history empty. */
  lemma UndecodableIsEmpty(parsed: Option<seq<Token>>)
    ensures PriorHistory(None) == PriorHistory(Some([]))
    ensures PriorHistory(parsed) == [] <==> parsed == None || parsed == Some([])
  {
  }

  /** The new credential put in front of the prior history. */
  function Merge(newest: Token, prior: seq<Token>): (h: seq<Token>)
    ensures |h| == |prior| + 1
    ensures h[0] == newest
    ensures forall i | 0 <= i < |prior| :: h[i + 1] == prior[i]
    ensures multiset(h) == multiset(prior) + multiset{newest}
  {
    [newest] + prior
  }

  /** Merging is undone by splitting off the head: nothing of the prior
      history is reordered, dropped or deduplicated, and any non-empty
      history is the merge of its head into its tail. */
  lemma MergeSplits(newest: Token, prior: seq<Token>, h: seq<Token>)
    ensures Merge(newest, prior)[1..] == prior
    ensures h == Merge(newest, prior) <==> |h| > 0 && h[0] == newest && h[1..] == prior
  {
  }

  /** The tokens of a sequence, last first. */
  function Reversed(ts: seq<Token>): (r: seq<Token>)
    ensures |r| == |ts|
  {
    if ts == [] then [] else Reversed(ts[1..]) + [ts[0]]
  }

  /** The history after merging each of the tokens in turn, the first
      token merged first. */
  function MergeAll(ts: seq<Token>, prior: seq<Token>): seq<Token>
  {
    if ts == [] then prior else MergeAll(ts[1..], Merge(ts[0], prior))
  }

  /** Repeated merging keeps every earlier credential, newest first: the
      history after a run of rotations is the run's tokens in reverse order
      followed by the history it started from. */
  lemma {:induction false} MergeAllIsNewestFirst(ts: seq<Token>, prior: seq<Token>)
    ensures MergeAll(ts, prior) == Reversed(ts) + prior
  {
    if ts != [] {
      MergeAllIsNewestFirst(ts[1..], Merge(ts[0], prior));
      calc {
        MergeAll(ts, prior);
        Reversed(ts[1..]) + ([ts[0]] + prior);
        Reversed(ts[1..]) + [ts[0]] + prior;
        Reversed(ts) + prior;
      }
    }
  }
}
