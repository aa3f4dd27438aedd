/**
 * The two FuzzySharp extractors the finder calls, over an uninterpreted
 * scorer. FuzzySharp's similarity algorithm is not part of this model: the
 * scorer is a parameter, applied (as FuzzySharp does) to the processed query
 * and the processed choice.
 */
module Fuzzy {
  import opened Words

  /** A similarity score of two processed strings; nothing is assumed about it. */
  type Scorer = (string, string) -> int

  /** ExtractedResult<Word>: a choice, its score, and its position among the choices. */
  datatype ExtractedResult = ExtractedResult(value: Word, score: int, index: int)

  /** The score of one choice: the scorer applied to both Process keys. */
  function ScoreOf(scorer: Scorer, query: Word, choice: Word): int
  {
    scorer(Process(query), Process(choice))
  }

  /** `r` reports choice `r.index` with its true score. */
  predicate Reports(r: ExtractedResult, query: Word, choices: seq<Word>, scorer: Scorer)
  {
    0 <= r.index < |choices| && r.value == choices[r.index] && r.score == ScoreOf(scorer, query, choices[r.index])
  }

  /**
   * ExtractAll with a cutoff: every choice whose score reaches the cutoff,
   * and nothing else, in the order of the choices.
   */
  function ExtractAll(query: Word, choices: seq<Word>, scorer: Scorer, cutoff: int): (rs: seq<ExtractedResult>)
    ensures forall r <- rs :: Reports(r, query, choices, scorer) && r.score >= cutoff
    ensures forall i, j :: 0 <= i < j < |rs| ==> rs[i].index < rs[j].index
  {
    if choices == [] then []
    else
      var n := |choices| - 1;
      var prefix := ExtractAll(query, choices[..n], scorer, cutoff);
      var s := ScoreOf(scorer, query, choices[n]);
      assert forall i :: 0 <= i < n ==> choices[..n][i] == choices[i];
      prefix + (if s >= cutoff then [ExtractedResult(choices[n], s, n)] else [])
  }

  /** ExtractAll keeps choice `i` when its score reaches the cutoff. */
  lemma {:induction false} ExtractAllKeeps(query: Word, choices: seq<Word>, scorer: Scorer, cutoff: int, i: int)
    requires 0 <= i < |choices| && ScoreOf(scorer, query, choices[i]) >= cutoff
    ensures exists r <- ExtractAll(query, choices, scorer, cutoff) :: r.index == i
  {
    var n := |choices| - 1;
    var all := ExtractAll(query, choices, scorer, cutoff);
    var prefix := ExtractAll(query, choices[..n], scorer, cutoff);
    var s := ScoreOf(scorer, query, choices[n]);
    assert all == prefix + (if s >= cutoff then [ExtractedResult(choices[n], s, n)] else []);
    if i < n {
      assert choices[..n][i] == choices[i];
      ExtractAllKeeps(query, choices[..n], scorer, cutoff, i);
      var r :| r in prefix && r.index == i;
      assert r in all;
    } else {
      assert all[|all| - 1].index == i;
    }
  }

  /** ExtractAll leaves out no choice whose score reaches the cutoff. */
  lemma ExtractAllComplete(query: Word, choices: seq<Word>, scorer: Scorer, cutoff: int)
    ensures forall i :: 0 <= i < |choices| && ScoreOf(scorer, query, choices[i]) >= cutoff ==>
      exists r <- ExtractAll(query, choices, scorer, cutoff) :: r.index == i
  {
    forall i | 0 <= i < |choices| && ScoreOf(scorer, query, choices[i]) >= cutoff
      ensures exists r <- ExtractAll(query, choices, scorer, cutoff) :: r.index == i
    {
      ExtractAllKeeps(query, choices, scorer, cutoff, i);
    }
  }

  /** `a` ranks before `b`: a higher score, or the same score and an earlier choice. */
  predicate RankedBefore(a: ExtractedResult, b: ExtractedResult)
  {
    a.score > b.score || (a.score == b.score && a.index < b.index)
  }

  /** Descending score, ties in the order of the choices. */
  predicate Ranked(rs: seq<ExtractedResult>)
  {
    forall i, j :: 0 <= i < j < |rs| ==> RankedBefore(rs[i], rs[j])
  }

  /** Inserts `x`, whose choice comes after all of those in `rs`, into the ranking `rs`. */
  function Insert(rs: seq<ExtractedResult>, x: ExtractedResult): (out: seq<ExtractedResult>)
    requires Ranked(rs)
    requires forall r <- rs :: r.index < x.index
    ensures Ranked(out)
    ensures forall y <- out :: y in rs || y == x
    ensures multiset(out) == multiset(rs) + multiset{x}
  {
    if rs == [] then [x]
    else
      var n := |rs| - 1;
      if rs[n].score >= x.score then
        RankedAppend(rs, x);
        rs + [x]
      else
        assert rs == rs[..n] + [rs[n]];
        var front := Insert(rs[..n], x);
        RankedAppend(front, rs[n]);
        front + [rs[n]]
  }

  /** Appending an element that every element of a ranking ranks before keeps it a ranking. */
  lemma RankedAppend(rs: seq<ExtractedResult>, last: ExtractedResult)
    requires Ranked(rs)
    requires forall y <- rs :: RankedBefore(y, last)
    ensures Ranked(rs + [last])
  {
  }

  /** Ranks results that come in the order of the choices. */
  function RankByScore(rs: seq<ExtractedResult>): (out: seq<ExtractedResult>)
    requires forall i, j :: 0 <= i < j < |rs| ==> rs[i].index < rs[j].index
    ensures Ranked(out)
    ensures forall y <- out :: y in rs
    ensures multiset(out) == multiset(rs)
  {
    if rs == [] then []
    else
      var n := |rs| - 1;
      assert rs == rs[..n] + [rs[n]];
      Insert(RankByScore(rs[..n]), rs[n])
  }

  /**
   * ExtractTop with a cutoff: at most `limit` of the results of ExtractAll,
   * best first, ties in the order of the choices.
   */
  function ExtractTop(query: Word, choices: seq<Word>, scorer: Scorer, limit: nat, cutoff: int)
    : (rs: seq<ExtractedResult>)
    ensures |rs| <= limit
    ensures forall r <- rs :: Reports(r, query, choices, scorer) && r.score >= cutoff
    ensures Ranked(rs)
    ensures multiset(rs) <= multiset(ExtractAll(query, choices, scorer, cutoff))
  {
    var ranked := RankByScore(ExtractAll(query, choices, scorer, cutoff));
    if |ranked| <= limit then ranked
    else
      assert ranked == ranked[..limit] + ranked[limit..];
      ranked[..limit]
  }

  /**
   * ExtractTop returns the `limit` best results (all of them when fewer
   * qualify): every qualifying result it leaves out ranks after every result
   * it keeps.
   */
  lemma ExtractTopKeepsBest(query: Word, choices: seq<Word>, scorer: Scorer, limit: nat, cutoff: int)
    ensures var all := ExtractAll(query, choices, scorer, cutoff);
      var top := ExtractTop(query, choices, scorer, limit, cutoff);
      && |top| == (if |all| <= limit then |all| else limit)
      && forall r <- all :: r !in top ==> forall t <- top :: RankedBefore(t, r)
  {
    var all := ExtractAll(query, choices, scorer, cutoff);
    var ranked := RankByScore(all);
    var top := ExtractTop(query, choices, scorer, limit, cutoff);
    assert |ranked| == |all| by {
      assert |multiset(ranked)| == |multiset(all)|;
    }
    assert top == if |ranked| <= limit then ranked else ranked[..limit];
    forall r <- all | r !in top
      ensures forall t <- top :: RankedBefore(t, r)
    {
      assert r in multiset(all);
      RankedAfterPrefix(ranked, top, r);
    }
  }

  /** In a ranking, an element outside a prefix ranks after everything in the prefix. */
  lemma RankedAfterPrefix(ranked: seq<ExtractedResult>, top: seq<ExtractedResult>, r: ExtractedResult)
    requires Ranked(ranked)
    requires top <= ranked
    requires r in ranked && r !in top
    ensures forall t <- top :: RankedBefore(t, r)
  {
    var j :| 0 <= j < |ranked| && ranked[j] == r;
    assert forall k :: 0 <= k < |top| ==> top[k] == ranked[k] && top[k] != r;
    assert |top| <= j;
    forall t <- top
      ensures RankedBefore(t, r)
    {
      var i :| 0 <= i < |top| && top[i] == t;
      assert ranked[i] == t;
    }
  }
}
