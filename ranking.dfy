/** `sorted(results, key=lambda x: x.get("score", 0), reverse=True)`, the
    re-ranking both the chat handler and the LLM context builder apply to
    query results: a stable sort by non-increasing score, so results with
    equal scores keep their original order. */
module Ranking {
  import opened Repository

  /** Best score first. */
  predicate SortedDesc(ms: seq<Match>) {
    forall i, j :: 0 <= i < j < |ms| ==> ms[j].score <= ms[i].score
  }

  /** The results that have score `v`, in their order. */
  function WithScore(ms: seq<Match>, v: real): (r: seq<Match>)
    ensures |r| <= |ms|
    ensures forall i :: 0 <= i < |r| ==> r[i].score == v
  {
    if ms == [] then []
    else if ms[0].score == v then [ms[0]] + WithScore(ms[1..], v)
    else WithScore(ms[1..], v)
  }

  /** Puts `m` in front of the first result that does not score above it. */
  function InsertDesc(m: Match, s: seq<Match>): (r: seq<Match>)
    ensures |r| == |s| + 1
    ensures multiset(r) == multiset(s) + multiset{m}
  {
    if s == [] || s[0].score <= m.score then [m] + s
    else
      assert s == [s[0]] + s[1..];
      [s[0]] + InsertDesc(m, s[1..])
  }

  /** The stable descending sort, by insertion from the back. */
  function SortByScore(ms: seq<Match>): (r: seq<Match>)
    ensures |r| == |ms|
    ensures multiset(r) == multiset(ms)
  {
    if ms == [] then []
    else
      assert ms == [ms[0]] + ms[1..];
      InsertDesc(ms[0], SortByScore(ms[1..]))
  }

  /** Inserting into a sorted list keeps it sorted. */
  lemma {:induction false} InsertDescSorted(m: Match, s: seq<Match>)
    requires SortedDesc(s)
    ensures SortedDesc(InsertDesc(m, s))
    decreases |s|
  {
    if s != [] && s[0].score > m.score {
      InsertDescSorted(m, s[1..]);
      var r := InsertDesc(m, s);
      var t := InsertDesc(m, s[1..]);
      assert r == [s[0]] + t;
      forall j | 0 < j < |r|
        ensures r[j].score <= r[0].score
      {
        assert r[j] in multiset(t);
        assert r[j] in multiset(s[1..]) + multiset{m};
        if r[j] != m {
          assert r[j] in s[1..];
        }
      }
    }
  }

  /** A result inserted in front of the results scoring at most as much
      comes first among those with its own score. */
  lemma {:induction false} InsertDescStable(m: Match, s: seq<Match>, v: real)
    requires SortedDesc(s)
    ensures WithScore(InsertDesc(m, s), v) == if m.score == v then [m] + WithScore(s, v) else WithScore(s, v)
    decreases |s|
  {
    if s != [] && s[0].score > m.score {
      InsertDescStable(m, s[1..], v);
      assert InsertDesc(m, s)[1..] == InsertDesc(m, s[1..]);
      if m.score == v {
        assert s[0].score != v;
      }
    }
  }

  /** The sort yields a descending permutation of its input in which the
      results of any one score keep their original order. */
  lemma {:induction false} SortByScoreCorrect(ms: seq<Match>)
    ensures SortedDesc(SortByScore(ms))
    ensures multiset(SortByScore(ms)) == multiset(ms)
    ensures forall v :: WithScore(SortByScore(ms), v) == WithScore(ms, v)
    decreases |ms|
  {
    if ms != [] {
      SortByScoreCorrect(ms[1..]);
      InsertDescSorted(ms[0], SortByScore(ms[1..]));
      forall v
        ensures WithScore(SortByScore(ms), v) == WithScore(ms, v)
      {
        InsertDescStable(ms[0], SortByScore(ms[1..]), v);
      }
    }
  }

  /** An already descending list is left as it is. */
  lemma {:induction false} SortByScoreSorted(ms: seq<Match>)
    requires SortedDesc(ms)
    ensures SortByScore(ms) == ms
    decreases |ms|
  {
    if ms != [] {
      SortByScoreSorted(ms[1..]);
      var s := ms[1..];
      assert s == [] || s[0].score <= ms[0].score;
    }
  }
}
