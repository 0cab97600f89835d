/** The first half of the multi-index `search_and_recompose`: the query goes
    to each index in turn (posts, news, eventi); every match an index returns
    is tagged with that index's name under "__source_index", an index whose
    query raises contributes nothing, and the merged list is sorted by score,
    highest first, keeping the order of equal scores (Python's sort is
    stable, also with reverse=True). The index service is the parameter
    `answers`: for each index either its matches or None when the query
    raised. */
module Merge {
  import opened PyValues

  /** A match as the index returns it; only the score and the metadata are
      read. Scores are integers: only their order matters here. */
  datatype Match = Match(score: int, metadata: map<string, Json>)

  /** The labels of the three indices, in the order the dict holds them. */
  const IndexLabels: seq<string> := ["posts", "news", "eventi"]

  /** The metadata key the tag is written under. */
  const SourceKey: string := "__source_index"

  /** m["metadata"]["__source_index"] = name. */
  function Retag(name: string, m: Match): Match {
    Match(m.score, m.metadata[SourceKey := JStr(name)])
  }

  /** The matches of one index, tagged with its name. */
  function Tag(name: string, ms: seq<Match>): (r: seq<Match>)
    ensures |r| == |ms|
    ensures forall j :: 0 <= j < |r| ==> r[j] == Retag(name, ms[j])
  {
    if |ms| == 0 then [] else Tag(name, ms[..|ms| - 1]) + [Retag(name, ms[|ms| - 1])]
  }

  /** all_matches after the loop over the indices: the tagged matches of the
      indices that answered, index after index. */
  function Tagged(labels: seq<string>, answers: seq<Option<seq<Match>>>): seq<Match>
    requires |labels| == |answers|
  {
    if |answers| == 0 then []
    else
      var n := |answers| - 1;
      Tagged(labels[..n], answers[..n]) + (if answers[n].Some? then Tag(labels[n], answers[n].value) else [])
  }

  /** The loop over the indices, with the inner loop that tags each match. */
  method FanOut(labels: seq<string>, answers: seq<Option<seq<Match>>>) returns (all: seq<Match>)
    requires |labels| == |answers|
    ensures all == Tagged(labels, answers)
  {
    all := [];
    var i := 0;
    while i < |answers|
      invariant 0 <= i <= |answers|
      invariant all == Tagged(labels[..i], answers[..i])
    {
      assert labels[..i + 1][..i] == labels[..i] && answers[..i + 1][..i] == answers[..i];
      if answers[i].Some? {
        var matches := answers[i].value;
        var tagged: seq<Match> := [];
        var j := 0;
        while j < |matches|
          invariant 0 <= j <= |matches|
          invariant tagged == Tag(labels[i], matches[..j])
        {
          assert matches[..j + 1][..j] == matches[..j];
          tagged := tagged + [Retag(labels[i], matches[j])];
          j := j + 1;
        }
        assert matches[..j] == matches;
        all := all + tagged;
      }
      i := i + 1;
    }
    assert labels[..i] == labels && answers[..i] == answers;
  }

  /** The number of matches of the indices that answered. */
  function Answered(answers: seq<Option<seq<Match>>>): nat {
    if |answers| == 0 then 0
    else
      var n := |answers| - 1;
      Answered(answers[..n]) + (if answers[n].Some? then |answers[n].value| else 0)
  }

  /** Every merged match carries the name of an index that answered, and
      there are as many as those indices returned: an index whose query
      raised adds nothing and does not stop the others. */
  lemma {:induction false} TaggedSpec(labels: seq<string>, answers: seq<Option<seq<Match>>>)
    requires |labels| == |answers|
    ensures |Tagged(labels, answers)| == Answered(answers)
    ensures forall x :: x in Tagged(labels, answers) ==>
      exists i :: 0 <= i < |answers| && answers[i].Some? && Get(x.metadata, SourceKey) == JStr(labels[i])
  {
    if |answers| > 0 {
      var n := |answers| - 1;
      TaggedSpec(labels[..n], answers[..n]);
      forall x | x in Tagged(labels, answers)
        ensures exists i :: 0 <= i < |answers| && answers[i].Some? && Get(x.metadata, SourceKey) == JStr(labels[i])
      {
        if x in Tagged(labels[..n], answers[..n]) {
          var i :| 0 <= i < n && answers[..n][i].Some? && Get(x.metadata, SourceKey) == JStr(labels[..n][i]);
          assert answers[i] == answers[..n][i];
        } else {
          var j :| 0 <= j < |answers[n].value| && x == Tag(labels[n], answers[n].value)[j];
          assert Get(x.metadata, SourceKey) == JStr(labels[n]);
        }
      }
    }
  }

  /** With distinct labels, an index whose query raised has no match in the
      merged list, while every match of every index that answered is there,
      tagged with that index's name. */
  lemma FailedIndexAbsent(labels: seq<string>, answers: seq<Option<seq<Match>>>, i: nat)
    requires |labels| == |answers| && i < |answers| && answers[i].None?
    requires forall a, b :: 0 <= a < b < |labels| ==> labels[a] != labels[b]
    ensures forall x :: x in Tagged(labels, answers) ==> Get(x.metadata, SourceKey) != JStr(labels[i])
    ensures forall j, k :: 0 <= j < |answers| && answers[j].Some? && 0 <= k < |answers[j].value| ==>
      Retag(labels[j], answers[j].value[k]) in Tagged(labels, answers)
  {
    TaggedSpec(labels, answers);
    forall j, k | 0 <= j < |answers| && answers[j].Some? && 0 <= k < |answers[j].value|
      ensures Retag(labels[j], answers[j].value[k]) in Tagged(labels, answers)
    {
      AnsweredKept(labels, answers, j, k);
    }
  }

  /** Match k of an index that answered is in the merged list, tagged. */
  lemma {:induction false} AnsweredKept(labels: seq<string>, answers: seq<Option<seq<Match>>>, j: nat, k: nat)
    requires |labels| == |answers| && j < |answers| && answers[j].Some? && k < |answers[j].value|
    ensures Retag(labels[j], answers[j].value[k]) in Tagged(labels, answers)
  {
    var n := |answers| - 1;
    var x := Retag(labels[j], answers[j].value[k]);
    if j < n {
      AnsweredKept(labels[..n], answers[..n], j, k);
      assert labels[..n][j] == labels[j] && answers[..n][j] == answers[j];
    } else {
      assert Tag(labels[n], answers[n].value)[k] == x;
    }
    assert Tagged(labels, answers) == Tagged(labels[..n], answers[..n])
      + (if answers[n].Some? then Tag(labels[n], answers[n].value) else []);
  }

  // ---------------------------------------------------------------------
  // sorted(all_matches, key=lambda x: x["score"], reverse=True)
  // ---------------------------------------------------------------------

  /** Puts x after every match scoring at least as much: in a list sorted
      from the highest score, a later match goes after the earlier ones of
      equal score. */
  function InsertByScore(x: Match, s: seq<Match>): seq<Match>
  {
    if |s| == 0 then [x]
    else if s[0].score >= x.score then [s[0]] + InsertByScore(x, s[1..])
    else [x] + s
  }

  lemma {:induction false} InsertPermutes(x: Match, s: seq<Match>)
    ensures multiset(InsertByScore(x, s)) == multiset(s) + multiset{x}
  {
    if |s| > 0 && s[0].score >= x.score {
      InsertPermutes(x, s[1..]);
      assert s == [s[0]] + s[1..];
    }
  }

  /** The stable sort by descending score, as an insertion sort of the
      matches in their merged order. */
  function SortByScore(ms: seq<Match>): seq<Match>
  {
    if |ms| == 0 then [] else InsertByScore(ms[|ms| - 1], SortByScore(ms[..|ms| - 1]))
  }

  predicate Descending(s: seq<Match>) {
    forall i, j :: 0 <= i < j < |s| ==> s[i].score >= s[j].score
  }

  /** The matches of score v, in their order. */
  function WithScore(s: seq<Match>, v: int): seq<Match> {
    if |s| == 0 then [] else (if s[0].score == v then [s[0]] else []) + WithScore(s[1..], v)
  }

  lemma {:induction false} WithScoreAppend(a: seq<Match>, b: seq<Match>, v: int)
    ensures WithScore(a + b, v) == WithScore(a, v) + WithScore(b, v)
  {
    if |a| > 0 {
      assert (a + b)[1..] == a[1..] + b;
      WithScoreAppend(a[1..], b, v);
    } else {
      assert a + b == b;
    }
  }

  lemma {:induction false} WithScoreNone(s: seq<Match>, v: int)
    requires forall j :: 0 <= j < |s| ==> s[j].score < v
    ensures WithScore(s, v) == []
  {
    if |s| > 0 {
      WithScoreNone(s[1..], v);
    }
  }

  lemma {:induction false} InsertDescending(x: Match, s: seq<Match>)
    requires Descending(s)
    ensures Descending(InsertByScore(x, s))
  {
    if |s| > 0 && s[0].score >= x.score {
      var r, t := InsertByScore(x, s), InsertByScore(x, s[1..]);
      InsertDescending(x, s[1..]);
      assert r == [s[0]] + t;
      InsertPermutes(x, s[1..]);
      forall j | 1 <= j < |r| ensures r[0].score >= r[j].score {
        assert r[j] in multiset(t);
      }
    }
  }

  lemma {:induction false} InsertWithScore(x: Match, s: seq<Match>, v: int)
    requires Descending(s)
    ensures WithScore(InsertByScore(x, s), v) == WithScore(s, v) + WithScore([x], v)
  {
    if |s| == 0 {
      assert InsertByScore(x, s) == [x];
    } else if s[0].score >= x.score {
      InsertWithScore(x, s[1..], v);
      InsertBehind(x, s, v);
    } else {
      InsertInFront(x, s, v);
    }
  }

  lemma InsertBehind(x: Match, s: seq<Match>, v: int)
    requires |s| > 0 && s[0].score >= x.score
    requires WithScore(InsertByScore(x, s[1..]), v) == WithScore(s[1..], v) + WithScore([x], v)
    ensures WithScore(InsertByScore(x, s), v) == WithScore(s, v) + WithScore([x], v)
  {
    assert InsertByScore(x, s) == [s[0]] + InsertByScore(x, s[1..]);
    assert s == [s[0]] + s[1..];
    PrefixWithScore([s[0]], s[1..], InsertByScore(x, s[1..]), [x], v);
  }

  lemma PrefixWithScore(h: seq<Match>, rest: seq<Match>, t: seq<Match>, xs: seq<Match>, v: int)
    requires WithScore(t, v) == WithScore(rest, v) + WithScore(xs, v)
    ensures WithScore(h + t, v) == WithScore(h + rest, v) + WithScore(xs, v)
  {
    WithScoreAppend(h, t, v);
    WithScoreAppend(h, rest, v);
  }

  lemma InsertInFront(x: Match, s: seq<Match>, v: int)
    requires Descending(s) && |s| > 0 && s[0].score < x.score
    ensures WithScore(InsertByScore(x, s), v) == WithScore(s, v) + WithScore([x], v)
  {
    assert InsertByScore(x, s) == [x] + s;
    WithScoreAppend([x], s, v);
    if v == x.score {
      WithScoreNone(s, v);
    } else {
      assert WithScore([x], v) == [];
    }
  }

  /** The sort puts the highest scores first, loses and adds nothing, and is
      stable: for every score, the matches with that score appear in the
      same order as before the sort. So ties keep the index order posts,
      news, eventi, and within an index the provider's order. */
  lemma {:induction false} SortByScoreSpec(ms: seq<Match>)
    ensures Descending(SortByScore(ms))
    ensures multiset(SortByScore(ms)) == multiset(ms)
    ensures forall v :: WithScore(SortByScore(ms), v) == WithScore(ms, v)
  {
    if |ms| > 0 {
      var p, x := ms[..|ms| - 1], ms[|ms| - 1];
      SortByScoreSpec(p);
      InsertDescending(x, SortByScore(p));
      InsertPermutes(x, SortByScore(p));
      assert ms == p + [x];
      forall v ensures WithScore(SortByScore(ms), v) == WithScore(ms, v) {
        InsertWithScore(x, SortByScore(p), v);
        WithScoreAppend(p, [x], v);
      }
    }
  }

  /** posts answers with scores 9 and 7, news with 8, eventi raises: the
      merged order is 9 (posts), 8 (news), 7 (posts). */
  lemma FanOutScenario(a: Match, b: Match, c: Match)
    requires a.score == 9 && b.score == 7 && c.score == 8
    ensures SortByScore(Tagged(IndexLabels, [Some([a, b]), Some([c]), None]))
         == [Retag("posts", a), Retag("news", c), Retag("posts", b)]
  {
    var ta, tb, tc := Retag("posts", a), Retag("posts", b), Retag("news", c);
    ScenarioTagged(a, b, c);
    ScenarioSorted(ta, tb, tc);
  }

  /** The fan-out of the scenario, before the sort. */
  lemma ScenarioTagged(a: Match, b: Match, c: Match)
    ensures Tagged(IndexLabels, [Some([a, b]), Some([c]), None])
         == [Retag("posts", a), Retag("posts", b), Retag("news", c)]
  {
    var answers := [Some([a, b]), Some([c]), None];
    var ta, tb, tc := Retag("posts", a), Retag("posts", b), Retag("news", c);
    assert Tag("posts", [a, b]) == [ta, tb] by {
      assert [a, b][..1] == [a];
    }
    assert Tag("news", [c]) == [tc];
    assert IndexLabels[..1] == ["posts"] && IndexLabels[..2] == ["posts", "news"];
    assert answers[..1] == [Some([a, b])] && answers[..2] == [Some([a, b]), Some([c])];
    assert IndexLabels[..2][..1] == IndexLabels[..1] && answers[..2][..1] == answers[..1];
    assert Tagged(IndexLabels[..1], answers[..1]) == [ta, tb];
    assert Tagged(IndexLabels[..2], answers[..2]) == [ta, tb, tc];
  }

  /** The sort of the scenario: 9, 7, 8 become 9, 8, 7. */
  lemma ScenarioSorted(ta: Match, tb: Match, tc: Match)
    requires ta.score == 9 && tb.score == 7 && tc.score == 8
    ensures SortByScore([ta, tb, tc]) == [ta, tc, tb]
  {
    assert [ta, tb, tc][..2] == [ta, tb] && [ta, tb][..1] == [ta];
    assert SortByScore([ta]) == [ta];
    assert InsertByScore(tb, [ta]) == [ta, tb];
    assert InsertByScore(tc, [tb]) == [tc, tb];
    assert InsertByScore(tc, [ta, tb]) == [ta, tc, tb];
    assert SortByScore([ta, tb]) == [ta, tb];
  }
}
