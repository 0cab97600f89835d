/** The recomposition step of `search_and_recompose` and the two searches
    end to end. For every entry of `docs`, in insertion order, the chunk
    texts are taken by `sorted(chunks.keys())` and joined with "\n"; the
    document keeps the metadata of the entry's first match. The single-index
    search groups the index's matches by unid; the multi-index search tags,
    merges and sorts the matches of the three indices first and groups them
    by f"{source}_{unid}". */
module Recompose {
  import opened PyValues
  import opened Text
  import opened Chunking
  import opened Merge
  import opened Grouping

  // ---------------------------------------------------------------------
  // sorted(chunks.keys())
  // ---------------------------------------------------------------------

  /** Python's < on two str: code point by code point, a proper prefix
      before the longer string. */
  predicate StrLess(a: string, b: string) {
    |b| > 0 && (|a| == 0 || a[0] < b[0] || (a[0] == b[0] && StrLess(a[1..], b[1..])))
  }

  lemma {:induction false} StrLessIrreflexive(a: string)
    ensures !StrLess(a, a)
  {
    if |a| > 0 {
      StrLessIrreflexive(a[1..]);
    }
  }

  lemma {:induction false} StrLessAsymmetric(a: string, b: string)
    requires StrLess(a, b)
    ensures !StrLess(b, a)
  {
    if |a| > 0 && a[0] == b[0] {
      StrLessAsymmetric(a[1..], b[1..]);
    }
  }

  lemma {:induction false} StrLessTransitive(a: string, b: string, c: string)
    requires StrLess(a, b) && StrLess(b, c)
    ensures StrLess(a, c)
  {
    if |a| > 0 && a[0] == b[0] && b[0] == c[0] {
      StrLessTransitive(a[1..], b[1..], c[1..]);
    }
  }

  lemma {:induction false} StrLessTotal(a: string, b: string)
    requires a != b
    ensures StrLess(a, b) || StrLess(b, a)
  {
    if |a| > 0 && |b| > 0 && a[0] == b[0] {
      assert a == [a[0]] + a[1..] && b == [b[0]] + b[1..];
      StrLessTotal(a[1..], b[1..]);
    }
  }

  /** The order sorted() puts two chunk_index keys in: ints by value, strs
      by StrLess. No other pair of keys can be compared. */
  predicate Below(a: Json, b: Json) {
    (a.JInt? && b.JInt? && a.i < b.i) || (a.JStr? && b.JStr? && StrLess(a.s, b.s))
  }

  /** Two keys sorted() can compare with each other. */
  predicate SameKind(a: Json, b: Json) {
    (a.JInt? && b.JInt?) || (a.JStr? && b.JStr?)
  }

  lemma BelowOrder(a: Json, b: Json, c: Json)
    ensures !Below(a, a)
    ensures Below(a, b) ==> !Below(b, a)
    ensures Below(a, b) && Below(b, c) ==> Below(a, c)
    ensures SameKind(a, b) && a != b ==> Below(a, b) || Below(b, a)
  {
    if a.JStr? {
      StrLessIrreflexive(a.s);
      if b.JStr? {
        if StrLess(a.s, b.s) {
          StrLessAsymmetric(a.s, b.s);
          if c.JStr? && StrLess(b.s, c.s) {
            StrLessTransitive(a.s, b.s, c.s);
          }
        }
        if a != b {
          StrLessTotal(a.s, b.s);
        }
      }
    }
  }

  /** sorted() of these keys raises no TypeError: there is at most one
      key, or they are all ints, or all strs. */
  predicate Sortable(ks: seq<Json>) {
    |ks| <= 1 || (forall k :: k in ks ==> k.JInt?) || (forall k :: k in ks ==> k.JStr?)
  }

  /** Strictly ascending; the keys of a dict are distinct, so sorted() of
      them is strictly ascending. */
  predicate Ascending(s: seq<Json>) {
    forall i, j :: 0 <= i < j < |s| ==> Below(s[i], s[j])
  }

  function InsertKey(x: Json, s: seq<Json>): seq<Json> {
    if |s| == 0 then [x]
    else if Below(x, s[0]) then [x] + s
    else [s[0]] + InsertKey(x, s[1..])
  }

  /** sorted(keys), as an insertion sort. */
  function SortKeys(ks: seq<Json>): seq<Json> {
    if |ks| == 0 then [] else InsertKey(ks[|ks| - 1], SortKeys(ks[..|ks| - 1]))
  }

  lemma {:induction false} InsertKeyPermutes(x: Json, s: seq<Json>)
    ensures multiset(InsertKey(x, s)) == multiset(s) + multiset{x}
  {
    if |s| > 0 && !Below(x, s[0]) {
      InsertKeyPermutes(x, s[1..]);
      assert s == [s[0]] + s[1..];
    }
  }

  /** Sorting neither loses nor adds a key. */
  lemma {:induction false} SortKeysPermutes(ks: seq<Json>)
    ensures multiset(SortKeys(ks)) == multiset(ks)
  {
    if |ks| > 0 {
      var p := ks[..|ks| - 1];
      SortKeysPermutes(p);
      InsertKeyPermutes(ks[|ks| - 1], SortKeys(p));
      assert ks == p + [ks[|ks| - 1]];
    }
  }

  lemma {:induction false} InsertKeyAscending(x: Json, s: seq<Json>)
    requires Ascending(s) && x !in s
    requires forall y :: y in s ==> SameKind(x, y)
    ensures Ascending(InsertKey(x, s))
  {
    if |s| > 0 {
      if Below(x, s[0]) {
        forall j | 0 <= j < |s| ensures Below(x, s[j]) {
          BelowOrder(x, s[0], s[j]);
        }
      } else {
        BelowOrder(x, s[0], x);
        var t := InsertKey(x, s[1..]);
        InsertKeyAscending(x, s[1..]);
        InsertKeyPermutes(x, s[1..]);
        forall j | 0 <= j < |t| ensures Below(s[0], t[j]) {
          assert t[j] in multiset(s[1..]) + multiset{x};
        }
      }
    }
  }

  /** On keys sorted() accepts, the sort is strictly ascending and a
      permutation of the keys. */
  lemma {:induction false} SortKeysSpec(ks: seq<Json>)
    requires Distinct(ks) && Sortable(ks)
    ensures Ascending(SortKeys(ks))
    ensures multiset(SortKeys(ks)) == multiset(ks)
  {
    SortKeysPermutes(ks);
    if |ks| > 0 {
      var p, x := ks[..|ks| - 1], ks[|ks| - 1];
      assert Distinct(p) && Sortable(p);
      SortKeysSpec(p);
      LastNotEarlier(ks);
      SortKeysMembers(p);
      forall y | y in SortKeys(p) ensures SameKind(x, y) {
        assert y in multiset(p);
        if |ks| > 1 {
          assert x in ks && y in ks;
        }
      }
      InsertKeyAscending(x, SortKeys(p));
    }
  }

  lemma LastNotEarlier(ks: seq<Json>)
    requires Distinct(ks) && |ks| > 0
    ensures ks[|ks| - 1] !in ks[..|ks| - 1]
  {
  }

  /** There is only one ascending arrangement of a set of keys, so sorted()
      is pinned down by its contract. */
  lemma {:induction false} AscendingUnique(a: seq<Json>, b: seq<Json>)
    requires Ascending(a) && Ascending(b)
    requires forall x :: x in a <==> x in b
    ensures a == b
  {
    if |a| > 0 && |b| > 0 {
      HeadsAgree(a, b);
      forall x ensures x in a[1..] <==> x in b[1..] {
        if x in a[1..] {
          TailMember(a, b, x);
        }
        if x in b[1..] {
          TailMember(b, a, x);
        }
      }
      AscendingUnique(a[1..], b[1..]);
      assert a == [a[0]] + a[1..] && b == [b[0]] + b[1..];
    } else if |a| > 0 {
      SameMembersNonEmpty(a, b);
      assert false;
    } else if |b| > 0 {
      SameMembersNonEmpty(b, a);
      assert false;
    }
  }

  lemma SameMembersNonEmpty(a: seq<Json>, b: seq<Json>)
    requires |a| > 0 && forall x :: x in a <==> x in b
    ensures |b| > 0
  {
    assert a[0] in b;
  }

  /** Two ascending arrangements of the same keys start with the same key. */
  lemma HeadsAgree(a: seq<Json>, b: seq<Json>)
    requires Ascending(a) && Ascending(b) && |a| > 0 && |b| > 0
    requires forall x :: x in a <==> x in b
    ensures a[0] == b[0]
  {
    assert a[0] in a && b[0] in b;
    var i :| 0 <= i < |b| && b[i] == a[0];
    var j :| 0 <= j < |a| && a[j] == b[0];
    BelowOrder(a[0], b[0], a[0]);
    BelowOrder(b[0], a[0], b[0]);
  }

  lemma TailMember(a: seq<Json>, b: seq<Json>, x: Json)
    requires Ascending(a) && Ascending(b) && |a| > 0 && |b| > 0 && a[0] == b[0]
    requires forall y :: y in a <==> y in b
    requires x in a[1..]
    ensures x in b[1..]
  {
    var i :| 0 <= i < |a| - 1 && a[1..][i] == x;
    assert a[i + 1] == x;
    BelowOrder(a[0], x, a[0]);
    assert x in b;
    var k :| 0 <= k < |b| && b[k] == x;
    assert b[1..][k - 1] == x;
  }

  /** The sort keeps exactly the keys it was given. */
  lemma SortKeysMembers(ks: seq<Json>)
    ensures forall k :: k in SortKeys(ks) <==> k in ks
  {
    SortKeysPermutes(ks);
    forall k ensures k in SortKeys(ks) <==> k in ks {
      assert k in SortKeys(ks) <==> k in multiset(SortKeys(ks));
      assert k in ks <==> k in multiset(ks);
    }
  }

  // ---------------------------------------------------------------------
  // One document
  // ---------------------------------------------------------------------

  /** A recomposed document, as appended to recomposed_docs; the
      single-index search writes no "source". */
  datatype Doc = Doc(unid: Json, source: Option<Json>, title: Json, url: Json, date: Json,
                     category: Json, content: string)

  /** Every key listed for an entry's chunks has a text. */
  predicate ChunksListed(g: Group) {
    forall k :: k in g.keys ==> k in g.chunks
  }

  /** [chunks[i] for i in ks]. */
  function Texts(g: Group, ks: seq<Json>): (r: seq<Json>)
    requires forall k :: k in ks ==> k in g.chunks
    ensures |r| == |ks|
  {
    seq(|ks|, i requires 0 <= i < |ks| => g.chunks[ks[i]])
  }

  predicate AllStr(vs: seq<Json>) {
    forall v :: v in vs ==> v.JStr?
  }

  function Strs(vs: seq<Json>): (r: seq<string>)
    requires AllStr(vs)
    ensures |r| == |vs|
  {
    seq(|vs|, i requires 0 <= i < |vs| => vs[i].s)
  }

  /** "\n".join(texts): a text that is not a str raises TypeError. */
  function JoinTexts(vs: seq<Json>): Result<string> {
    if AllStr(vs) then Ok(Join(Strs(vs), "\n")) else Err(TypeError)
  }

  /** "\n".join([chunks[i] for i in sorted(chunks.keys())]). */
  function Content(g: Group): Result<string>
    requires ChunksListed(g)
  {
    if !Sortable(g.keys) then Err(TypeError)
    else
      SortKeysMembers(g.keys);
      JoinTexts(Texts(g, SortKeys(g.keys)))
  }

  /** The document one entry of docs recomposes into. */
  function RecomposeDoc(mode: Mode, key: Json, g: Group): Result<Doc>
    requires ChunksListed(g)
  {
    match Content(g)
    case Err(e) => Err(e)
    case Ok(c) =>
      var md := g.first;
      match mode
      case Single =>
        Ok(Doc(key, None, Get(md, "title"), Get(md, "url"), Get(md, "date"), Get(md, "category"), c))
      case Multi =>
        Ok(Doc(Get(md, "unid"), Some(Get(md, SourceKey)), Get(md, "title"), Get(md, "url"), Get(md, "date"),
               Get(md, "category"), c))
  }

  /** The content is the entry's texts listed by ascending chunk_index,
      whichever ascending listing of the keys one takes; it fails exactly
      when the keys cannot be compared or a text is not a str. */
  lemma ContentAscending(g: Group, ks: seq<Json>)
    requires ChunksListed(g) && Distinct(g.keys) && Sortable(g.keys)
    requires Ascending(ks) && forall x :: x in ks <==> x in g.keys
    ensures Content(g) == JoinTexts(Texts(g, ks))
  {
    SortKeysSpec(g.keys);
    SortKeysMembers(g.keys);
    AscendingUnique(SortKeys(g.keys), ks);
  }

  lemma ContentFails(g: Group)
    requires ChunksListed(g) && Distinct(g.keys)
    ensures Content(g).Err? <==> !Sortable(g.keys) || exists k :: k in g.keys && !g.chunks[k].JStr?
    ensures Content(g).Err? ==> Content(g) == Err(TypeError)
  {
    if Sortable(g.keys) {
      var ks := SortKeys(g.keys);
      SortKeysMembers(g.keys);
      var ts := Texts(g, ks);
      if exists k :: k in g.keys && !g.chunks[k].JStr? {
        var k :| k in g.keys && !g.chunks[k].JStr?;
        var i :| 0 <= i < |ks| && ks[i] == k;
        assert ts[i] == g.chunks[k];
        assert !AllStr(ts);
      } else {
        forall v | v in ts ensures v.JStr? {
          var i :| 0 <= i < |ts| && ts[i] == v;
          assert ks[i] in g.keys;
        }
      }
    }
  }

  /** The chunk positions 0..n-1. */
  function Positions(n: nat): (r: seq<Json>)
    ensures |r| == n
  {
    seq(n, i requires 0 <= i < n => JInt(i))
  }

  lemma {:induction false} ConcatLength(parts: seq<string>)
    ensures |Concat(parts)| == TotalLength(parts)
  {
    if |parts| > 0 {
      ConcatLength(parts[1..]);
    }
  }

  /** When every chunk 0..k-1 of a text came back, the content is the
      chunks joined with "\n": one character longer than the text per
      cut, so not the text itself when it was cut at all. */
  lemma AllChunksPresent(g: Group, t: string)
    requires ChunksListed(g) && Distinct(g.keys)
    requires var cs := ChunkText(t, MaxChars).value;
      && (forall x :: x in g.keys <==> x in Positions(|cs|))
      && forall i :: 0 <= i < |cs| ==> JInt(i) in g.chunks && g.chunks[JInt(i)] == JStr(cs[i])
    ensures var cs := ChunkText(t, MaxChars).value;
      && Content(g) == Ok(Join(cs, "\n"))
      && (|cs| > 1 ==> |Join(cs, "\n")| == |t| + |cs| - 1 && Join(cs, "\n") != t)
  {
    var cs := ChunkText(t, MaxChars).value;
    var ps := Positions(|cs|);
    assert Sortable(g.keys) by {
      if |g.keys| > 1 {
        forall k | k in g.keys ensures k.JInt? {
          assert k in ps;
        }
      }
    }
    ContentAscending(g, ps);
    var ts := Texts(g, ps);
    assert forall i :: 0 <= i < |ts| ==> ts[i] == JStr(cs[i]);
    assert Strs(ts) == cs;
    if |cs| > 1 {
      JoinLength(cs, "\n");
      ConcatLength(cs);
    }
  }

  /** A group holding chunks 0 and 2 only, met in the order 2, 0: the content
      is chunk 0, a newline and chunk 2, with nothing for the missing chunk 1. */
  lemma GapScenario(first: map<string, Json>, a: string, b: string)
    ensures var g := Group(first, [JInt(2), JInt(0)], map[JInt(0) := JStr(a), JInt(2) := JStr(b)]);
      Content(g) == Ok(a + "\n" + b)
  {
    var g := Group(first, [JInt(2), JInt(0)], map[JInt(0) := JStr(a), JInt(2) := JStr(b)]);
    var ks := [JInt(0), JInt(2)];
    assert forall x :: x in ks <==> x in g.keys;
    assert Sortable(g.keys) && Distinct(g.keys) && ChunksListed(g) && Ascending(ks);
    ContentAscending(g, ks);
    assert Texts(g, ks) == [JStr(a), JStr(b)];
    assert Strs(Texts(g, ks)) == [a, b];
    assert JoinTexts(Texts(g, ks)) == Ok(Join([a, b], "\n"));
    assert [a, b][1..] == [b];
    assert Join([a, b], "\n") == a + "\n" + b;
  }

  // ---------------------------------------------------------------------
  // All documents
  // ---------------------------------------------------------------------

  /** Every entry listed in keys exists and lists its chunks. */
  predicate EntriesListed(groups: map<Json, Group>, keys: seq<Json>) {
    forall k :: k in keys ==> k in groups && ChunksListed(groups[k])
  }

  /** recomposed_docs after the recomposition loop has read the entries
      keys: the first entry that fails raises, and nothing is returned. */
  function RecomposeKeys(mode: Mode, groups: map<Json, Group>, keys: seq<Json>): Result<seq<Doc>>
    requires EntriesListed(groups, keys)
  {
    if |keys| == 0 then Ok([])
    else
      var k := keys[|keys| - 1];
      match RecomposeKeys(mode, groups, keys[..|keys| - 1])
      case Err(e) => Err(e)
      case Ok(ds) =>
        match RecomposeDoc(mode, k, groups[k])
        case Err(e) => Err(e)
        case Ok(doc) => Ok(ds + [doc])
  }

  /** The recomposition loop over docs.items(). */
  method RecomposeDocs(mode: Mode, d: Docs) returns (r: Result<seq<Doc>>)
    requires EntriesListed(d.groups, d.order)
    ensures r == RecomposeKeys(mode, d.groups, d.order)
  {
    var docs: seq<Doc> := [];
    var i := 0;
    while i < |d.order|
      invariant 0 <= i <= |d.order|
      invariant EntriesListed(d.groups, d.order[..i])
      invariant RecomposeKeys(mode, d.groups, d.order[..i]) == Ok(docs)
    {
      RecomposeStep(mode, d.groups, d.order, i, docs);
      var key := d.order[i];
      var doc := RecomposeDoc(mode, key, d.groups[key]);
      if doc.Err? {
        RecomposeErrorSticks(mode, d.groups, d.order, i + 1);
        return Err(doc.error);
      }
      docs := docs + [doc.value];
      i := i + 1;
    }
    assert d.order[..i] == d.order;
    return Ok(docs);
  }

  /** One more entry read: its document is appended, or its exception ends
      the recomposition. */
  lemma RecomposeStep(mode: Mode, groups: map<Json, Group>, keys: seq<Json>, i: nat, ds: seq<Doc>)
    requires i < |keys| && EntriesListed(groups, keys) && EntriesListed(groups, keys[..i])
    requires RecomposeKeys(mode, groups, keys[..i]) == Ok(ds)
    ensures keys[i] in groups && ChunksListed(groups[keys[i]]) && EntriesListed(groups, keys[..i + 1])
    ensures var doc := RecomposeDoc(mode, keys[i], groups[keys[i]]);
      RecomposeKeys(mode, groups, keys[..i + 1]) == if doc.Err? then Err(doc.error) else Ok(ds + [doc.value])
  {
    assert keys[..i + 1][..i] == keys[..i];
  }

  lemma {:induction false} RecomposeErrorSticks(mode: Mode, groups: map<Json, Group>, keys: seq<Json>, i: nat)
    requires i <= |keys| && EntriesListed(groups, keys)
    requires RecomposeKeys(mode, groups, keys[..i]).Err?
    ensures RecomposeKeys(mode, groups, keys) == RecomposeKeys(mode, groups, keys[..i])
    decreases |keys| - i
  {
    if i < |keys| {
      assert keys[..i + 1][..i] == keys[..i];
      RecomposeErrorSticks(mode, groups, keys, i + 1);
    } else {
      assert keys[..i] == keys;
    }
  }

  /** One document per entry, in the entries' order, each recomposed from
      its own entry; the recomposition fails exactly when some entry does. */
  lemma RecomposeKeysSpec(mode: Mode, groups: map<Json, Group>, keys: seq<Json>)
    requires EntriesListed(groups, keys)
    ensures var r := RecomposeKeys(mode, groups, keys);
      && (r.Ok? <==> forall i :: 0 <= i < |keys| ==> RecomposeDoc(mode, keys[i], groups[keys[i]]).Ok?)
      && (r.Ok? ==> |r.value| == |keys|)
      && (r.Ok? ==> forall i :: 0 <= i < |keys| ==> r.value[i] == RecomposeDoc(mode, keys[i], groups[keys[i]]).value)
  {
    RecomposeKeysOk(mode, groups, keys);
    if RecomposeKeys(mode, groups, keys).Ok? {
      RecomposeKeysValues(mode, groups, keys);
    }
  }

  /** The recomposition fails exactly when some entry does. */
  lemma {:induction false} RecomposeKeysOk(mode: Mode, groups: map<Json, Group>, keys: seq<Json>)
    requires EntriesListed(groups, keys)
    ensures RecomposeKeys(mode, groups, keys).Ok?
      <==> forall i :: 0 <= i < |keys| ==> RecomposeDoc(mode, keys[i], groups[keys[i]]).Ok?
  {
    if |keys| > 0 {
      var p, k := keys[..|keys| - 1], keys[|keys| - 1];
      RecomposeKeysOk(mode, groups, p);
      assert forall i :: 0 <= i < |p| ==> p[i] == keys[i];
    }
  }

  /** A successful recomposition holds one document per entry, each
      recomposed from its own entry. */
  lemma {:induction false} RecomposeKeysValues(mode: Mode, groups: map<Json, Group>, keys: seq<Json>)
    requires EntriesListed(groups, keys) && RecomposeKeys(mode, groups, keys).Ok?
    ensures var r := RecomposeKeys(mode, groups, keys).value;
      && |r| == |keys|
      && forall i :: 0 <= i < |keys| ==> RecomposeDoc(mode, keys[i], groups[keys[i]]) == Ok(r[i])
  {
    if |keys| > 0 {
      var p, k := keys[..|keys| - 1], keys[|keys| - 1];
      RecomposeKeysValues(mode, groups, p);
      var ds, doc := RecomposeKeys(mode, groups, p).value, RecomposeDoc(mode, k, groups[k]).value;
      var r := RecomposeKeys(mode, groups, keys).value;
      assert r == ds + [doc];
      forall i | 0 <= i < |keys|
        ensures RecomposeDoc(mode, keys[i], groups[keys[i]]) == Ok(r[i])
      {
        if i < |p| {
          assert p[i] == keys[i];
          assert r[i] == ds[i];
        }
      }
    }
  }

  // ---------------------------------------------------------------------
  // The two searches
  // ---------------------------------------------------------------------

  lemma GroupedEntriesListed(mode: Mode, ms: seq<Match>)
    ensures EntriesListed(GroupAll(mode, ms).groups, GroupAll(mode, ms).order)
  {
    GroupAllOk(mode, ms);
  }

  /** The single-index search_and_recompose on the matches the index
      returned: the grouping loop raises TypeError on a unid or chunk_index
      that cannot be a dict key, before any entry is recomposed. */
  function SearchSingle(ms: seq<Match>): Result<seq<Doc>> {
    if !AllFileable(Single, ms) then Err(TypeError)
    else
      var d := GroupAll(Single, ms);
      GroupedEntriesListed(Single, ms);
      RecomposeKeys(Single, d.groups, d.order)
  }

  method SearchAndRecompose(ms: seq<Match>) returns (r: Result<seq<Doc>>)
    ensures r == SearchSingle(ms)
  {
    var g := GroupMatches(Single, ms);
    if g.Err? {
      return Err(g.error);
    }
    GroupedEntriesListed(Single, ms);
    r := RecomposeDocs(Single, g.value);
  }

  /** The multi-index search_and_recompose; answers[i] is what the index
      IndexLabels[i] returned, or None when its query raised. The grouping
      loop raises TypeError on a chunk_index that cannot be a dict key. */
  function SearchMulti(answers: seq<Option<seq<Match>>>): Result<seq<Doc>>
    requires |answers| == |IndexLabels|
  {
    var ms := SortByScore(Tagged(IndexLabels, answers));
    if !AllFileable(Multi, ms) then Err(TypeError)
    else
      var d := GroupAll(Multi, ms);
      GroupedEntriesListed(Multi, ms);
      RecomposeKeys(Multi, d.groups, d.order)
  }

  method SearchAndRecomposeMulti(answers: seq<Option<seq<Match>>>) returns (r: Result<seq<Doc>>)
    requires |answers| == |IndexLabels|
    ensures r == SearchMulti(answers)
  {
    var all := FanOut(IndexLabels, answers);
    all := SortByScore(all);
    var g := GroupMatches(Multi, all);
    if g.Err? {
      return Err(g.error);
    }
    GroupedEntriesListed(Multi, all);
    r := RecomposeDocs(Multi, g.value);
  }

  /** A match whose unid (single-index) or chunk_index cannot be a dict key
      makes the search raise TypeError, whatever the other matches are. */
  lemma UnfileableRaises(ms: seq<Match>, i: nat, answers: seq<Option<seq<Match>>>)
    requires |answers| == |IndexLabels|
    ensures i < |ms| && !Fileable(Single, ms[i]) ==> SearchSingle(ms) == Err(TypeError)
    ensures var all := SortByScore(Tagged(IndexLabels, answers));
      i < |all| && !Hashable(ChunkIndex(all[i])) ==> SearchMulti(answers) == Err(TypeError)
  {
    if i < |ms| && !Fileable(Single, ms[i]) {
      FileableAt(Single, ms, i);
    }
    var all := SortByScore(Tagged(IndexLabels, answers));
    if i < |all| && !Hashable(ChunkIndex(all[i])) {
      FileableAt(Multi, all, i);
    }
  }

  /** A unid that is a list, as list-of-strings metadata comes back: the
      single-index search raises TypeError at `unid not in docs`, while the
      same match files in the multi-index search, whose key is a str. */
  lemma ListUnidRaises()
    ensures var m := Match(1, map["unid" := JOpaque(true, false, "['a']"), "chunk_index" := JInt(0), "text" := JStr("x")]);
      && SearchSingle([m]) == Err(TypeError)
      && Fileable(Multi, m)
  {
    var m := Match(1, map["unid" := JOpaque(true, false, "['a']"), "chunk_index" := JInt(0), "text" := JStr("x")]);
    FileableAt(Single, [m], 0);
  }

  /** Every document of the multi-index search names, as its source, an
      index that answered, and carries the metadata of one of the matches
      that index returned. */
  lemma MultiDocSources(answers: seq<Option<seq<Match>>>)
    requires |answers| == |IndexLabels|
    ensures var r := SearchMulti(answers);
      r.Ok? ==> (forall i :: 0 <= i < |r.value| ==>
                   exists j :: 0 <= j < |IndexLabels| && answers[j].Some? && r.value[i].source == Some(JStr(IndexLabels[j])))
  {
    var ms := SortByScore(Tagged(IndexLabels, answers));
    AllFromAnswered(answers);
    GroupedEntriesListed(Multi, ms);
    if SearchMulti(answers).Ok? {
      assert AllFileable(Multi, ms);
      var d := GroupAll(Multi, ms);
      assert SearchMulti(answers) == RecomposeKeys(Multi, d.groups, d.order);
      RecomposedSources(answers, ms);
    }
  }

  /** Every match of ms is tagged with an index that answered. */
  ghost predicate FromAnswered(answers: seq<Option<seq<Match>>>, ms: seq<Match>) {
    forall x :: 0 <= x < |ms| ==>
      exists j :: (0 <= j < |answers| && j < |IndexLabels| && answers[j].Some?
        && Get(ms[x].metadata, SourceKey) == JStr(IndexLabels[j]))
  }

  /** Every match of the merged, sorted list is tagged with an index that
      answered. */
  lemma AllFromAnswered(answers: seq<Option<seq<Match>>>)
    requires |answers| == |IndexLabels|
    ensures FromAnswered(answers, SortByScore(Tagged(IndexLabels, answers)))
  {
    var ms := SortByScore(Tagged(IndexLabels, answers));
    forall x | 0 <= x < |ms|
      ensures exists j :: (0 <= j < |answers| && j < |IndexLabels| && answers[j].Some?
        && Get(ms[x].metadata, SourceKey) == JStr(IndexLabels[j]))
    {
      SortedFromAnswered(answers, x);
    }
  }

  /** When every match is tagged with an index that answered, so is every
      document recomposed from their grouping. */
  lemma RecomposedSources(answers: seq<Option<seq<Match>>>, ms: seq<Match>)
    requires |answers| == |IndexLabels|
    requires FromAnswered(answers, ms)
    requires EntriesListed(GroupAll(Multi, ms).groups, GroupAll(Multi, ms).order)
    ensures var d := GroupAll(Multi, ms);
      var r := RecomposeKeys(Multi, d.groups, d.order);
      r.Ok? ==> (forall i :: 0 <= i < |r.value| ==>
                   exists j :: 0 <= j < |IndexLabels| && answers[j].Some? && r.value[i].source == Some(JStr(IndexLabels[j])))
  {
    var d := GroupAll(Multi, ms);
    var r := RecomposeKeys(Multi, d.groups, d.order);
    if r.Ok? {
      RecomposeKeysValues(Multi, d.groups, d.order);
      forall i | 0 <= i < |r.value|
        ensures exists j :: 0 <= j < |IndexLabels| && answers[j].Some? && r.value[i].source == Some(JStr(IndexLabels[j]))
      {
        var k := d.order[i];
        GroupFirstFrom(Multi, ms, k);
        var x :| 0 <= x < |ms| && d.groups[k].first == ms[x].metadata;
        assert RecomposeDoc(Multi, k, d.groups[k]) == Ok(r.value[i]);
      }
    }
  }

  /** Match x of the merged, sorted list is tagged with an index that
      answered. */
  lemma SortedFromAnswered(answers: seq<Option<seq<Match>>>, x: nat)
    requires |answers| == |IndexLabels|
    requires x < |SortByScore(Tagged(IndexLabels, answers))|
    ensures exists j :: (0 <= j < |IndexLabels| && answers[j].Some? &&
      Get(SortByScore(Tagged(IndexLabels, answers))[x].metadata, SourceKey) == JStr(IndexLabels[j]))
  {
    var t := Tagged(IndexLabels, answers);
    SortByScoreSpec(t);
    var y := SortByScore(t)[x];
    assert y in multiset(SortByScore(t));
    assert y in t;
    TaggedSpec(IndexLabels, answers);
  }
}
