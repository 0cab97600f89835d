/** The grouping step of `search_and_recompose`: the matches are read in
    order and collected in the dict `docs`, one entry per document. The
    single-index search keys an entry by the match's unid; the multi-index
    search by the string f"{source}_{unid}". An entry keeps the metadata of
    the match that created it, and its `chunks` dict maps each chunk_index
    to the text of the last match that had it. Python dicts remember the
    order in which their keys were first inserted; both dicts here do too. */
module Grouping {
  import opened PyValues
  import opened Merge

  /** Which search_and_recompose: the single-index one or the multi-index one. */
  datatype Mode = Single | Multi

  /** f"{source}_{unid}". */
  function MultiKey(source: Json, unid: Json): string {
    Str(source) + "_" + Str(unid)
  }

  /** The key of the entry a match belongs to. */
  function Key(mode: Mode, md: map<string, Json>): Json {
    match mode
    case Single => Get(md, "unid")
    case Multi => JStr(MultiKey(Get(md, SourceKey), Get(md, "unid")))
  }

  function ChunkIndex(m: Match): Json {
    Get(m.metadata, "chunk_index")
  }

  function MatchText(m: Match): Json {
    Get(m.metadata, "text")
  }

  /** One entry of docs: the metadata of its first match, and its chunks
      dict as its keys in insertion order and its key-to-text map. */
  datatype Group = Group(first: map<string, Json>, keys: seq<Json>, chunks: map<Json, Json>)

  /** The dict docs: its keys in insertion order, and its entries. */
  datatype Docs = Docs(order: seq<Json>, groups: map<Json, Group>)

  predicate Distinct(s: seq<Json>) {
    forall a, b :: 0 <= a < b < |s| ==> s[a] != s[b]
  }

  ghost predicate GroupOk(g: Group) {
    Distinct(g.keys) && forall c :: c in g.chunks <==> c in g.keys
  }

  /** The insertion order lists every key once. */
  ghost predicate DocsOk(d: Docs) {
    && Distinct(d.order)
    && (forall k :: k in d.groups <==> k in d.order)
    && forall k :: k in d.groups ==> GroupOk(d.groups[k])
  }

  /** chunks[idx] = text. */
  function PutChunk(g: Group, idx: Json, text: Json): Group {
    Group(g.first, if idx in g.chunks then g.keys else g.keys + [idx], g.chunks[idx := text])
  }

  /** One turn of the grouping loop. */
  function AddMatch(mode: Mode, d: Docs, m: Match): Docs {
    var key := Key(mode, m.metadata);
    var g := if key in d.groups then d.groups[key] else Group(m.metadata, [], map[]);
    Docs(if key in d.groups then d.order else d.order + [key],
         d.groups[key := PutChunk(g, ChunkIndex(m), MatchText(m))])
  }

  /** docs after the grouping loop has read the matches. */
  function GroupAll(mode: Mode, ms: seq<Match>): Docs
  {
    if |ms| == 0 then Docs([], map[]) else AddMatch(mode, GroupAll(mode, ms[..|ms| - 1]), ms[|ms| - 1])
  }

  /** Both dicts list each of their keys once, in insertion order. */
  lemma {:induction false} GroupAllOk(mode: Mode, ms: seq<Match>)
    ensures DocsOk(GroupAll(mode, ms))
  {
    if |ms| > 0 {
      var p := GroupAll(mode, ms[..|ms| - 1]);
      GroupAllOk(mode, ms[..|ms| - 1]);
      var d := GroupAll(mode, ms);
      var key := Key(mode, ms[|ms| - 1].metadata);
      forall k | k in d.groups ensures GroupOk(d.groups[k]) {
        if k != key {
          assert d.groups[k] == p.groups[k];
        }
      }
    }
  }

  /** A match can be filed: its entry key and its chunk_index can both be
      dict keys. In the multi-index search the entry key is a str, so only
      the chunk_index can fail. */
  predicate Fileable(mode: Mode, m: Match) {
    Hashable(Key(mode, m.metadata)) && Hashable(ChunkIndex(m))
  }

  predicate AllFileable(mode: Mode, ms: seq<Match>) {
    forall i :: 0 <= i < |ms| ==> Fileable(mode, ms[i])
  }

  lemma FileableStep(mode: Mode, ms: seq<Match>)
    requires |ms| > 0 && AllFileable(mode, ms[..|ms| - 1])
    ensures AllFileable(mode, ms) <==> Fileable(mode, ms[|ms| - 1])
  {
    if Fileable(mode, ms[|ms| - 1]) {
      forall i | 0 <= i < |ms| ensures Fileable(mode, ms[i]) {
        if i < |ms| - 1 {
          assert ms[i] == ms[..|ms| - 1][i];
        }
      }
    }
  }

  /** One more match that can be filed extends the grouping by one turn. */
  lemma FiledNext(mode: Mode, ms: seq<Match>, i: nat, d: Docs)
    requires i < |ms| && AllFileable(mode, ms[..i]) && d == GroupAll(mode, ms[..i]) && Fileable(mode, ms[i])
    ensures AllFileable(mode, ms[..i + 1]) && GroupAll(mode, ms[..i + 1]) == AddMatch(mode, d, ms[i])
  {
    assert ms[..i + 1][..i] == ms[..i];
    FileableStep(mode, ms[..i + 1]);
  }

  /** The grouping loop of search_and_recompose, on the dicts docs and
      chunks. */
  method GroupMatches(mode: Mode, ms: seq<Match>) returns (r: Result<Docs>)
    ensures r.Ok? <==> AllFileable(mode, ms)
    ensures r.Ok? ==> r.value == GroupAll(mode, ms)
    ensures r.Err? ==> r.error == TypeError
  {
    var order: seq<Json> := [];
    var groups: map<Json, Group> := map[];
    var i := 0;
    while i < |ms|
      invariant 0 <= i <= |ms|
      invariant AllFileable(mode, ms[..i]) && Docs(order, groups) == GroupAll(mode, ms[..i])
    {
      if !Hashable(Key(mode, ms[i].metadata)) || !Hashable(ChunkIndex(ms[i])) {
        FileableAt(mode, ms, i);
        return Err(TypeError);
      }
      FiledNext(mode, ms, i, Docs(order, groups));
      order, groups := FileMatch(mode, order, groups, ms[i]);
      i := i + 1;
    }
    assert ms[..i] == ms;
    r := Ok(Docs(order, groups));
  }

  /** One turn of the grouping loop: opens the entry of the match's key if
      it is new, then writes the match's text under its chunk_index. */
  method FileMatch(mode: Mode, order: seq<Json>, groups: map<Json, Group>, m: Match)
    returns (order': seq<Json>, groups': map<Json, Group>)
    ensures Docs(order', groups') == AddMatch(mode, Docs(order, groups), m)
  {
    var key := Key(mode, m.metadata);
    var g: Group;
    order' := order;
    if key in groups {
      g := groups[key];
    } else {
      g := Group(m.metadata, [], map[]);
      order' := order + [key];
    }
    groups' := groups[key := PutChunk(g, ChunkIndex(m), MatchText(m))];
  }

  lemma FileableAt(mode: Mode, ms: seq<Match>, i: nat)
    requires i < |ms| && !Fileable(mode, ms[i])
    ensures !AllFileable(mode, ms)
  {
  }

  /** In the multi-index search the entry key is the str f"{source}_{unid}",
      so a match can be filed exactly when its chunk_index can be a dict
      key, whatever its unid is; the single-index search also needs a
      hashable unid. */
  lemma FileableModes(m: Match)
    ensures Fileable(Multi, m) <==> Hashable(ChunkIndex(m))
    ensures Fileable(Single, m) <==> Hashable(Get(m.metadata, "unid")) && Hashable(ChunkIndex(m))
  {
  }

  // ---------------------------------------------------------------------
  // What the grouping keeps
  // ---------------------------------------------------------------------

  /** ms[j] is the first match of its entry. */
  predicate FirstOfKey(mode: Mode, ms: seq<Match>, j: int) {
    0 <= j < |ms| && forall i :: 0 <= i < j ==> Key(mode, ms[i].metadata) != Key(mode, ms[j].metadata)
  }

  /** No later match of the same entry has the same chunk_index as ms[j]. */
  predicate LastOfChunk(mode: Mode, ms: seq<Match>, j: int) {
    0 <= j < |ms| &&
    forall i :: j < i < |ms| ==>
      Key(mode, ms[i].metadata) != Key(mode, ms[j].metadata) || ChunkIndex(ms[i]) != ChunkIndex(ms[j])
  }

  /** Every match lands in the entry of its key, under its chunk_index. */
  lemma {:induction false} GroupHas(mode: Mode, ms: seq<Match>, j: nat)
    requires j < |ms|
    ensures Key(mode, ms[j].metadata) in GroupAll(mode, ms).groups
    ensures ChunkIndex(ms[j]) in GroupAll(mode, ms).groups[Key(mode, ms[j].metadata)].chunks
  {
    if j < |ms| - 1 {
      var p := ms[..|ms| - 1];
      GroupHas(mode, p, j);
      assert p[j] == ms[j];
    }
  }

  /** Every entry is the entry of some match. */
  lemma {:induction false} GroupKeysFrom(mode: Mode, ms: seq<Match>, k: Json)
    requires k in GroupAll(mode, ms).groups
    ensures exists j :: 0 <= j < |ms| && Key(mode, ms[j].metadata) == k
  {
    var p, m := ms[..|ms| - 1], ms[|ms| - 1];
    if k != Key(mode, m.metadata) {
      GroupKeysFrom(mode, p, k);
      var j :| 0 <= j < |p| && Key(mode, p[j].metadata) == k;
      assert ms[j] == p[j];
    }
  }

  /** Every chunk of an entry is the chunk_index of some match of the entry. */
  lemma {:induction false} GroupChunksFrom(mode: Mode, ms: seq<Match>, k: Json, c: Json)
    requires k in GroupAll(mode, ms).groups && c in GroupAll(mode, ms).groups[k].chunks
    ensures exists j :: 0 <= j < |ms| && Key(mode, ms[j].metadata) == k && ChunkIndex(ms[j]) == c
  {
    var p, m := ms[..|ms| - 1], ms[|ms| - 1];
    if k != Key(mode, m.metadata) || c != ChunkIndex(m) {
      GroupChunksFrom(mode, p, k, c);
      var j :| 0 <= j < |p| && Key(mode, p[j].metadata) == k && ChunkIndex(p[j]) == c;
      assert ms[j] == p[j];
    }
  }

  /** The metadata an entry keeps is that of one of the matches. */
  lemma {:induction false} GroupFirstFrom(mode: Mode, ms: seq<Match>, k: Json)
    requires k in GroupAll(mode, ms).groups
    ensures exists j :: 0 <= j < |ms| && GroupAll(mode, ms).groups[k].first == ms[j].metadata
  {
    var p, m := ms[..|ms| - 1], ms[|ms| - 1];
    if k in GroupAll(mode, p).groups {
      GroupFirstFrom(mode, p, k);
      var j :| 0 <= j < |p| && GroupAll(mode, p).groups[k].first == p[j].metadata;
      assert ms[j] == p[j];
    }
  }

  /** A key that no match has produced is not an entry. */
  lemma {:induction false} KeyNotYetSeen(mode: Mode, ms: seq<Match>, k: Json)
    requires forall i :: 0 <= i < |ms| ==> Key(mode, ms[i].metadata) != k
    ensures k !in GroupAll(mode, ms).groups
  {
    if |ms| > 0 {
      KeyNotYetSeen(mode, ms[..|ms| - 1], k);
    }
  }

  /** An entry keeps the metadata of its first match, so in the multi-index
      search its unid, source, title, url, date and category are those of its
      highest-scoring match. */
  lemma {:induction false} GroupFirst(mode: Mode, ms: seq<Match>, j: nat)
    requires FirstOfKey(mode, ms, j)
    ensures Key(mode, ms[j].metadata) in GroupAll(mode, ms).groups
    ensures GroupAll(mode, ms).groups[Key(mode, ms[j].metadata)].first == ms[j].metadata
  {
    var p := ms[..|ms| - 1];
    var k := Key(mode, ms[j].metadata);
    if j < |ms| - 1 {
      FirstOfKeyBefore(mode, ms, j);
      GroupFirst(mode, p, j);
      AddMatchKeepsFirst(mode, GroupAll(mode, p), ms[|ms| - 1], k);
    } else {
      assert forall i :: 0 <= i < |p| ==> p[i] == ms[i];
      KeyNotYetSeen(mode, p, k);
      AddMatchOpens(mode, GroupAll(mode, p), ms[j]);
    }
  }

  /** A first match before the last one is a first match among the earlier
      matches. */
  lemma FirstOfKeyBefore(mode: Mode, ms: seq<Match>, j: nat)
    requires FirstOfKey(mode, ms, j) && j < |ms| - 1
    ensures FirstOfKey(mode, ms[..|ms| - 1], j) && ms[..|ms| - 1][j] == ms[j]
  {
    var p := ms[..|ms| - 1];
    assert forall i :: 0 <= i <= j ==> p[i] == ms[i];
  }

  /** A later match leaves the first metadata of an open entry alone. */
  lemma AddMatchKeepsFirst(mode: Mode, d: Docs, m: Match, k: Json)
    requires k in d.groups
    ensures k in AddMatch(mode, d, m).groups && AddMatch(mode, d, m).groups[k].first == d.groups[k].first
  {
  }

  /** A match with a new key opens its entry with its own metadata. */
  lemma AddMatchOpens(mode: Mode, d: Docs, m: Match)
    requires Key(mode, m.metadata) !in d.groups
    ensures Key(mode, m.metadata) in AddMatch(mode, d, m).groups
    ensures AddMatch(mode, d, m).groups[Key(mode, m.metadata)].first == m.metadata
  {
  }

  /** Last write wins: the text of chunk c of an entry is that of the last
      match of the entry with chunk_index c. */
  lemma {:induction false} GroupLastWrite(mode: Mode, ms: seq<Match>, j: nat)
    requires LastOfChunk(mode, ms, j)
    ensures Key(mode, ms[j].metadata) in GroupAll(mode, ms).groups
    ensures ChunkIndex(ms[j]) in GroupAll(mode, ms).groups[Key(mode, ms[j].metadata)].chunks
    ensures GroupAll(mode, ms).groups[Key(mode, ms[j].metadata)].chunks[ChunkIndex(ms[j])] == MatchText(ms[j])
  {
    var p := ms[..|ms| - 1];
    if j < |ms| - 1 {
      assert LastOfChunk(mode, p, j) by {
        assert forall i :: 0 <= i < |p| ==> p[i] == ms[i];
      }
      GroupLastWrite(mode, p, j);
      assert p[j] == ms[j];
    }
  }

  /** The entries come out in the order in which their first matches came. */
  lemma {:induction false} GroupOrder(mode: Mode, ms: seq<Match>, a: nat, b: nat, ja: nat, jb: nat)
    requires a < b < |GroupAll(mode, ms).order|
    requires FirstOfKey(mode, ms, ja) && Key(mode, ms[ja].metadata) == GroupAll(mode, ms).order[a]
    requires FirstOfKey(mode, ms, jb) && Key(mode, ms[jb].metadata) == GroupAll(mode, ms).order[b]
    ensures ja < jb
  {
    var p, m := ms[..|ms| - 1], ms[|ms| - 1];
    var d, dp := GroupAll(mode, ms), GroupAll(mode, p);
    OrderStep(mode, ms);
    OrderedIsEntry(mode, p, a);
    FirstBeforeLast(mode, ms, ja);
    if b < |dp.order| {
      assert d.order[a] == dp.order[a] && d.order[b] == dp.order[b];
      OrderedIsEntry(mode, p, b);
      FirstBeforeLast(mode, ms, jb);
      FirstOfKeyBefore(mode, ms, ja);
      FirstOfKeyBefore(mode, ms, jb);
      GroupOrder(mode, p, a, b, ja, jb);
    } else {
      // order[b] is the entry the last match opened
      assert d.order[b] == Key(mode, m.metadata) && Key(mode, m.metadata) !in dp.groups;
      if jb < |ms| - 1 {
        SeenBeforeLast(mode, ms, jb);
        assert false;
      }
    }
  }

  /** The last match appends its key to the order exactly when it opens an
      entry. */
  lemma OrderStep(mode: Mode, ms: seq<Match>)
    requires |ms| > 0
    ensures var dp, k := GroupAll(mode, ms[..|ms| - 1]), Key(mode, ms[|ms| - 1].metadata);
      GroupAll(mode, ms).order == if k in dp.groups then dp.order else dp.order + [k]
  {
  }

  /** Every key in the order is an entry. */
  lemma OrderedIsEntry(mode: Mode, ms: seq<Match>, a: nat)
    requires a < |GroupAll(mode, ms).order|
    ensures GroupAll(mode, ms).order[a] in GroupAll(mode, ms).groups
  {
    GroupAllOk(mode, ms);
  }

  /** A first match whose key the earlier matches already opened is not the
      last match. */
  lemma FirstBeforeLast(mode: Mode, ms: seq<Match>, j: nat)
    requires FirstOfKey(mode, ms, j)
    requires Key(mode, ms[j].metadata) in GroupAll(mode, ms[..|ms| - 1]).groups
    ensures j < |ms| - 1
  {
    var p := ms[..|ms| - 1];
    if j == |ms| - 1 {
      assert forall i :: 0 <= i < |p| ==> p[i] == ms[i];
      KeyNotYetSeen(mode, p, Key(mode, ms[j].metadata));
      assert false;
    }
  }

  /** A match before the last one has opened its entry by then. */
  lemma SeenBeforeLast(mode: Mode, ms: seq<Match>, j: nat)
    requires j < |ms| - 1
    ensures Key(mode, ms[j].metadata) in GroupAll(mode, ms[..|ms| - 1]).groups
  {
    var p := ms[..|ms| - 1];
    assert p[j] == ms[j];
    GroupHas(mode, p, j);
  }

  /** On matches sorted by descending score, every entry's first match is
      its best one, and the entries come out by non-increasing best score. */
  lemma EntriesByBestScore(mode: Mode, ms: seq<Match>, a: nat, b: nat, ja: nat, jb: nat)
    requires Descending(ms)
    requires a < b < |GroupAll(mode, ms).order|
    requires FirstOfKey(mode, ms, ja) && Key(mode, ms[ja].metadata) == GroupAll(mode, ms).order[a]
    requires FirstOfKey(mode, ms, jb) && Key(mode, ms[jb].metadata) == GroupAll(mode, ms).order[b]
    ensures ms[ja].score >= ms[jb].score
    ensures forall i :: 0 <= i < |ms| && Key(mode, ms[i].metadata) == Key(mode, ms[ja].metadata) ==>
      ms[ja].score >= ms[i].score
  {
    GroupOrder(mode, ms, a, b, ja, jb);
  }

  // ---------------------------------------------------------------------
  // The multi-index key
  // ---------------------------------------------------------------------

  /** None of the three labels holds the separator '_'. */
  lemma LabelsWithoutSeparator()
    ensures forall l :: l in IndexLabels ==> '_' !in l
  {
  }

  /** f"{source}_{unid}" tells sources apart as long as no source name holds
      '_': the first '_' of the key ends the source name. */
  lemma MultiKeyInjective(s1: string, u1: Json, s2: string, u2: Json)
    requires '_' !in s1 && '_' !in s2
    ensures MultiKey(JStr(s1), u1) == MultiKey(JStr(s2), u2) <==> s1 == s2 && Str(u1) == Str(u2)
  {
    var k1, k2 := MultiKey(JStr(s1), u1), MultiKey(JStr(s2), u2);
    if k1 == k2 {
      if |s1| < |s2| {
        SeparatorAt(s1, u1, s2, u2);
        assert false;
      } else if |s2| < |s1| {
        SeparatorAt(s2, u2, s1, u1);
        assert false;
      }
      assert s1 == k1[..|s1|] && s2 == k2[..|s2|];
      assert Str(u1) == k1[|s1| + 1..] && Str(u2) == k2[|s2| + 1..];
    }
  }

  /** Where the shorter source name ends, its key has the separator and the
      longer one's key a character of the name. */
  lemma SeparatorAt(s1: string, u1: Json, s2: string, u2: Json)
    requires '_' !in s2 && |s1| < |s2|
    ensures MultiKey(JStr(s1), u1)[|s1|] == '_'
    ensures MultiKey(JStr(s2), u2)[|s1|] != '_'
  {
    assert MultiKey(JStr(s2), u2)[|s1|] == s2[|s1|];
  }

  /** Matches from two different indices never share an entry of the
      multi-index docs, whatever their unids. */
  lemma SourcesApart(m1: Match, m2: Match, i1: nat, i2: nat)
    requires i1 < |IndexLabels| && i2 < |IndexLabels| && i1 != i2
    requires Get(m1.metadata, SourceKey) == JStr(IndexLabels[i1])
    requires Get(m2.metadata, SourceKey) == JStr(IndexLabels[i2])
    ensures Key(Multi, m1.metadata) != Key(Multi, m2.metadata)
  {
    MultiKeyInjective(IndexLabels[i1], Get(m1.metadata, "unid"), IndexLabels[i2], Get(m2.metadata, "unid"));
  }

  /** With a source name holding '_', two different (source, unid) pairs
      would share a key. */
  lemma SeparatorInSourceCollides()
    ensures MultiKey(JStr("a_b"), JStr("c")) == MultiKey(JStr("a"), JStr("b_c"))
  {
  }
}
