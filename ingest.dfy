/** The ingestion scripts: `ingest_json` of the posts, the newsletter and the
    events, and `upsert_in_batches`. Each run reads the feed's items in order,
    skips the placeholder items whose "unid" is "-1", builds the list of
    vectors to store and only after the loop hands that list to the index.
    Posts and newsletter items are cut into chunks of 2000 characters, one
    vector per chunk; an event is one vector. The embedding service is the
    parameter `embed`; the vector index is the object `IndexSink`, which
    records the upsert calls it receives. */
module Ingest {
  import opened PyValues
  import opened Decimal
  import opened Chunking
  import opened Normalize
  import opened Dates

  /** An embedding as the service returns it. */
  type Embedding = seq<int>

  /** One record handed to the index: {"id", "values", "metadata"}. */
  datatype Vector = Vector(id: Json, values: Embedding, metadata: map<string, Json>)

  /** The chunked feeds. */
  datatype Feed = Posts | News

  /** What a chunked run leaves behind: the vectors, and n, the number of
      items it kept. */
  datatype Run = Run(vectors: seq<Vector>, n: nat)

  /** `item.get("unid") == "-1"`: a str "-1", not the int -1 nor a missing key. */
  predicate Skipped(item: Item) {
    Get(item, "unid") == JStr("-1")
  }

  /** The items a run does not skip, in feed order. */
  function Kept(items: seq<Item>): (r: seq<Item>)
    ensures |r| <= |items|
    ensures forall k :: 0 <= k < |r| ==> !Skipped(r[k]) && r[k] in items
  {
    if |items| == 0 then []
    else
      var last := items[|items| - 1];
      Kept(items[..|items| - 1]) + (if Skipped(last) then [] else [last])
  }

  /** The id of chunk idx of a document: f"{doc_id}_chunk{idx}". */
  function ChunkId(docId: string, idx: nat): string {
    docId + "_chunk" + NatToString(idx)
  }

  const PostSource: string := "confindustria_varese_post"
  const NewsSource: string := "notiziario"
  const EventSource: string := "confindustria_varese_eventi"

  function Source(feed: Feed): string {
    match feed
    case Posts => PostSource
    case News => NewsSource
  }

  /** build_text of the feed. */
  function FeedText(feed: Feed, unquote: string -> string, item: Item): Result<string> {
    match feed
    case Posts => PostText(item)
    case News => Ok(NewsText(unquote, item))
  }

  /** chunk_text(text, max_chars=2000). */
  function Chunks(text: string): seq<string> {
    ChunkText(text, MaxChars).value
  }

  function Decoded(unquote: string -> string, item: Item, f: string): Json {
    JStr(Decode(unquote, Get(item, f)))
  }

  /** The metadata of chunk idx of total: the feed's own fields, then the
      chunk, the source label and the position. */
  function ChunkMetadata(feed: Feed, unquote: string -> string, item: Item, chunk: string, idx: nat, total: nat)
    : map<string, Json>
  {
    var common := map[
      "unid" := Get(item, "unid"),
      "title" := Decoded(unquote, item, "title"),
      "date" := Get(item, "date"),
      "text" := JStr(chunk),
      "source" := JStr(Source(feed)),
      "chunk_index" := JInt(idx),
      "chunk_total" := JInt(total)];
    match feed
    case Posts =>
      common["category" := Decoded(unquote, item, "category")]
            ["categoryfull" := Decoded(unquote, item, "categoryfull")]
            ["url" := Decoded(unquote, item, "url")]
    case News =>
      common["settore" := Decoded(unquote, item, "settore")]
            ["areatematica" := Decoded(unquote, item, "areatematica")]
            ["interesse" := Decoded(unquote, item, "interesse")]
  }

  function ChunkVector(feed: Feed, unquote: string -> string, embed: string -> Embedding,
                       item: Item, chunks: seq<string>, idx: nat): Vector
    requires "unid" in item && idx < |chunks|
  {
    Vector(JStr(ChunkId(Str(item["unid"]), idx)), embed(chunks[idx]),
           ChunkMetadata(feed, unquote, item, chunks[idx], idx, |chunks|))
  }

  /** The vectors of one kept item: item["unid"] raises KeyError when the key
      is missing, build_text may raise, and otherwise there is one vector per
      chunk, in chunk order. */
  function ItemVectors(feed: Feed, unquote: string -> string, embed: string -> Embedding, item: Item)
    : Result<seq<Vector>>
  {
    if "unid" !in item then Err(KeyError("unid"))
    else
      match FeedText(feed, unquote, item)
      case Err(e) => Err(e)
      case Ok(text) =>
        var chunks := Chunks(text);
        Ok(seq(|chunks|, idx requires 0 <= idx < |chunks| => ChunkVector(feed, unquote, embed, item, chunks, idx)))
  }

  /** What the loop of a chunked ingest_json has built after reading items:
      the first exception ends the run. */
  function ChunkedRun(feed: Feed, unquote: string -> string, embed: string -> Embedding, items: seq<Item>)
    : Result<Run>
  {
    if |items| == 0 then Ok(Run([], 0))
    else
      match ChunkedRun(feed, unquote, embed, items[..|items| - 1])
      case Err(e) => Err(e)
      case Ok(run) =>
        var item := items[|items| - 1];
        if Skipped(item) then Ok(run)
        else
          match ItemVectors(feed, unquote, embed, item)
          case Err(e) => Err(e)
          case Ok(vs) => Ok(Run(run.vectors + vs, run.n + 1))
  }

  /** The vectors of the given items laid end to end, item after item. */
  function Flat(feed: Feed, unquote: string -> string, embed: string -> Embedding, kept: seq<Item>): seq<Vector>
  {
    if |kept| == 0 then []
    else
      var vs := ItemVectors(feed, unquote, embed, kept[|kept| - 1]);
      Flat(feed, unquote, embed, kept[..|kept| - 1]) + (if vs.Ok? then vs.value else [])
  }

  /** The loop of ingest_json for posts and the newsletter. */
  method BuildChunkedVectors(feed: Feed, unquote: string -> string, embed: string -> Embedding, items: seq<Item>)
    returns (r: Result<Run>)
    ensures r == ChunkedRun(feed, unquote, embed, items)
  {
    var vectors: seq<Vector> := [];
    var n: nat := 0;
    var i := 0;
    while i < |items|
      invariant 0 <= i <= |items|
      invariant ChunkedRun(feed, unquote, embed, items[..i]) == Ok(Run(vectors, n))
    {
      var item := items[i];
      ChunkedStep(feed, unquote, embed, items, i, Run(vectors, n));
      if Skipped(item) {
        i := i + 1;
        continue;
      }
      n := n + 1;
      if "unid" !in item {
        ErrorSticks(feed, unquote, embed, items, i + 1);
        return Err(KeyError("unid"));
      }
      var text := FeedText(feed, unquote, item);
      if text.Err? {
        ErrorSticks(feed, unquote, embed, items, i + 1);
        return Err(text.error);
      }
      var chunks := Chunks(text.value);
      vectors := AppendChunkVectors(feed, unquote, embed, item, chunks, vectors);
      i := i + 1;
    }
    assert items[..i] == items;
    return Ok(Run(vectors, n));
  }

  /** One more item read: a skipped item leaves the run as it was, any other
      adds its vectors and counts one, or ends the run with its exception. */
  lemma ChunkedStep(feed: Feed, unquote: string -> string, embed: string -> Embedding,
                    items: seq<Item>, i: nat, run: Run)
    requires i < |items| && ChunkedRun(feed, unquote, embed, items[..i]) == Ok(run)
    ensures var vs := ItemVectors(feed, unquote, embed, items[i]);
      ChunkedRun(feed, unquote, embed, items[..i + 1])
        == if Skipped(items[i]) then Ok(run)
           else if vs.Err? then Err(vs.error)
           else Ok(Run(run.vectors + vs.value, run.n + 1))
  {
    assert items[..i + 1][..i] == items[..i];
  }

  /** The inner loop of ingest_json: one vector per chunk of the item's
      text, appended in chunk order. */
  method AppendChunkVectors(feed: Feed, unquote: string -> string, embed: string -> Embedding,
                            item: Item, chunks: seq<string>, vectors: seq<Vector>)
    returns (r: seq<Vector>)
    requires "unid" in item && FeedText(feed, unquote, item).Ok?
    requires chunks == Chunks(FeedText(feed, unquote, item).value)
    ensures r == vectors + ItemVectors(feed, unquote, embed, item).value
  {
    ItemVectorsAt(feed, unquote, embed, item);
    ghost var all := ItemVectors(feed, unquote, embed, item).value;
    r := vectors;
    var idx := 0;
    while idx < |chunks|
      invariant 0 <= idx <= |chunks|
      invariant r == vectors + all[..idx]
    {
      r := r + [ChunkVector(feed, unquote, embed, item, chunks, idx)];
      TakeNext(all, idx);
      idx := idx + 1;
    }
    assert all[..idx] == all;
  }

  /** The vectors of an item with a unid and a text are its chunks' vectors,
      one per chunk, in chunk order. */
  lemma ItemVectorsAt(feed: Feed, unquote: string -> string, embed: string -> Embedding, item: Item)
    requires "unid" in item && FeedText(feed, unquote, item).Ok?
    ensures var vs, chunks := ItemVectors(feed, unquote, embed, item), Chunks(FeedText(feed, unquote, item).value);
      && vs.Ok? && |vs.value| == |chunks|
      && forall idx :: 0 <= idx < |chunks| ==> vs.value[idx] == ChunkVector(feed, unquote, embed, item, chunks, idx)
  {
  }

  /** An exception ends the run: once a prefix fails, every longer prefix
      fails with the same error. */
  lemma {:induction false} ErrorSticks(feed: Feed, unquote: string -> string, embed: string -> Embedding,
                                       items: seq<Item>, i: nat)
    requires i <= |items|
    requires ChunkedRun(feed, unquote, embed, items[..i]).Err?
    ensures ChunkedRun(feed, unquote, embed, items) == ChunkedRun(feed, unquote, embed, items[..i])
    decreases |items| - i
  {
    if i < |items| {
      assert items[..i + 1][..i] == items[..i];
      ErrorSticks(feed, unquote, embed, items, i + 1);
    } else {
      assert items[..i] == items;
    }
  }

  // ---------------------------------------------------------------------
  // What a chunked run produces
  // ---------------------------------------------------------------------

  /** The run succeeds exactly when every kept item yields its vectors; then
      n counts the kept items (the skipped ones not at all) and the vectors
      are those of the kept items, in item order and chunk order. */
  lemma {:induction false} ChunkedRunSpec(feed: Feed, unquote: string -> string, embed: string -> Embedding,
                                          items: seq<Item>)
    ensures var r := ChunkedRun(feed, unquote, embed, items);
      && (r.Ok? <==> forall k :: 0 <= k < |Kept(items)| ==> ItemVectors(feed, unquote, embed, Kept(items)[k]).Ok?)
      && (r.Ok? ==> r.value.n == |Kept(items)| && r.value.vectors == Flat(feed, unquote, embed, Kept(items)))
  {
    if |items| > 0 {
      var p, last := items[..|items| - 1], items[|items| - 1];
      ChunkedRunSpec(feed, unquote, embed, p);
      var kp := Kept(p);
      if Skipped(last) {
        assert Kept(items) == kp;
      } else {
        assert Kept(items) == kp + [last];
        AllKeptOkAppend(feed, unquote, embed, kp, last);
        assert (kp + [last])[..|kp|] == kp;
      }
    }
  }

  /** Every item of kp + [last] yields its vectors exactly when every item of
      kp does and last does. */
  lemma AllKeptOkAppend(feed: Feed, unquote: string -> string, embed: string -> Embedding,
                        kp: seq<Item>, last: Item)
    ensures (forall j :: 0 <= j < |kp + [last]| ==> ItemVectors(feed, unquote, embed, (kp + [last])[j]).Ok?) <==>
      (forall j :: 0 <= j < |kp| ==> ItemVectors(feed, unquote, embed, kp[j]).Ok?)
      && ItemVectors(feed, unquote, embed, last).Ok?
  {
    var k := kp + [last];
    assert forall j :: 0 <= j < |kp| ==> k[j] == kp[j];
    assert k[|kp|] == last;
  }

  /** A kept item without a "unid" key aborts the run, so nothing reaches
      the index; when every earlier kept item went through, the exception
      is the KeyError of item["unid"]. */
  lemma MissingUnidAborts(feed: Feed, unquote: string -> string, embed: string -> Embedding,
                          items: seq<Item>, i: nat)
    requires i < |items| && "unid" !in items[i]
    ensures ChunkedRun(feed, unquote, embed, items).Err?
    ensures (forall j :: 0 <= j < i ==> Skipped(items[j]) || ItemVectors(feed, unquote, embed, items[j]).Ok?)
      ==> ChunkedRun(feed, unquote, embed, items) == Err(KeyError("unid"))
  {
    assert items[..i + 1][..i] == items[..i];
    assert items[..i + 1][i] == items[i];
    ErrorSticks(feed, unquote, embed, items, i + 1);
    if forall j :: 0 <= j < i ==> Skipped(items[j]) || ItemVectors(feed, unquote, embed, items[j]).Ok? {
      EarlierGoThrough(feed, unquote, embed, items, i);
    }
  }

  /** When every item before i is skipped or builds its vectors, the run
      over them succeeds. */
  lemma EarlierGoThrough(feed: Feed, unquote: string -> string, embed: string -> Embedding,
                         items: seq<Item>, i: nat)
    requires i <= |items|
    requires forall j :: 0 <= j < i ==> Skipped(items[j]) || ItemVectors(feed, unquote, embed, items[j]).Ok?
    ensures ChunkedRun(feed, unquote, embed, items[..i]).Ok?
  {
    var p := items[..i];
    ChunkedRunSpec(feed, unquote, embed, p);
    forall k | 0 <= k < |Kept(p)|
      ensures ItemVectors(feed, unquote, embed, Kept(p)[k]).Ok?
    {
      var x := Kept(p)[k];
      assert x in p && !Skipped(x);
      var j :| 0 <= j < |p| && p[j] == x;
      assert items[j] == x;
    }
  }

  /** The text a vector carries. */
  function TextOf(v: Vector): string {
    if "text" in v.metadata && v.metadata["text"].JStr? then v.metadata["text"].s else ""
  }

  /** The vectors of a kept item cut its text: there are
      k = ceil(len(text) / 2000) of them, each carries a non-empty chunk of
      at most 2000 characters, and the chunks laid end to end give back the
      item's text. */
  lemma ItemVectorsText(feed: Feed, unquote: string -> string, embed: string -> Embedding, item: Item)
    requires ItemVectors(feed, unquote, embed, item).Ok?
    ensures FeedText(feed, unquote, item).Ok?
    ensures var vs := ItemVectors(feed, unquote, embed, item).value;
      var text := FeedText(feed, unquote, item).value;
      && (|vs| - 1) * MaxChars < |text| <= |vs| * MaxChars
      && Concat(seq(|vs|, idx requires 0 <= idx < |vs| => TextOf(vs[idx]))) == text
      && (forall idx :: 0 <= idx < |vs| ==> 0 < |TextOf(vs[idx])| <= MaxChars)
  {
    var text := FeedText(feed, unquote, item).value;
    VectorTexts(feed, unquote, embed, item);
    if |text| > 0 {
      ChunkCount(text, MaxChars);
    }
  }

  /** Vector idx of a kept item carries chunk idx of its text. */
  lemma VectorTexts(feed: Feed, unquote: string -> string, embed: string -> Embedding, item: Item)
    requires ItemVectors(feed, unquote, embed, item).Ok?
    ensures FeedText(feed, unquote, item).Ok?
    ensures var vs := ItemVectors(feed, unquote, embed, item).value;
      seq(|vs|, idx requires 0 <= idx < |vs| => TextOf(vs[idx])) == Chunks(FeedText(feed, unquote, item).value)
  {
    var vs := ItemVectors(feed, unquote, embed, item).value;
    var chunks := Chunks(FeedText(feed, unquote, item).value);
    ItemVectorsAt(feed, unquote, embed, item);
    var ts := seq(|vs|, idx requires 0 <= idx < |vs| => TextOf(vs[idx]));
    forall idx | 0 <= idx < |vs| ensures ts[idx] == chunks[idx] {
      ChunkMetadataFields(feed, unquote, item, chunks[idx], idx, |chunks|);
    }
  }

  /** Vector idx of a kept item of a chunked feed: id "{unid}_chunk{idx}",
      chunk_index idx, chunk_total the number of vectors of the item, the
      feed's source label, the item's unid, and the embedding of its own
      chunk. */
  lemma ItemVectorFields(feed: Feed, unquote: string -> string, embed: string -> Embedding, item: Item, idx: nat)
    requires ItemVectors(feed, unquote, embed, item).Ok?
    requires idx < |ItemVectors(feed, unquote, embed, item).value|
    ensures "unid" in item
    ensures var vs := ItemVectors(feed, unquote, embed, item).value;
      && vs[idx].id == JStr(ChunkId(Str(item["unid"]), idx))
      && vs[idx].metadata["chunk_index"] == JInt(idx)
      && vs[idx].metadata["chunk_total"] == JInt(|vs|)
      && vs[idx].metadata["source"] == JStr(Source(feed))
      && vs[idx].metadata["unid"] == item["unid"]
      && vs[idx].values == embed(TextOf(vs[idx]))
  {
    ItemVectorsAt(feed, unquote, embed, item);
    var chunks := Chunks(FeedText(feed, unquote, item).value);
    ChunkMetadataFields(feed, unquote, item, chunks[idx], idx, |chunks|);
  }

  /** The position and provenance fields of a chunk's metadata. */
  lemma ChunkMetadataFields(feed: Feed, unquote: string -> string, item: Item, chunk: string, idx: nat, total: nat)
    ensures var md := ChunkMetadata(feed, unquote, item, chunk, idx, total);
      && md["text"] == JStr(chunk)
      && md["chunk_index"] == JInt(idx)
      && md["chunk_total"] == JInt(total)
      && md["source"] == JStr(Source(feed))
      && md["unid"] == Get(item, "unid")
  {
  }

  /** The vectors of one item have pairwise different ids. */
  lemma ItemIdsDistinct(feed: Feed, unquote: string -> string, embed: string -> Embedding, item: Item, a: nat, b: nat)
    requires ItemVectors(feed, unquote, embed, item).Ok?
    requires a < b < |ItemVectors(feed, unquote, embed, item).value|
    ensures ItemVectors(feed, unquote, embed, item).value[a].id != ItemVectors(feed, unquote, embed, item).value[b].id
  {
    ChunkIdInjective(Str(item["unid"]), a, Str(item["unid"]), b);
  }

  /** Only the digits after the last "_chunk" can be the chunk number: two
      ids that agree end with suffixes of the same length. */
  lemma ChunkSuffixLength(u1: string, d1: string, u2: string, d2: string)
    requires AllDigits(d1) && AllDigits(d2) && |d1| <= |d2|
    requires u1 + "_chunk" + d1 == u2 + "_chunk" + d2
    ensures |d1| == |d2|
  {
    if |d1| < |d2| {
      NoSeparatorAfter(u2, d2, |u1|);
      assert false;
    }
  }

  /** Past the '_' of "_chunk", an id holds no other '_'. */
  lemma NoSeparatorAfter(u: string, d: string, i: nat)
    requires AllDigits(d) && |u| < i < |u| + 6 + |d|
    ensures (u + "_chunk" + d)[i] != '_'
  {
    if i >= |u| + 6 {
      assert (u + "_chunk" + d)[i] == d[i - |u| - 6];
    }
  }

  /** Chunk ids name one chunk of one document: "{unid}_chunk{idx}" gives
      back both the document's id and the chunk number. */
  lemma ChunkIdInjective(u1: string, i1: nat, u2: string, i2: nat)
    ensures ChunkId(u1, i1) == ChunkId(u2, i2) <==> u1 == u2 && i1 == i2
  {
    if ChunkId(u1, i1) == ChunkId(u2, i2) {
      var d1, d2 := NatToString(i1), NatToString(i2);
      if |d1| <= |d2| {
        ChunkSuffixLength(u1, d1, u2, d2);
      } else {
        ChunkSuffixLength(u2, d2, u1, d1);
      }
      var s := ChunkId(u1, i1);
      assert u1 == s[..|u1|] && u2 == s[..|u2|];
      assert d1 == s[|u1| + 6..] && d2 == s[|u2| + 6..];
      NatToStringInjective(i1, i2);
    }
  }

  // ---------------------------------------------------------------------
  // The events: one vector per item
  // ---------------------------------------------------------------------

  /** The metadata of an event's vector. */
  function EventMetadata(unquote: string -> string, item: Item, text: string, date: string): map<string, Json> {
    map[
      "unid" := Get(item, "unid"),
      "titolo" := Decoded(unquote, item, "titolo"),
      "data" := JStr(date),
      "text" := JStr(text),
      "settori" := Decoded(unquote, item, "Settori"),
      "areainteresse" := Decoded(unquote, item, "AreaInteresse"),
      "tags" := Decoded(unquote, item, "Tags"),
      "source" := JStr(EventSource)]
  }

  /** The vector of one kept event, raising as the loop body does: first
      item["unid"], then build_text, then parse_date_str(item.get("data")). */
  function EventVector(unquote: string -> string, embed: string -> Embedding, item: Item): Result<Vector>
  {
    if "unid" !in item then Err(KeyError("unid"))
    else
      match EventText(item)
      case Err(e) => Err(e)
      case Ok(text) =>
        match ParseDateStr(Get(item, "data"))
        case Err(e) => Err(e)
        case Ok(date) => Ok(Vector(item["unid"], embed(text), EventMetadata(unquote, item, text, date)))
  }

  /** What the loop of the events' ingest_json has built after reading items. */
  function EventRun(unquote: string -> string, embed: string -> Embedding, items: seq<Item>): Result<seq<Vector>>
  {
    if |items| == 0 then Ok([])
    else
      match EventRun(unquote, embed, items[..|items| - 1])
      case Err(e) => Err(e)
      case Ok(vs) =>
        var item := items[|items| - 1];
        if Skipped(item) then Ok(vs)
        else
          match EventVector(unquote, embed, item)
          case Err(e) => Err(e)
          case Ok(v) => Ok(vs + [v])
  }

  /** The loop of the events' ingest_json. */
  method BuildEventVectors(unquote: string -> string, embed: string -> Embedding, items: seq<Item>)
    returns (r: Result<seq<Vector>>)
    ensures r == EventRun(unquote, embed, items)
  {
    var vectors: seq<Vector> := [];
    var i := 0;
    while i < |items|
      invariant 0 <= i <= |items|
      invariant EventRun(unquote, embed, items[..i]) == Ok(vectors)
    {
      var item := items[i];
      assert items[..i + 1][..i] == items[..i];
      if Skipped(item) {
        i := i + 1;
        continue;
      }
      var v := EventVector(unquote, embed, item);
      if v.Err? {
        EventErrorSticks(unquote, embed, items, i + 1);
        return Err(v.error);
      }
      vectors := vectors + [v.value];
      i := i + 1;
    }
    assert items[..i] == items;
    return Ok(vectors);
  }

  lemma {:induction false} EventErrorSticks(unquote: string -> string, embed: string -> Embedding,
                                            items: seq<Item>, i: nat)
    requires i <= |items|
    requires EventRun(unquote, embed, items[..i]).Err?
    ensures EventRun(unquote, embed, items) == EventRun(unquote, embed, items[..i])
    decreases |items| - i
  {
    if i < |items| {
      assert items[..i + 1][..i] == items[..i];
      EventErrorSticks(unquote, embed, items, i + 1);
    } else {
      assert items[..i] == items;
    }
  }

  /** The events' run succeeds exactly when every kept item yields its
      vector; then there is one vector per kept item, in feed order, with
      the item's own unid as id (no chunk suffix), the whole build_text as
      text and the date in its zero-padded form. */
  lemma EventRunSpec(unquote: string -> string, embed: string -> Embedding, items: seq<Item>)
    ensures var r := EventRun(unquote, embed, items);
      && (r.Ok? <==> forall k :: 0 <= k < |Kept(items)| ==> EventVector(unquote, embed, Kept(items)[k]).Ok?)
      && (r.Ok? ==>
            && |r.value| == |Kept(items)|
            && forall k :: 0 <= k < |r.value| ==> Ok(r.value[k]) == EventVector(unquote, embed, Kept(items)[k]))
  {
    EventRunOk(unquote, embed, items);
    EventRunValues(unquote, embed, items);
  }

  /** The events' run succeeds exactly when every kept item yields its vector. */
  lemma {:induction false} EventRunOk(unquote: string -> string, embed: string -> Embedding, items: seq<Item>)
    ensures EventRun(unquote, embed, items).Ok? <==>
      forall k :: 0 <= k < |Kept(items)| ==> EventVector(unquote, embed, Kept(items)[k]).Ok?
  {
    if |items| > 0 {
      var p, last := items[..|items| - 1], items[|items| - 1];
      EventRunOk(unquote, embed, p);
      if Skipped(last) {
        assert Kept(items) == Kept(p);
      } else {
        assert Kept(items) == Kept(p) + [last];
        EventKeptOkAppend(unquote, embed, Kept(p), last);
      }
    }
  }

  /** A successful events' run holds the vectors of the kept items, one each,
      in feed order. */
  lemma {:induction false} EventRunValues(unquote: string -> string, embed: string -> Embedding, items: seq<Item>)
    ensures var r := EventRun(unquote, embed, items);
      r.Ok? ==>
        && |r.value| == |Kept(items)|
        && forall k :: 0 <= k < |r.value| ==> Ok(r.value[k]) == EventVector(unquote, embed, Kept(items)[k])
  {
    if |items| > 0 {
      var p, last := items[..|items| - 1], items[|items| - 1];
      EventRunValues(unquote, embed, p);
      var rp, r := EventRun(unquote, embed, p), EventRun(unquote, embed, items);
      if Skipped(last) {
        assert Kept(items) == Kept(p);
      } else if r.Ok? {
        assert Kept(items) == Kept(p) + [last];
        AppendAt(Kept(p), last);
        var v := EventVector(unquote, embed, last).value;
        assert r.value == rp.value + [v];
        AppendAt(rp.value, v);
      }
    }
  }

  /** Every item of kp + [last] yields its event vector exactly when every
      item of kp does and last does. */
  lemma EventKeptOkAppend(unquote: string -> string, embed: string -> Embedding, kp: seq<Item>, last: Item)
    ensures (forall j :: 0 <= j < |kp + [last]| ==> EventVector(unquote, embed, (kp + [last])[j]).Ok?) <==>
      (forall j :: 0 <= j < |kp| ==> EventVector(unquote, embed, kp[j]).Ok?)
      && EventVector(unquote, embed, last).Ok?
  {
    var k := kp + [last];
    assert forall j :: 0 <= j < |kp| ==> k[j] == kp[j];
    assert k[|kp|] == last;
  }

  /** The vector of an event: its id is the item's own unid, with no chunk
      suffix; it carries the whole build_text, embedded as a whole, and the
      date in its zero-padded form; it exists exactly when the unid is
      there, build_text succeeds and the date parses. */
  lemma EventVectorSpec(unquote: string -> string, embed: string -> Embedding, item: Item)
    ensures EventVector(unquote, embed, item).Ok? <==>
      "unid" in item && EventText(item).Ok? && ParseDateStr(Get(item, "data")).Ok?
    ensures EventVector(unquote, embed, item).Ok? ==>
      var v := EventVector(unquote, embed, item).value;
      && "unid" in item
      && v.id == item["unid"]
      && TextOf(v) == EventText(item).value
      && v.values == embed(TextOf(v))
      && v.metadata["data"] == JStr(ParseDateStr(Get(item, "data")).value)
      && v.metadata["source"] == JStr(EventSource)
  {
  }

  /** A kept event whose date is missing or is not a %Y-%m-%d date aborts
      the run, so nothing reaches the index. */
  lemma BadDateAborts(unquote: string -> string, embed: string -> Embedding, items: seq<Item>, i: nat)
    requires i < |items| && !Skipped(items[i])
    requires ParseDateStr(Get(items[i], "data")).Err?
    ensures EventRun(unquote, embed, items).Err?
  {
    EventRunSpec(unquote, embed, items);
    KeptHas(items, i);
  }

  /** Every item that is not skipped is kept. */
  lemma {:induction false} KeptHas(items: seq<Item>, i: nat)
    requires i < |items| && !Skipped(items[i])
    ensures exists k :: 0 <= k < |Kept(items)| && Kept(items)[k] == items[i]
  {
    var p := items[..|items| - 1];
    var k := Kept(items);
    if i == |items| - 1 {
      assert k[|k| - 1] == items[i];
    } else {
      KeptHas(p, i);
      var j :| 0 <= j < |Kept(p)| && Kept(p)[j] == p[i];
      assert k[j] == Kept(p)[j];
    }
  }

  // ---------------------------------------------------------------------
  // The index and the batches
  // ---------------------------------------------------------------------

  /** A vector index as the scripts use it: it records, in order, the lists
      handed to index.upsert. */
  class IndexSink {
    var upserts: seq<seq<Vector>>

    constructor ()
      ensures upserts == []
    {
      upserts := [];
    }

    /** index.upsert(batch). */
    method Upsert(batch: seq<Vector>)
      modifies this
      ensures upserts == old(upserts) + [batch]
    {
      upserts := upserts + [batch];
    }
  }

  /** What upsert_in_batches prints for a batch: its size and its number. */
  datatype Report = Report(size: nat, number: nat)

  /** The batches of upsert_in_batches: vectors[i:i+batch_size] for i in
      range(0, len(vectors), batch_size). */
  function Batches(vectors: seq<Vector>, batchSize: nat): seq<seq<Vector>>
    requires batchSize > 0
  {
    Slices(vectors, batchSize, 0)
  }

  /** The batches laid end to end are the vectors, in order; each holds
      1 to batch_size vectors, all but the last exactly batch_size; there are
      ceil(len(vectors) / batch_size) of them, and none for no vectors. */
  lemma BatchesSpec(vectors: seq<Vector>, batchSize: nat)
    requires batchSize > 0
    ensures var b := Batches(vectors, batchSize);
      && Concat(b) == vectors
      && (b == [] <==> vectors == [])
      && (forall k :: 0 <= k < |b| ==> 0 < |b[k]| <= batchSize)
      && (forall k :: 0 <= k < |b| - 1 ==> |b[k]| == batchSize)
      && (vectors != [] ==> (|b| - 1) * batchSize < |vectors| <= |b| * batchSize)
  {
    SlicesConcat(vectors, batchSize, 0);
    SlicesShape(vectors, batchSize, 0);
  }

  lemma MulAtLeast(a: nat, m: nat)
    requires a >= 1
    ensures a * m >= m
  {
    assert a * m == (a - 1) * m + m;
  }

  /** Moving the offset one batch on moves i // batch_size on by one. */
  lemma DivStep(i: nat, m: nat)
    requires m > 0
    ensures (i + m) / m == i / m + 1
  {
    var q, r := i / m, i % m;
    var q', r' := (i + m) / m, (i + m) % m;
    assert q' * m + r' == (q + 1) * m + r;
    assert (q' - q - 1) * m == r - r';
    if q' - q - 1 >= 1 {
      MulAtLeast(q' - q - 1, m);
      assert false;
    } else if q + 1 - q' >= 1 {
      MulAtLeast(q + 1 - q', m);
      assert false;
    }
  }

  /** upsert_in_batches(index, vectors, batch_size): range() raises
      ValueError for a zero step before any call, a negative step gives no
      calls, and otherwise each batch in turn is upserted and reported with
      its size and number i // batch_size + 1. */
  method UpsertInBatches(sink: IndexSink, vectors: seq<Vector>, batchSize: int) returns (r: Result<seq<Report>>)
    modifies sink
    ensures batchSize == 0 ==> r == Err(ValueError) && sink.upserts == old(sink.upserts)
    ensures batchSize < 0 ==> r == Ok([]) && sink.upserts == old(sink.upserts)
    ensures batchSize > 0 ==>
      && r.Ok?
      && sink.upserts == old(sink.upserts) + Batches(vectors, batchSize)
      && |r.value| == |Batches(vectors, batchSize)|
      && forall k :: 0 <= k < |r.value| ==> r.value[k] == Report(|Batches(vectors, batchSize)[k]|, k + 1)
  {
    if batchSize == 0 {
      return Err(ValueError);
    }
    if batchSize < 0 {
      return Ok([]);
    }
    var reports: seq<Report> := [];
    ghost var done: seq<seq<Vector>> := [];
    var i := 0;
    while i < |vectors|
      invariant 0 <= i
      invariant BatchProgress(vectors, batchSize, i, done, reports)
      invariant sink.upserts == old(sink.upserts) + done
      decreases |vectors| - i
    {
      var batch := vectors[i..Min(i + batchSize, |vectors|)];
      BatchStep(vectors, batchSize, i, done, reports);
      sink.Upsert(batch);
      reports := reports + [Report(|batch|, i / batchSize + 1)];
      done := done + [batch];
      i := i + batchSize;
    }
    BatchesDone(vectors, batchSize, i, done, reports);
    return Ok(reports);
  }

  /** The loop of upsert_in_batches at offset i: the batches sent so far are
      done, the rest are still to come, and each batch sent was reported
      with its size and number. */
  ghost predicate BatchProgress(vectors: seq<Vector>, batchSize: int, i: nat, done: seq<seq<Vector>>,
                                reports: seq<Report>)
  {
    && batchSize > 0
    && i / batchSize == |done|
    && Batches(vectors, batchSize) == done + Slices(vectors, batchSize, i)
    && |reports| == |done|
    && forall k :: 0 <= k < |reports| ==> reports[k] == Report(|done[k]|, k + 1)
  }

  /** One turn of the loop of upsert_in_batches keeps its progress. */
  lemma BatchStep(vectors: seq<Vector>, batchSize: int, i: nat, done: seq<seq<Vector>>, reports: seq<Report>)
    requires BatchProgress(vectors, batchSize, i, done, reports) && i < |vectors|
    ensures var batch := vectors[i..Min(i + batchSize, |vectors|)];
      BatchProgress(vectors, batchSize, i + batchSize, done + [batch], reports + [Report(|batch|, i / batchSize + 1)])
  {
    var batch := vectors[i..Min(i + batchSize, |vectors|)];
    assert Slices(vectors, batchSize, i) == [batch] + Slices(vectors, batchSize, i + batchSize);
    AppendAt(reports, Report(|batch|, i / batchSize + 1));
    AppendAt(done, batch);
    DivStep(i, batchSize);
  }

  /** Once the offset passes the end, every batch has been sent and reported. */
  lemma BatchesDone(vectors: seq<Vector>, batchSize: int, i: nat, done: seq<seq<Vector>>, reports: seq<Report>)
    requires BatchProgress(vectors, batchSize, i, done, reports) && i >= |vectors|
    ensures Batches(vectors, batchSize) == done
    ensures |reports| == |done|
    ensures forall k :: 0 <= k < |reports| ==> reports[k] == Report(|done[k]|, k + 1)
  {
    assert Slices(vectors, batchSize, i) == [];
  }

  // ---------------------------------------------------------------------
  // The three runs
  // ---------------------------------------------------------------------

  /** ingest_json of the posts: one upsert of all the vectors, after the
      loop; an exception in the loop leaves the index untouched. */
  method IngestPosts(sink: IndexSink, unquote: string -> string, embed: string -> Embedding, items: seq<Item>)
    returns (r: Result<Run>)
    modifies sink
    ensures r == ChunkedRun(Posts, unquote, embed, items)
    ensures r.Err? ==> sink.upserts == old(sink.upserts)
    ensures r.Ok? ==> sink.upserts == old(sink.upserts) + [r.value.vectors]
  {
    r := BuildChunkedVectors(Posts, unquote, embed, items);
    if r.Ok? {
      sink.Upsert(r.value.vectors);
    }
  }

  /** The batch size the newsletter's ingest_json passes. */
  const NewsBatchSize: nat := 40

  /** ingest_json of the newsletter: the vectors go out in batches of 40,
      after the loop; an exception in the loop leaves the index untouched. */
  method IngestNews(sink: IndexSink, unquote: string -> string, embed: string -> Embedding, items: seq<Item>)
    returns (r: Result<Run>)
    modifies sink
    ensures r == ChunkedRun(News, unquote, embed, items)
    ensures r.Err? ==> sink.upserts == old(sink.upserts)
    ensures r.Ok? ==> sink.upserts == old(sink.upserts) + Batches(r.value.vectors, NewsBatchSize)
  {
    r := BuildChunkedVectors(News, unquote, embed, items);
    if r.Ok? {
      var reports := UpsertInBatches(sink, r.value.vectors, NewsBatchSize);
    }
  }

  /** ingest_json of the events: one upsert of all the vectors, after the
      loop; an exception in the loop leaves the index untouched. */
  method IngestEvents(sink: IndexSink, unquote: string -> string, embed: string -> Embedding, items: seq<Item>)
    returns (r: Result<seq<Vector>>)
    modifies sink
    ensures r == EventRun(unquote, embed, items)
    ensures r.Err? ==> sink.upserts == old(sink.upserts)
    ensures r.Ok? ==> sink.upserts == old(sink.upserts) + [r.value]
  {
    r := BuildEventVectors(unquote, embed, items);
    if r.Ok? {
      sink.Upsert(r.value);
    }
  }
}
