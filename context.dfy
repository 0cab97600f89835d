/** The context string `prompt_with_index` builds from the recomposed
    documents: one block per document, in the documents' order, joined by a
    blank line. The multi-index script opens every block with the document's
    source. */
module Context {
  import opened PyValues
  import opened Text
  import opened Merge
  import opened Recompose

  /** The line the multi-index blocks start with, up to the source name. */
  const SourcePrefix: string := "\U{1F539} SORGENTE: "

  /** The separator between two blocks. */
  const BlockSeparator: string := "\n\n"

  /** The block of one document in the single-index script. */
  function Block(doc: Doc): (r: string)
    ensures |r| >= |doc.content|
    ensures r[|r| - |doc.content|..] == doc.content
  {
    "TITOLO: " + Str(doc.title) + "\nURL: " + Str(doc.url) + "\nDATA: " + Str(doc.date)
      + "\nCATEGORIA: " + Str(doc.category) + "\nCONTENUTO:\n" + doc.content
  }

  /** str(doc['source']) of a multi-index document; MultiContext only takes
      documents that carry a source. */
  function SourceName(doc: Doc): string {
    if doc.source.Some? then Str(doc.source.value) else ""
  }

  /** The first line of a multi-index block. */
  function SourceLine(doc: Doc): string {
    SourcePrefix + SourceName(doc) + "\n"
  }

  /** The block of one document in the multi-index script: the source line,
      then the same fields as the single-index block. */
  function SourceBlock(doc: Doc): (r: string) {
    SourceLine(doc) + Block(doc)
  }

  function Blocks(docs: seq<Doc>): (r: seq<string>)
    ensures |r| == |docs|
  {
    seq(|docs|, i requires 0 <= i < |docs| => Block(docs[i]))
  }

  predicate AllSourced(docs: seq<Doc>) {
    forall d :: d in docs ==> d.source.Some?
  }

  function SourceBlocks(docs: seq<Doc>): (r: seq<string>)
    ensures |r| == |docs|
  {
    seq(|docs|, i requires 0 <= i < |docs| => SourceBlock(docs[i]))
  }

  /** The context of the single-index script. */
  function SingleContext(docs: seq<Doc>): string {
    Join(Blocks(docs), BlockSeparator)
  }

  /** The context of the multi-index script. */
  function MultiContext(docs: seq<Doc>): string
    requires AllSourced(docs)
  {
    Join(SourceBlocks(docs), BlockSeparator)
  }

  /** Every document's block sits in the context, in the documents' order,
      after the earlier blocks and one blank line per gap. */
  lemma SingleContextHolds(docs: seq<Doc>, i: nat)
    requires i < |docs|
    ensures var o, b := JoinOffset(Blocks(docs), BlockSeparator, i), Blocks(docs)[i];
      && o + |b| <= |SingleContext(docs)|
      && SingleContext(docs)[o..o + |b|] == b
  {
    JoinAt(Blocks(docs), BlockSeparator, i);
  }

  /** What a part of a join ends with, the join holds just before the end
      of the part: with BlockEndsWithContent, the context holds every
      document's content at the end of its block. */
  lemma PartEnds(parts: seq<string>, sep: string, i: nat, t: string)
    requires i < |parts| && |t| <= |parts[i]| && parts[i][|parts[i]| - |t|..] == t
    ensures var o, b := JoinOffset(parts, sep, i), parts[i];
      && o + |b| <= |Join(parts, sep)|
      && Join(parts, sep)[o..o + |b|] == b
      && Join(parts, sep)[o + |b| - |t|..o + |b|] == t
  {
    JoinAt(parts, sep, i);
    SliceWithin(Join(parts, sep), JoinOffset(parts, sep, i), parts[i], |parts[i]| - |t|);
  }

  /** Block i of the context ends with the content of document i. */
  lemma BlockEndsWithContent(docs: seq<Doc>, i: nat)
    requires i < |docs|
    ensures Blocks(docs)[i] == Block(docs[i])
    ensures var b := Blocks(docs)[i];
      |docs[i].content| <= |b| && b[|b| - |docs[i].content|..] == docs[i].content
  {
    assert Blocks(docs)[i] == Block(docs[i]);
  }

  /** Where b sits in c at o, its tail from lo sits in c at o + lo. */
  lemma SliceWithin<T>(c: seq<T>, o: nat, b: seq<T>, lo: nat)
    requires o + |b| <= |c| && c[o..o + |b|] == b && lo <= |b|
    ensures c[o + lo..o + |b|] == b[lo..]
  {
    assert c[o..o + |b|][lo..] == c[o + lo..o + |b|];
  }

  /** In the multi-index context, the block of document i sits at its
      place in the documents' order. */
  lemma MultiContextHolds(docs: seq<Doc>, i: nat)
    requires AllSourced(docs) && i < |docs|
    ensures var o, b := JoinOffset(SourceBlocks(docs), BlockSeparator, i), SourceBlocks(docs)[i];
      && o + |b| <= |MultiContext(docs)|
      && MultiContext(docs)[o..o + |b|] == b
  {
    JoinAt(SourceBlocks(docs), BlockSeparator, i);
  }

  /** Block i of the multi-index context is the source block of document i
      and starts with its source line: with PartStarts, the context holds
      that line where the block starts. */
  lemma MultiBlockStarts(docs: seq<Doc>, i: nat)
    requires AllSourced(docs) && i < |docs|
    ensures SourceBlocks(docs)[i] == SourceBlock(docs[i])
    ensures var b, line := SourceBlocks(docs)[i], SourceLine(docs[i]);
      |line| <= |b| && b[..|line|] == line
  {
    assert SourceBlocks(docs)[i] == SourceBlock(docs[i]);
    HeadOfConcat(SourceLine(docs[i]), Block(docs[i]));
  }

  lemma HeadOfConcat(a: string, b: string)
    ensures (a + b)[..|a|] == a
  {
  }

  /** A blank line separates every block from the one before it. */
  lemma MultiBlocksApart(docs: seq<Doc>, i: nat)
    requires AllSourced(docs) && 0 < i < |docs|
    ensures var o := JoinOffset(SourceBlocks(docs), BlockSeparator, i);
      o >= |BlockSeparator| && o <= |MultiContext(docs)| && MultiContext(docs)[o - |BlockSeparator|..o] == BlockSeparator
  {
    JoinGap(SourceBlocks(docs), BlockSeparator, i);
  }

  /** What a part of a join starts with, the join holds at the part's
      offset. */
  lemma PartStarts(parts: seq<string>, sep: string, i: nat, p: string)
    requires i < |parts| && |p| <= |parts[i]| && parts[i][..|p|] == p
    ensures var o := JoinOffset(parts, sep, i);
      && o + |parts[i]| <= |Join(parts, sep)|
      && Join(parts, sep)[o..o + |parts[i]|] == parts[i]
      && Join(parts, sep)[o..o + |p|] == p
  {
    JoinAt(parts, sep, i);
    var o, c := JoinOffset(parts, sep, i), Join(parts, sep);
    assert c[o..o + |parts[i]|][..|p|] == c[o..o + |p|];
  }

  /** The separator sits just before every part but the first. */
  lemma {:induction false} JoinGap(parts: seq<string>, sep: string, i: nat)
    requires 0 < i < |parts|
    ensures JoinOffset(parts, sep, i) >= |sep|
    ensures JoinOffset(parts, sep, i) <= |Join(parts, sep)|
    ensures Join(parts, sep)[JoinOffset(parts, sep, i) - |sep|..JoinOffset(parts, sep, i)] == sep
  {
    if i == 1 {
      JoinGapFirst(parts, sep);
    } else {
      JoinGap(parts[1..], sep, i - 1);
      JoinGapNext(parts, sep, i);
    }
  }

  /** The first separator follows the first part. */
  lemma JoinGapFirst(parts: seq<string>, sep: string)
    requires 1 < |parts|
    ensures JoinOffset(parts, sep, 1) == |parts[0]| + |sep| <= |Join(parts, sep)|
    ensures Join(parts, sep)[|parts[0]|..|parts[0]| + |sep|] == sep
  {
    var rest := Join(parts[1..], sep);
    assert Join(parts, sep) == parts[0] + sep + rest;
    SliceRight(parts[0], sep + rest, |parts[0]|, |parts[0]| + |sep|);
    assert parts[0] + sep + rest == parts[0] + (sep + rest);
    SliceLeft(sep, rest);
  }

  /** A separator before part i - 1 of the later parts is a separator before
      part i of the whole join. */
  lemma JoinGapNext(parts: seq<string>, sep: string, i: nat)
    requires 1 < i < |parts|
    requires var o := JoinOffset(parts[1..], sep, i - 1);
      && o >= |sep| && o <= |Join(parts[1..], sep)|
      && Join(parts[1..], sep)[o - |sep|..o] == sep
    ensures JoinOffset(parts, sep, i) >= |sep|
    ensures JoinOffset(parts, sep, i) <= |Join(parts, sep)|
    ensures Join(parts, sep)[JoinOffset(parts, sep, i) - |sep|..JoinOffset(parts, sep, i)] == sep
  {
    var head, rest := parts[0] + sep, Join(parts[1..], sep);
    assert Join(parts, sep) == head + rest;
    var o := JoinOffset(parts[1..], sep, i - 1);
    assert JoinOffset(parts, sep, i) == |head| + o;
    SliceRight(head, rest, |head| + o - |sep|, |head| + o);
  }

  /** The multi-index search hands the context only documents with a
      source. */
  lemma MultiDocsSourced(answers: seq<Option<seq<Match>>>)
    requires |answers| == |IndexLabels|
    ensures SearchMulti(answers).Ok? ==> AllSourced(SearchMulti(answers).value)
  {
    MultiDocSources(answers);
  }
}
