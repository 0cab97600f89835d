# Confindustria Varese RAG scripts: ingestion and retrieval core

This project models the logic the RAG scripts run between the JSON feeds and the
OpenAI and Pinecone services. It proves properties of that model.

The ingestion side covers three scripts. `importaPosts.py` (and its copy in
`prompPosts.py`), `importaNotiziario.py` and `importaEventi.py` each read a feed
of items. They skip the placeholder items whose `unid` is `"-1"`. Each builds a
text for every item with `build_text`. Posts and newsletter items are cut into
chunks of 2000 characters with `chunk_text`, and one vector is built per chunk,
with id `"{unid}_chunk{idx}"` and position metadata. An event gives one vector,
whose id is its `unid` and whose date goes through `parse_date_str`. Only after
the loop is the list handed to the index: in one `upsert` call, or in batches of
40 by `upsert_in_batches`.

The retrieval side is `search_and_recompose` in its two forms:

- **single-index** (`prompPosts.py`): groups the matches of one index by `unid`;
- **multi-index** (`promptConfVa.py`): queries the three indices `posts`, `news`
  and `eventi`, tags every match with its index, drops an index whose query
  raised, sorts all matches by score (stable, highest first), then groups them
  by `f"{source}_{unid}"`.

In both forms, an entry keeps the metadata of its first match, and a later match
with the same `chunk_index` overwrites that chunk's text. Each entry becomes one
document whose content is its chunk texts in ascending `chunk_index`, joined by
`"\n"`. `prompt_with_index` then joins one text block per document with blank
lines.

Modules, one per file:

- `PyValues`: JSON values, `dict.get`, truthiness, whether a value can be a dict key, `str()`, the exceptions.
- `Decimal`: decimal rendering and reading of digits.
- `Text`: `join`, `split`, the `[p for p in parts if p]` filter, `replace("%20", " ")`.
- `Chunking`: `chunk_text` and the slicing it shares with the batcher.
- `Normalize`: `decode` and the three `build_text` variants.
- `Dates`: `parse_date` and `parse_date_str`.
- `Ingest`: the ingestion loops, the index as a recording sink, `upsert_in_batches`.
- `Merge`: tagging, fan-out over the indices, the stable sort by score.
- `Grouping`: the `docs` dict and its `chunks` dicts.
- `Recompose`: `sorted(chunks.keys())`, the join, both searches end to end.
- `Context`: the context string.

Three services are parameters of the model:

- the embedding service is a function `embed: string -> seq<int>`;
- `urllib.parse.unquote` is a function `unquote: string -> string`;
- what each index returns for the query is an input: its matches, or `None`
  when its query raised.

Python dicts keep their keys in insertion order. The model writes each dict as
that order (a `seq`) plus a `map`.

## Model

| member | source | states |
|---|---|---|
| Chunking.ChunkText | prompPosts.py:54-55 | A zero `max_chars` raises `ValueError` (zero `range` step). A negative one gives `[]`. A positive one gives chunks that concatenate back to the text exactly. Each chunk is non-empty and at most `max_chars` long, and every chunk but the last is exactly `max_chars` long. There are no chunks exactly when the text is empty. |
| Chunking.SlicesConcat | importaNotiziario.py:59-61 | The slices `s[i:i+m]` for `i` in `range(start, len(s), m)`, laid end to end, are `s[start:]`: no gap, no overlap, no reordering. |
| Chunking.SlicesShape | importaPosts.py:83-88 | No slice is empty or longer than `m`. All slices but the last have length `m`. There are ceil((len−start)/m) of them, and none exactly when nothing is left. |
| Chunking.SlicesAt | prompPosts.py:55 | Slice k is `s[start+k*m : start+k*m+m]`, clipped at the end. |
| Chunking.ChunkCount | importaPosts.py:83-88 | A non-empty text gives n chunks with (n−1)·m < len(text) ≤ n·m, i.e. ceil(len/m). |
| Chunking.ChunkScenario | prompPosts.py:76 | A 4500-character text gives three chunks: characters 0–2000, 2000–4000 and 4000–4500. |
| Text.NonEmpty | prompPosts.py:45 | The filter `[p for p in parts if p]` keeps no empty part and never grows the list. |
| Text.SplitJoin | prompPosts.py:45 | Splitting the `"\n"` join of non-empty, newline-free parts on `"\n"` gives the parts back. |
| Text.JoinAt | promptConfVa.py:164 | Part i of a join sits at its offset, after the earlier parts and one separator per gap. |
| Text.JoinLength | promptConfVa.py:140 | Helper for the offsets of `Text.JoinAt`. A join is as long as its parts plus one separator per gap. |
| Text.ReplacePct20 | prompPosts.py:35-36 | `s.replace("%20", " ")` leaves no `"%20"` in its result. |
| Text.ReplacePct20Leaves | prompPosts.py:36 | Every `"%20"` occurrence is consumed; the result never holds one. |
| Text.ReplacePct20Identity | prompPosts.py:36 | A string without `"%20"` is returned unchanged. |
| Text.ReplacePct20Idempotent | prompPosts.py:36 | Replacing twice is replacing once. |
| Text.JoinFreeOfPct20 | prompPosts.py:45 | Joining parts free of `"%20"` with `"\n"` creates none. |
| Decimal.NatToString | prompPosts.py:81 | `str(idx)` is a non-empty string of ASCII digits, with no leading zero. |
| Decimal.NatToStringRoundTrip | prompPosts.py:81 | Reading the printed digits back gives the number. |
| Decimal.NatToStringInjective | prompPosts.py:81 | Two numbers print the same exactly when they are equal. |
| Normalize.Pct20PartsSpec | prompPosts.py:37-44 | The parts list exists exactly when every field is a str or absent. `.replace` on any other value raises `AttributeError`. Part i is then field i with `"%20"` replaced, and an absent field gives `""`. |
| Normalize.Pct20TextSpec | prompPosts.py:34-45 | About `Normalize.Pct20Text`. Posts and events `build_text` fails exactly when a field is present and not a str. Otherwise the text holds no `"%20"`. It is empty exactly when every decoded field is. If no field holds a newline, splitting the text on `"\n"` gives back exactly the non-empty decoded fields, in declared order. |
| Normalize.PostTextNullTitle | prompPosts.py:38 | A `title` present as JSON null makes posts `build_text` raise `AttributeError`. `item.get("title", "")` returns `None` there, not `""`. |
| Normalize.TruthyFields | importaNotiziario.py:38-47 | The fields the newsletter filter keeps are present with a truthy raw value. |
| Normalize.TruthyDecodedSpec | importaNotiziario.py:47 | There is one segment per truthy raw field, in declared order, and each is `Normalize.Decode` (the script's `decode`) of that field. |
| Normalize.NewsTextSpec | importaNotiziario.py:36-47 | About `Normalize.NewsText`, the newsletter `build_text`. When the decoded fields hold no newline, splitting the newsletter text on `"\n"` gives one segment per truthy field (title, subject, content, circolareinbreve, settore, areatematica, interesse, in that order), each the decoded field. |
| Normalize.NewsTextEmptySegments | importaNotiziario.py:29-33 | `decode` gives `""` for a non-str, so a truthy non-str field still takes a line. Title 7 and subject true give the text `"\n"`. |
| Dates.ParseYmd | importaPosts.py:76 | `strptime(s, "%Y-%m-%d")` either gives a valid proleptic Gregorian date with a four-digit year, or raises `ValueError`. |
| Dates.ParseDate | importaPosts.py:75-77 | A non-str raises `TypeError`. A str is accepted exactly when `strptime` accepts it, and otherwise raises `ValueError`. The result is year·10000 + month·100 + day, from which `//10000`, `//100 % 100` and `% 100` give back year, month and day. |
| Dates.CompactValue | importaPosts.py:77 | `int(strftime("%Y%m%d"))` is year·10000 + month·100 + day, and the three fields can be read back from it. |
| Dates.ParseDateStr | importaPosts.py:79-81 | A non-str raises `TypeError`. A str is accepted exactly when `strptime` accepts it, giving the zero-padded `YYYY-MM-DD` spelling. |
| Dates.CanonicalRoundTrip | importaPosts.py:79-81 | `strptime` reads the zero-padded spelling of a valid date back as the same date. |
| Dates.ParseDateStrIdempotent | importaEventi.py:70-72 | `parse_date_str` applied to its own output returns that output. |
| Dates.ParseDateAgrees | importaEventi.py:66-72 | `parse_date` of the string `parse_date_str` produced is `parse_date` of the original. |
| Dates.ValidDatesAccepted | importaPosts.py:75-77 | Every valid date with a four-digit year is accepted in its padded form and gives YYYYMMDD. |
| Dates.LenientForms | importaPosts.py:76 | `strptime` also accepts a one-digit month and day, and a blank before a one-digit day: `2024-1-5` and `2024-10- 7`. |
| Dates.RejectedDays | importaEventi.py:67 | Impossible days raise `ValueError`: 2023-02-30, and 1900-02-29 (a century that is not a leap year). 2024-02-29 is accepted. |
| Dates.RejectedForms | importaEventi.py:71 | The year 0000, month 13 and a trailing extra digit all raise `ValueError`. |
| Ingest.Kept | prompPosts.py:67-70 | The kept items are items of the feed, none of them with `unid` `"-1"`. |
| Ingest.BuildChunkedVectors | prompPosts.py:65-95 | The nested loop builds exactly the run `ChunkedRun` describes: the same vectors, the same `n`, or the same exception. |
| Ingest.ChunkedRunSpec | prompPosts.py:67-95 | The run succeeds exactly when every kept item yields its vectors. `n` is then the number of kept items, so a skipped item does not count. The vectors are those of the kept items, item after item and chunk after chunk. |
| Ingest.MissingUnidAborts | importaPosts.py:97-130 | A kept item without a `unid` key aborts the whole run with an exception, so nothing reaches the index. When every earlier kept item is skipped or builds its vectors, the run ends in exactly the `KeyError` of `item["unid"]`. |
| Ingest.ItemVectorsText | prompPosts.py:74-87 | About `Ingest.ItemVectors`, the vectors built for one item. A kept item's vectors carry non-empty chunks of at most 2000 characters. Laid end to end they give back its `build_text`. There are ceil(len/2000) of them. |
| Ingest.ItemVectorFields | importaNotiziario.py:99-113 | Vector idx of an item has id `"{unid}_chunk{idx}"`, `chunk_index` idx and `chunk_total` equal to the item's vector count. It also has the feed's source label, the item's unid, and the embedding of its own chunk. |
| Ingest.ItemIdsDistinct | prompPosts.py:78-81 | The vectors of one item have pairwise different ids. |
| Ingest.ChunkIdInjective | importaPosts.py:113 | `"{unid}_chunk{idx}"` determines both the unid and idx. |
| Ingest.BuildEventVectors | importaEventi.py:79-107 | The events loop builds exactly the run `EventRun` describes. |
| Ingest.EventRunSpec | importaEventi.py:81-107 | The events run succeeds exactly when every kept item yields its vector. There is then one vector per kept item, in feed order, and skipped items give none. |
| Ingest.EventVectorSpec | importaEventi.py:85-106 | An event's vector exists exactly when the unid is present, `build_text` succeeds and the date parses. Its id is the unid with no chunk suffix. Its text is the whole `build_text`, embedded whole. `data` is the zero-padded date and `source` is `confindustria_varese_eventi`. |
| Ingest.BadDateAborts | importaEventi.py:91-112 | A kept event with a missing or malformed date aborts the run, so `index.upsert` is never reached. |
| Ingest.BatchesSpec | importaNotiziario.py:64-68 | The batches concatenate back to the vectors. Each holds 1 to `batch_size` vectors, and all but the last exactly `batch_size`. There are ceil(len/batch_size) of them, and none for no vectors. |
| Ingest.DivStep | importaNotiziario.py:69 | Helper for the batch numbers. Moving the offset on by one batch moves `i // batch_size` on by one. |
| Ingest.IndexSink.Upsert | importaPosts.py:130 | The index records one more upsert call, with this batch. |
| Ingest.IndexSink.UpsertInBatches | importaNotiziario.py:64-69 | A zero batch size raises `ValueError` before any call. A negative one makes no call. Otherwise the index receives exactly the batches, in order, and batch k is reported with its size and the number k+1 (`i//batch_size + 1`). |
| Ingest.IndexSink.IngestPosts | importaPosts.py:91-131 | The result is the posts run. On an exception the index is untouched. Otherwise it receives all vectors in a single upsert. |
| Ingest.IndexSink.IngestNews | importaNotiziario.py:76-119 | The result is the newsletter run. On an exception the index is untouched. Otherwise it receives the vectors in batches of 40. |
| Ingest.IndexSink.IngestEvents | importaEventi.py:75-113 | The result is the events run. On an exception the index is untouched. Otherwise it receives all vectors in a single upsert. |
| Merge.Tag | promptConfVa.py:99-100 | Every match of an index is tagged with the index's label, keeping its order and count. |
| Merge.FanOut | promptConfVa.py:88-105 | The loop over the indices builds exactly `Tagged`: the tagged matches of the indices that answered, index after index. |
| Merge.TaggedSpec | promptConfVa.py:91-105 | The merged list has as many matches as the answering indices returned. Each carries, under `__source_index`, the label of an index that answered. |
| Merge.FailedIndexAbsent | promptConfVa.py:91-105 | With distinct labels, an index whose query raised contributes no match. Every match of every index that answered is in the merged list, tagged with that index's name. |
| Merge.AnsweredKept | promptConfVa.py:99-102 | Match k of an index that answered is in the merged list, tagged with that index's name. |
| Merge.SortByScoreSpec | promptConfVa.py:108 | About `Merge.SortByScore`, the sort by descending score. The sorted list has non-increasing scores and is a permutation of the merged list. It is stable: for every score, the matches with that score keep their order. |
| Merge.FanOutScenario | promptConfVa.py:91-108 | Posts scoring 9 and 7, news scoring 8 and eventi raising: the merged order is 9 (posts), 8 (news), 7 (posts). |
| Grouping.GroupAllOk | prompPosts.py:119-131 | `docs` and each `chunks` dict list each of their keys once, in insertion order. |
| Grouping.GroupMatches | promptConfVa.py:111-133 | The grouping loop succeeds exactly when every match's entry key and `chunk_index` can be dict keys. It then builds exactly `Grouping.GroupAll`: the entries, their insertion order, their first metadata and their chunks. Otherwise it raises `TypeError`. |
| Grouping.FileableModes | prompPosts.py:121-131 | In the multi-index search a match can be filed exactly when its `chunk_index` is hashable, because the key is a str. The single-index search also needs a hashable `unid`. |
| Grouping.GroupHas | prompPosts.py:131 | Every match lands in its key's entry, under its `chunk_index`. |
| Grouping.GroupKeysFrom | prompPosts.py:123-130 | Every entry is the key of some match. |
| Grouping.GroupChunksFrom | prompPosts.py:131 | Every chunk of an entry is the `chunk_index` of a match of that entry. |
| Grouping.GroupFirstFrom | promptConfVa.py:121-130 | An entry's metadata is that of one of the matches. |
| Grouping.GroupFirst | promptConfVa.py:121-130 | An entry keeps the metadata (unid, source, title, url, date, category) of its first match. |
| Grouping.GroupLastWrite | prompPosts.py:131 | Last write wins: chunk c's text is that of the last match of the entry with `chunk_index` c. |
| Grouping.GroupOrder | prompPosts.py:135 | Entries come out in the order their first matches came. |
| Grouping.EntriesByBestScore | promptConfVa.py:108-121 | On matches sorted by score, each entry's first match is its best. The entries come out by non-increasing best score. |
| Grouping.LabelsWithoutSeparator | promptConfVa.py:16-20 | None of `posts`, `news`, `eventi` contains `_`. |
| Grouping.MultiKeyInjective | promptConfVa.py:119 | For source names without `_`, `f"{source}_{unid}"` keys are equal exactly when the sources and `str(unid)` are equal. |
| Grouping.SourcesApart | promptConfVa.py:116-121 | Matches from two different indices never share an entry, whatever their unids. |
| Grouping.SeparatorInSourceCollides | promptConfVa.py:119 | With a `_` in a source name, the pairs (`a_b`, `c`) and (`a`, `b_c`) would share a key. |
| Recompose.SortKeysSpec | prompPosts.py:136 | On distinct keys that `sorted()` accepts (all ints, all strs, or at most one key), the sort is strictly ascending and a permutation of the keys. |
| Recompose.AscendingUnique | prompPosts.py:136 | There is only one ascending listing of a set of keys, so the sort is fixed by its contract. |
| Recompose.ContentAscending | promptConfVa.py:139-140 | The content is `"\n".join` of the entry's texts listed by ascending `chunk_index`, for any ascending listing of the keys. |
| Recompose.ContentFails | promptConfVa.py:139-140 | Recomposing fails exactly when the keys cannot be compared or a text is not a str, and then raises `TypeError`. |
| Recompose.GapScenario | prompPosts.py:136-137 | Chunks 0 and 2 only, met in the order 2 then 0, give chunk 0 + `"\n"` + chunk 2, with nothing for the missing chunk 1. |
| Recompose.AllChunksPresent | promptConfVa.py:139-140 | When chunks 0..k−1 of a text (from `chunk_text`, lines 66-67) all came back, the content is `"\n".join(chunk_text(t))`. It is k−1 characters longer than t, so not t itself when k > 1. |
| Recompose.RecomposeDocs | prompPosts.py:134-145 | The recomposition loop gives exactly `RecomposeKeys`: the documents, or the first exception. |
| Recompose.RecomposeKeysSpec | promptConfVa.py:136-150 | Recomposition succeeds exactly when every entry does. There is then one document per entry, in the entries' order, each built from its own entry. |
| Recompose.SearchAndRecompose | prompPosts.py:104-147 | The single-index search raises `TypeError` when some match's `unid` or `chunk_index` cannot be a dict key. Otherwise it is grouping by `unid` followed by recomposition. |
| Recompose.SearchAndRecomposeMulti | promptConfVa.py:76-152 | The multi-index search is fan-out, then a stable sort by score. It raises `TypeError` when some match's `chunk_index` cannot be a dict key. Otherwise it goes on to grouping by `f"{source}_{unid}"` and recomposition. |
| Recompose.UnfileableRaises | promptConfVa.py:132-133 | One match whose key or `chunk_index` cannot be a dict key makes either search raise `TypeError`, whatever the other matches are. |
| Recompose.ListUnidRaises | prompPosts.py:121-123 | A match whose `unid` is a list makes the single-index search raise `TypeError`. The same match files in the multi-index search. |
| Recompose.MultiDocSources | promptConfVa.py:99-124 | Every document of the multi-index search names, as its source, an index that answered. |
| Context.Block | prompPosts.py:157-160 | A document's block ends with its content. |
| Context.SingleContextHolds | prompPosts.py:157-160 | Each document's block sits in the context at its place in the documents' order, after the earlier blocks and one blank line per gap. |
| Context.BlockEndsWithContent | prompPosts.py:157-160 | Block i of the context is the block of document i, and it ends with that document's content. |
| Context.PartEnds | prompPosts.py:157-160 | Helper for `Context.BlockEndsWithContent`. When a part of a join ends with some text, the join holds that text just before the part's end. |
| Context.PartStarts | promptConfVa.py:164 | Helper for `Context.MultiBlockStarts`. When a part of a join starts with some text, the join holds that text at the part's offset. |
| Context.MultiContextHolds | promptConfVa.py:164-170 | About `Context.MultiContext`, the multi-index context string. Each document's multi-index block sits in the context in the documents' order. |
| Context.MultiBlockStarts | promptConfVa.py:165 | Block i of the multi-index context is the source block of document i, and it begins with that document's `"🔹 SORGENTE: " + str(source) + "\n"`. |
| Context.MultiBlocksApart | promptConfVa.py:164 | A blank line (`"\n\n"`) precedes every block but the first. |
| Context.MultiDocsSourced | promptConfVa.py:124 | Every document the multi-index search returns has a source, so each multi-index block can be built. |

## Left out

**External services**
- The OpenAI and Pinecone clients are outside the model: index creation and listing, the query embedding, `top_k`, and the chat completion. They are network services. Each index's response is an input.
- Exceptions raised by the embedding service or by `index.upsert` are not modelled. `embed` is a total function and the sink always accepts.
- `unquote` (percent-decoding with UTF-8 replacement) is a parameter. Its decoding rules are library internals.

**I/O and the prompt**
- JSON file reading, `print` logging and the interactive input loop are not modelled, because they are I/O. The batch reports are returned instead of printed.
- The prompt template and `datetime.today()` in the prompt are not modelled. They are fixed text and the clock.
- The redundant `embed(text)` call whose result is discarded (importaEventi.py:87) is not modelled. It has no effect on the vectors.

**Numbers**
- Similarity scores are integers. Only their order matters, and floating point is not modelled.
- `chunk_index` and `chunk_total` come back from the index as integers. Pinecone returns numbers as floats, whose order is the same.

**Python dict semantics**
- `Recompose.Sortable`: keys that are bools or floats, or bools mixed with ints, sort in Python. The model raises `TypeError` for them when an entry has two or more such keys.
- In Python `True`, `1` and `1.0` are the same dict key. The model's maps keep `JBool(true)` and `JInt(1)` apart.
- The in-place write `m["metadata"]["__source_index"] = label` is modelled on values: `Merge.Retag` returns a new match. Aliasing with the index client's result objects is not modelled.

**Dates**
- `strptime` is modelled on ASCII digits only. Python's `\d` also matches other Unicode decimal digits.
- `%Y` is modelled as printing four zero-padded digits. On platforms whose C `strftime` does not pad years below 1000, `parse_date_str` of such a year would not be idempotent.

**Other**
- `upsert_in_batches` defaults `batch_size` to 50. The only caller passes 40, so the model takes the size as an argument.
- `Context.MultiContext` requires every document to carry a source. A document without the `source` key would raise `KeyError` in the f-string, and `Context.MultiDocsSourced` shows the multi-index search never returns one.
