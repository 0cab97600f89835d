/** The document normaliser: `decode` and the three variants of `build_text`.
    Posts and events replace only "%20" in each raw field, keep the non-empty
    results and join them with newlines; the newsletter keeps the truthy raw
    fields and percent-decodes each one. Percent-decoding (urllib's unquote)
    is a parameter: its UTF-8 details are not modelled. */
module Normalize {
  import opened PyValues
  import opened Text

  /** The fields of a post, in the order build_text reads them. */
  const PostFields: seq<string> := ["title", "date", "url", "category", "categoryfull", "content"]

  /** The fields of an event, in the order build_text reads them. */
  const EventFields: seq<string> := ["titolo", "data", "descrizione", "AreaInteresse", "Settori", "Tags"]

  /** The fields of a newsletter item, in the order build_text reads them. */
  const NewsFields: seq<string> :=
    ["title", "subject", "content", "circolareinbreve", "settore", "areatematica", "interesse"]

  /** decode(s): unquote(s) for a str, "" for anything else. */
  function Decode(unquote: string -> string, v: Json): string
  {
    if v.JStr? then unquote(v.s) else ""
  }

  /** The raw text of a field as item.get(f, "") sees it when that is a str. */
  function FieldString(item: Item, f: string): string
  {
    var v := GetOr(item, f, JStr(""));
    if v.JStr? then v.s else ""
  }

  /** A field that item.get(f, "") returns as a str (absent counts as ""). */
  predicate StrOrAbsent(item: Item, f: string) {
    f !in item || item[f].JStr?
  }

  /** The list [decode_local(item.get(f, "")) for f in fields], built left to
      right; the first value that is not a str makes .replace raise. */
  function Pct20Parts(item: Item, fields: seq<string>): Result<seq<string>>
  {
    if |fields| == 0 then Ok([])
    else
      var v := GetOr(item, fields[0], JStr(""));
      if !v.JStr? then Err(AttributeError)
      else
        match Pct20Parts(item, fields[1..])
        case Err(e) => Err(e)
        case Ok(rest) => Ok([ReplacePct20(v.s)] + rest)
  }

  /** build_text of posts and events: the non-empty "%20"-decoded fields,
      joined with newlines. */
  function Pct20Text(item: Item, fields: seq<string>): Result<string>
  {
    match Pct20Parts(item, fields)
    case Err(e) => Err(e)
    case Ok(parts) => Ok(Join(NonEmpty(parts), "\n"))
  }

  function PostText(item: Item): Result<string> {
    Pct20Text(item, PostFields)
  }

  function EventText(item: Item): Result<string> {
    Pct20Text(item, EventFields)
  }

  /** [decode(f) for f in values if f], the values read with item.get(f, ""). */
  function TruthyDecoded(unquote: string -> string, item: Item, fields: seq<string>): seq<string>
  {
    if |fields| == 0 then []
    else
      var v := GetOr(item, fields[0], JStr(""));
      var rest := TruthyDecoded(unquote, item, fields[1..]);
      if Truthy(v) then [Decode(unquote, v)] + rest else rest
  }

  /** build_text of the newsletter: filter on the raw value, then decode. */
  function NewsText(unquote: string -> string, item: Item): string
  {
    Join(TruthyDecoded(unquote, item, NewsFields), "\n")
  }

  // ---------------------------------------------------------------------
  // Properties
  // ---------------------------------------------------------------------

  /** The parts exist exactly when every field is a str or absent, and then
      part i is field i with "%20" replaced, an absent field giving "". */
  lemma {:induction false} Pct20PartsSpec(item: Item, fields: seq<string>)
    ensures Pct20Parts(item, fields).Ok? <==> forall i :: 0 <= i < |fields| ==> StrOrAbsent(item, fields[i])
    ensures Pct20Parts(item, fields).Ok? ==>
      && |Pct20Parts(item, fields).value| == |fields|
      && forall i :: 0 <= i < |fields| ==>
           Pct20Parts(item, fields).value[i] == ReplacePct20(FieldString(item, fields[i]))
  {
    if |fields| > 0 {
      Pct20PartsSpec(item, fields[1..]);
      assert forall i :: 1 <= i < |fields| ==> fields[1..][i - 1] == fields[i];
    }
  }

  lemma {:induction false} NonEmptyFrom(parts: seq<string>)
    ensures forall i :: 0 <= i < |NonEmpty(parts)| ==> NonEmpty(parts)[i] in parts
  {
    if |parts| > 0 {
      NonEmptyFrom(parts[1..]);
    }
  }

  lemma {:induction false} ReplacePct20Chars(s: string, c: char)
    requires c in ReplacePct20(s) && c != ' '
    ensures c in s
  {
    if |s| >= 3 {
      if Pct20At(s, 0) {
        ReplacePct20Chars(s[3..], c);
      } else if c != s[0] {
        ReplacePct20Chars(s[1..], c);
      }
    }
  }

  /** build_text for posts and events. It fails exactly when a field is
      present and not a str. Otherwise the text is the non-empty
      "%20"-decoded fields joined by newlines: it is empty only if every
      field is, it holds no "%20", and when no field holds a newline,
      splitting it on "\n" gives back exactly those fields in declared order,
      none of them empty. */
  lemma Pct20TextSpec(item: Item, fields: seq<string>)
    ensures Pct20Text(item, fields).Ok? <==> forall i :: 0 <= i < |fields| ==> StrOrAbsent(item, fields[i])
    ensures Pct20Text(item, fields).Ok? ==>
      var parts := seq(|fields|, i requires 0 <= i < |fields| => ReplacePct20(FieldString(item, fields[i])));
      var text := Pct20Text(item, fields).value;
      && FreeOfPct20(text)
      && (text == "" <==> NonEmpty(parts) == [])
      && ((NonEmpty(parts) != [] && forall i :: 0 <= i < |fields| ==> '\n' !in FieldString(item, fields[i]))
          ==> Split(text, '\n') == NonEmpty(parts))
  {
    Pct20PartsSpec(item, fields);
    if Pct20Text(item, fields).Ok? {
      var parts := seq(|fields|, i requires 0 <= i < |fields| => ReplacePct20(FieldString(item, fields[i])));
      assert Pct20Parts(item, fields).value == parts;
      var kept := NonEmpty(parts);
      var text := Join(kept, "\n");
      NonEmptyFrom(parts);
      forall i | 0 <= i < |kept| ensures FreeOfPct20(kept[i]) {
        var j :| 0 <= j < |parts| && parts[j] == kept[i];
        ReplacePct20Leaves(FieldString(item, fields[j]));
      }
      JoinFreeOfPct20(kept);
      if kept != [] {
        JoinLength(kept, "\n");
        assert |kept[0]| > 0;
        assert TotalLength(kept) >= |kept[0]|;
      }
      if kept != [] && forall i :: 0 <= i < |fields| ==> '\n' !in FieldString(item, fields[i]) {
        forall i | 0 <= i < |kept| ensures '\n' !in kept[i] {
          var j :| 0 <= j < |parts| && parts[j] == kept[i];
          if '\n' in kept[i] {
            ReplacePct20Chars(FieldString(item, fields[j]), '\n');
          }
        }
        SplitJoin(kept, '\n');
      }
    }
  }

  /** The newsletter segments: one per truthy raw field, in declared order,
      each the decoded field, and "" for a truthy value that is not a str. */
  lemma {:induction false} TruthyDecodedSpec(unquote: string -> string, item: Item, fields: seq<string>)
    ensures |TruthyDecoded(unquote, item, fields)| == |TruthyFields(item, fields)|
    ensures forall k :: 0 <= k < |TruthyFields(item, fields)| ==>
      TruthyDecoded(unquote, item, fields)[k] == Decode(unquote, item[TruthyFields(item, fields)[k]])
  {
    if |fields| > 0 {
      TruthyDecodedSpec(unquote, item, fields[1..]);
    }
  }

  /** The fields whose raw value is truthy, in declared order. */
  function TruthyFields(item: Item, fields: seq<string>): (r: seq<string>)
    ensures forall k :: 0 <= k < |r| ==> r[k] in item && Truthy(item[r[k]])
  {
    if |fields| == 0 then []
    else
      var rest := TruthyFields(item, fields[1..]);
      if Truthy(GetOr(item, fields[0], JStr(""))) then [fields[0]] + rest else rest
  }

  /** build_text for the newsletter: when the decoded segments hold no
      newline, splitting the text on "\n" gives one segment per truthy field,
      in declared order, each the decoded field (possibly empty). */
  lemma NewsTextSpec(unquote: string -> string, item: Item)
    requires TruthyFields(item, NewsFields) != []
    requires forall f :: f in NewsFields && f in item ==> '\n' !in Decode(unquote, item[f])
    ensures var segs := Split(NewsText(unquote, item), '\n');
      && |segs| == |TruthyFields(item, NewsFields)|
      && forall k :: 0 <= k < |segs| ==> segs[k] == Decode(unquote, item[TruthyFields(item, NewsFields)[k]])
  {
    TruthyDecodedSpec(unquote, item, NewsFields);
    var tf := TruthyFields(item, NewsFields);
    var segs := TruthyDecoded(unquote, item, NewsFields);
    TruthyFieldsFrom(item, NewsFields);
    forall k | 0 <= k < |segs| ensures '\n' !in segs[k] {
      assert tf[k] in NewsFields;
    }
    SplitJoin(segs, '\n');
  }

  lemma {:induction false} TruthyFieldsFrom(item: Item, fields: seq<string>)
    ensures forall k :: 0 <= k < |TruthyFields(item, fields)| ==> TruthyFields(item, fields)[k] in fields
  {
    if |fields| > 0 {
      TruthyFieldsFrom(item, fields[1..]);
    }
  }

  /** A truthy field that is not a str still takes a line, an empty one:
      a title 7 and a subject true give the text "\n". */
  lemma NewsTextEmptySegments(unquote: string -> string)
    ensures NewsText(unquote, map["title" := JInt(7), "subject" := JBool(true)]) == "\n"
  {
    var item := map["title" := JInt(7), "subject" := JBool(true)];
    AbsentFieldsDrop(unquote, item, NewsFields[2..]);
    assert NewsFields[1..][1..] == NewsFields[2..];
    assert TruthyDecoded(unquote, item, NewsFields[1..]) == [""];
    assert TruthyDecoded(unquote, item, NewsFields) == ["", ""];
    assert ["", ""][1..] == [""];
    assert Join(["", ""], "\n") == "" + "\n" + "";
  }

  /** Fields the item does not have contribute no segment. */
  lemma {:induction false} AbsentFieldsDrop(unquote: string -> string, item: Item, fields: seq<string>)
    requires forall k :: 0 <= k < |fields| ==> fields[k] !in item
    ensures TruthyDecoded(unquote, item, fields) == []
  {
    if |fields| > 0 {
      AbsentFieldsDrop(unquote, item, fields[1..]);
    }
  }

  /** A field present as null makes the posts build_text raise. */
  lemma PostTextNullTitle(item: Item)
    requires "title" in item && item["title"] == JNull
    ensures PostText(item) == Err(AttributeError)
  {
    Pct20PartsSpec(item, PostFields);
  }
}
