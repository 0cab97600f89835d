/** The chunker `chunk_text` (the same comprehension in four scripts) and the
    consecutive slicing it shares with `upsert_in_batches`:
    `[s[i:i+m] for i in range(start, len(s), m)]`. */
module Chunking {
  import opened PyValues

  /** The chunk size every ingestion script passes. */
  const MaxChars: nat := 2000

  function Min(a: int, b: int): int {
    if a <= b then a else b
  }

  /** The pieces laid end to end. */
  function Concat<T>(parts: seq<seq<T>>): seq<T> {
    if |parts| == 0 then [] else parts[0] + Concat(parts[1..])
  }

  /** Laying out two runs of pieces is laying out each in turn. */
  lemma {:induction false} ConcatAppend<T>(a: seq<seq<T>>, b: seq<seq<T>>)
    ensures Concat(a + b) == Concat(a) + Concat(b)
  {
    if |a| > 0 {
      assert (a + b)[1..] == a[1..] + b;
      ConcatAppend(a[1..], b);
    } else {
      assert a + b == b;
    }
  }

  /** A prefix grows by the next element. */
  lemma TakeNext<T>(s: seq<T>, k: nat)
    requires k < |s|
    ensures s[..k + 1] == s[..k] + [s[k]]
  {
  }

  /** Appending an element keeps the earlier ones in place. */
  lemma AppendAt<T>(a: seq<T>, x: T)
    ensures forall j :: 0 <= j < |a| ==> (a + [x])[j] == a[j]
    ensures (a + [x])[|a|] == x
  {
  }

  /** `[s[i:i+m] for i in range(start, len(s), m)]` for a positive step m;
      the Python slice stops at the end of s. */
  function Slices<T>(s: seq<T>, m: nat, start: nat): seq<seq<T>>
    requires m > 0
    decreases |s| - start
  {
    if start >= |s| then [] else [s[start..Min(start + m, |s|)]] + Slices(s, m, start + m)
  }

  /** Concatenating the slices gives back the sliced suffix exactly: no
      overlap, no gap, no reordering. */
  lemma {:induction false} SlicesConcat<T>(s: seq<T>, m: nat, start: nat)
    requires m > 0 && start <= |s|
    ensures Concat(Slices(s, m, start)) == s[start..]
    decreases |s| - start
  {
    if start < |s| {
      var e := Min(start + m, |s|);
      SlicesConcat(s, m, e);
      assert Slices(s, m, start + m) == Slices(s, m, e);
      assert s[start..e] + s[e..] == s[start..];
    }
  }

  /** The shape of the slicing: no slice is empty or longer than m, every
      slice but the last is exactly m long, and there are ceil((|s| - start) / m)
      of them (none exactly when nothing is left to slice). */
  lemma SlicesShape<T>(s: seq<T>, m: nat, start: nat)
    requires m > 0
    ensures var r := Slices(s, m, start);
      && (r == [] <==> start >= |s|)
      && (forall k :: 0 <= k < |r| ==> 0 < |r[k]| <= m)
      && (forall k :: 0 <= k < |r| - 1 ==> |r[k]| == m)
      && (start < |s| ==> (|r| - 1) * m < |s| - start <= |r| * m)
  {
    SlicesSizes(s, m, start);
    SlicesCount(s, m, start);
  }

  /** The slice lengths, by induction on what is left past start. */
  lemma {:induction false} SlicesSizes<T>(s: seq<T>, m: nat, start: nat)
    requires m > 0
    ensures var r := Slices(s, m, start);
      && (r == [] <==> start >= |s|)
      && (forall k :: 0 <= k < |r| ==> 0 < |r[k]| <= m)
      && (forall k :: 0 <= k < |r| - 1 ==> |r[k]| == m)
    decreases |s| - start
  {
    if start < |s| {
      SlicesSizes(s, m, start + m);
      var r, t := Slices(s, m, start), Slices(s, m, start + m);
      assert r == [s[start..Min(start + m, |s|)]] + t;
      forall k | 0 <= k < |r|
        ensures 0 < |r[k]| <= m
        ensures k < |r| - 1 ==> |r[k]| == m
      {
        if k > 0 {
          assert r[k] == t[k - 1];
        }
      }
    }
  }

  /** The number of slices, by induction on what is left past start. */
  lemma {:induction false} SlicesCount<T>(s: seq<T>, m: nat, start: nat)
    requires m > 0
    ensures var n := |Slices(s, m, start)|;
      start < |s| ==> (n - 1) * m < |s| - start <= n * m
    decreases |s| - start
  {
    if start < |s| {
      var n, t := |Slices(s, m, start)|, Slices(s, m, start + m);
      assert Slices(s, m, start) == [s[start..Min(start + m, |s|)]] + t;
      assert n == |t| + 1;
      MulStep(n, m);
      if start + m < |s| {
        SlicesCount(s, m, start + m);
        assert t != [];
      }
    }
  }

  /** The k-th slice is s[start + k*m : start + k*m + m], the element the
      comprehension produces for the k-th value of the range. */
  lemma {:induction false} SlicesAt<T>(s: seq<T>, m: nat, start: nat, k: nat)
    requires m > 0 && k < |Slices(s, m, start)|
    ensures start + k * m < |s|
    ensures Slices(s, m, start)[k] == s[start + k * m..Min(start + k * m + m, |s|)]
    decreases k
  {
    if k > 0 {
      assert Slices(s, m, start) == [s[start..Min(start + m, |s|)]] + Slices(s, m, start + m);
      SlicesAt(s, m, start + m, k - 1);
      MulStep(k, m);
    }
  }

  /** One more step of m past (k - 1) steps is k steps. */
  lemma MulStep(k: nat, m: nat)
    requires k > 0
    ensures m + (k - 1) * m == k * m
  {
  }

  /** chunk_text(text, max_chars): range() refuses a zero step, a negative
      step from 0 up to len(text) is empty, and a positive step cuts the text
      into consecutive chunks that join back into it. */
  function ChunkText(text: string, maxChars: int): (r: Result<seq<string>>)
    ensures maxChars == 0 <==> r == Err(ValueError)
    ensures maxChars < 0 ==> r == Ok([])
    ensures maxChars > 0 ==> r.Ok? && Concat(r.value) == text
    ensures maxChars > 0 ==> forall k :: 0 <= k < |r.value| ==> 0 < |r.value[k]| <= maxChars
    ensures maxChars > 0 ==> forall k :: 0 <= k < |r.value| - 1 ==> |r.value[k]| == maxChars
    ensures maxChars > 0 ==> (r.value == [] <==> text == "")
  {
    if maxChars == 0 then Err(ValueError)
    else if maxChars < 0 then Ok([])
    else
      SlicesConcat(text, maxChars, 0);
      SlicesShape(text, maxChars, 0);
      Ok(Slices(text, maxChars, 0))
  }

  /** The number of chunks is ceil(len(text) / max_chars). */
  lemma ChunkCount(text: string, maxChars: nat)
    requires maxChars > 0 && |text| > 0
    ensures var n := |ChunkText(text, maxChars).value|;
      (n - 1) * maxChars < |text| <= n * maxChars
  {
    SlicesShape(text, maxChars, 0);
  }

  /** A 4500-character text cut at 2000 gives chunks of 2000, 2000 and 500. */
  lemma ChunkScenario(text: string)
    requires |text| == 4500
    ensures ChunkText(text, MaxChars) == Ok([text[..2000], text[2000..4000], text[4000..]])
  {
    assert Slices(text, 2000, 6000) == [];
    assert text[4000..Min(6000, |text|)] == text[4000..];
    assert Slices(text, 2000, 4000) == [text[4000..]];
    assert Slices(text, 2000, 2000) == [text[2000..4000], text[4000..]];
    assert Slices(text, 2000, 0) == [text[..2000], text[2000..4000], text[4000..]];
  }
}
