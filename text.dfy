/** String operations the scripts use: sep.join(parts), s.split(c),
    the filter `[p for p in parts if p]` and s.replace("%20", " "). */
module Text {

  /** sep.join(parts). */
  function Join(parts: seq<string>, sep: string): string
  {
    if |parts| == 0 then ""
    else if |parts| == 1 then parts[0]
    else parts[0] + sep + Join(parts[1..], sep)
  }

  /** s.split(c) for a one-character separator: "" splits into [""]. */
  function Split(s: string, c: char): (r: seq<string>)
    ensures |r| > 0
  {
    if |s| == 0 then [""]
    else
      var rest := Split(s[1..], c);
      if s[0] == c then [""] + rest else [[s[0]] + rest[0]] + rest[1..]
  }

  /** [p for p in parts if p]. */
  function NonEmpty(parts: seq<string>): (r: seq<string>)
    ensures |r| <= |parts|
    ensures forall i :: 0 <= i < |r| ==> r[i] != ""
  {
    if |parts| == 0 then []
    else if parts[0] == "" then NonEmpty(parts[1..])
    else [parts[0]] + NonEmpty(parts[1..])
  }

  /** The sum of the lengths of the parts. */
  function TotalLength(parts: seq<string>): nat
  {
    if |parts| == 0 then 0 else |parts[0]| + TotalLength(parts[1..])
  }

  /** Where parts[i] starts inside Join(parts, sep). */
  function JoinOffset(parts: seq<string>, sep: string, i: nat): nat
    requires i <= |parts|
  {
    if i == 0 then 0 else |parts[0]| + |sep| + JoinOffset(parts[1..], sep, i - 1)
  }

  /** The join holds every part, in order: parts[i] sits at
      JoinOffset(parts, sep, i), after the earlier parts and one separator
      per gap. */
  lemma {:induction false} JoinAt(parts: seq<string>, sep: string, i: nat)
    requires i < |parts|
    ensures JoinOffset(parts, sep, i) + |parts[i]| <= |Join(parts, sep)|
    ensures Join(parts, sep)[JoinOffset(parts, sep, i)..JoinOffset(parts, sep, i) + |parts[i]|] == parts[i]
  {
    if i == 0 {
      JoinAtFirst(parts, sep);
    } else {
      JoinAt(parts[1..], sep, i - 1);
      JoinAtNext(parts, sep, i);
    }
  }

  /** The join starts with the first part. */
  lemma JoinAtFirst(parts: seq<string>, sep: string)
    requires |parts| > 0
    ensures |parts[0]| <= |Join(parts, sep)|
    ensures Join(parts, sep)[..|parts[0]|] == parts[0]
  {
    if |parts| > 1 {
      assert Join(parts, sep) == parts[0] + (sep + Join(parts[1..], sep));
      SliceLeft(parts[0], sep + Join(parts[1..], sep));
    }
  }

  /** Where part i - 1 sits in the join of the later parts, part i sits in
      the whole join, one part and one separator further on. */
  lemma JoinAtNext(parts: seq<string>, sep: string, i: nat)
    requires 0 < i < |parts|
    requires var o := JoinOffset(parts[1..], sep, i - 1);
      && o + |parts[i]| <= |Join(parts[1..], sep)|
      && Join(parts[1..], sep)[o..o + |parts[i]|] == parts[i]
    ensures JoinOffset(parts, sep, i) + |parts[i]| <= |Join(parts, sep)|
    ensures Join(parts, sep)[JoinOffset(parts, sep, i)..JoinOffset(parts, sep, i) + |parts[i]|] == parts[i]
  {
    var head, rest := parts[0] + sep, Join(parts[1..], sep);
    assert Join(parts, sep) == head + rest;
    var o := JoinOffset(parts[1..], sep, i - 1);
    assert JoinOffset(parts, sep, i) == |head| + o;
    SliceRight(head, rest, |head| + o, |head| + o + |parts[i]|);
  }

  /** The front of a + b is a. */
  lemma SliceLeft<T>(a: seq<T>, b: seq<T>)
    ensures (a + b)[..|a|] == a
  {
  }

  /** A slice of a + b past a is a slice of b. */
  lemma SliceRight<T>(a: seq<T>, b: seq<T>, lo: nat, hi: nat)
    requires |a| <= lo <= hi <= |a| + |b|
    ensures (a + b)[lo..hi] == b[lo - |a|..hi - |a|]
  {
  }

  /** The length of a join: the parts plus one separator per gap. */
  lemma {:induction false} JoinLength(parts: seq<string>, sep: string)
    requires |parts| > 0
    ensures |Join(parts, sep)| == TotalLength(parts) + (|parts| - 1) * |sep|
  {
    if |parts| > 1 {
      JoinLength(parts[1..], sep);
    }
  }

  lemma {:induction false} SplitWithout(p: string, c: char)
    requires c !in p
    ensures Split(p, c) == [p]
  {
    if |p| > 0 {
      SplitWithout(p[1..], c);
      assert [p[0]] + p[1..] == p;
    }
  }

  lemma {:induction false} SplitAfter(p: string, c: char, t: string)
    requires c !in p
    ensures Split(p + [c] + t, c) == [p] + Split(t, c)
  {
    if |p| == 0 {
      assert p + [c] + t == [c] + t;
      assert ([c] + t)[1..] == t;
    } else {
      var s := p + [c] + t;
      assert s[1..] == p[1..] + [c] + t;
      SplitAfter(p[1..], c, t);
      assert [p[0]] + p[1..] == p;
    }
  }

  /** Splitting a join on its one-character separator gives the parts back,
      as long as no part contains the separator. */
  lemma {:induction false} SplitJoin(parts: seq<string>, c: char)
    requires |parts| > 0
    requires forall i :: 0 <= i < |parts| ==> c !in parts[i]
    ensures Split(Join(parts, [c]), c) == parts
  {
    if |parts| == 1 {
      SplitWithout(parts[0], c);
    } else {
      SplitJoin(parts[1..], c);
      SplitAfter(parts[0], c, Join(parts[1..], [c]));
    }
  }

  // ---------------------------------------------------------------------
  // s.replace("%20", " ")
  // ---------------------------------------------------------------------

  /** An occurrence of the three characters "%20" at position i. */
  predicate Pct20At(s: string, i: int) {
    0 <= i && i + 3 <= |s| && s[i] == '%' && s[i + 1] == '2' && s[i + 2] == '0'
  }

  predicate FreeOfPct20(s: string) {
    forall i :: 0 <= i < |s| ==> !Pct20At(s, i)
  }

  /** str.replace("%20", " "): occurrences are replaced left to right,
      without overlap. */
  function ReplacePct20(s: string): (r: string)
    ensures |r| <= |s|
  {
    if |s| < 3 then s
    else if Pct20At(s, 0) then " " + ReplacePct20(s[3..])
    else [s[0]] + ReplacePct20(s[1..])
  }

  /** What ReplacePct20 puts first: a blank for a leading "%20",
      otherwise the first character unchanged. */
  lemma ReplacePct20Head(s: string)
    requires |s| > 0
    ensures |ReplacePct20(s)| > 0
    ensures ReplacePct20(s)[0] == if Pct20At(s, 0) then ' ' else s[0]
  {
  }

  /** No "%20" survives the replacement: an unreplaced '%' is never
      followed by an unreplaced "20". */
  lemma {:induction false} ReplacePct20Leaves(s: string)
    ensures FreeOfPct20(ReplacePct20(s))
  {
    if |s| >= 3 {
      var r := ReplacePct20(s);
      if Pct20At(s, 0) {
        ReplacePct20Leaves(s[3..]);
        assert r == " " + ReplacePct20(s[3..]);
        forall i | 0 <= i < |r| ensures !Pct20At(r, i) {
          if i > 0 {
            assert Pct20At(r, i) ==> Pct20At(ReplacePct20(s[3..]), i - 1);
          }
        }
      } else {
        var t := ReplacePct20(s[1..]);
        ReplacePct20Leaves(s[1..]);
        assert r == [s[0]] + t;
        forall i | 0 <= i < |r| ensures !Pct20At(r, i) {
          if i > 0 {
            assert Pct20At(r, i) ==> Pct20At(t, i - 1);
          } else if Pct20At(r, 0) {
            // r = '%' t[0] t[1] with t[0] = '2', t[1] = '0'
            ReplacePct20Head(s[1..]);
            assert t[0] == '2' && s[1] == '2' && !Pct20At(s[1..], 0);
            assert t == [s[1]] + ReplacePct20(s[2..]);
            ReplacePct20Head(s[2..]);
            assert false;
          }
        }
      }
    }
  }

  /** A string without "%20" is left as it is. */
  lemma {:induction false} ReplacePct20Identity(s: string)
    requires FreeOfPct20(s)
    ensures ReplacePct20(s) == s
  {
    if |s| >= 3 {
      assert !Pct20At(s, 0);
      assert forall i :: 0 <= i < |s| - 1 ==> (Pct20At(s[1..], i) ==> Pct20At(s, i + 1));
      ReplacePct20Identity(s[1..]);
      assert [s[0]] + s[1..] == s;
    }
  }

  /** Replacing twice is replacing once. */
  lemma ReplacePct20Idempotent(s: string)
    ensures ReplacePct20(ReplacePct20(s)) == ReplacePct20(s)
  {
    ReplacePct20Leaves(s);
    ReplacePct20Identity(ReplacePct20(s));
  }

  /** A newline-join of parts free of "%20" is free of "%20": the separator
      breaks every occurrence that would straddle two parts. */
  lemma {:induction false} JoinFreeOfPct20(parts: seq<string>)
    requires forall i :: 0 <= i < |parts| ==> FreeOfPct20(parts[i])
    ensures FreeOfPct20(Join(parts, "\n"))
  {
    if |parts| > 1 {
      JoinFreeOfPct20(parts[1..]);
      var a, b := parts[0], Join(parts[1..], "\n");
      var j := a + "\n" + b;
      assert j == Join(parts, "\n");
      assert FreeOfPct20(a);
      forall i | 0 <= i < |j| ensures !Pct20At(j, i) {
        if i + 3 <= |a| {
          assert Pct20At(j, i) ==> Pct20At(a, i);
        } else if i > |a| {
          assert Pct20At(j, i) ==> Pct20At(b, i - |a| - 1);
        } else {
          assert j[|a|] == '\n';
        }
      }
    }
  }
}
