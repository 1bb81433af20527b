/** The JavaScript string operations the core relies on, over `seq<char>`:
    `startsWith`, `endsWith`, `split` with a one-character separator,
    `replace` of the first occurrence of a literal pattern, and `trim`. */
module Strings {
  import opened Common

  predicate StartsWith(s: string, prefix: string) {
    |prefix| <= |s| && s[..|prefix|] == prefix
  }

  predicate EndsWith(s: string, suffix: string) {
    |suffix| <= |s| && s[|s| - |suffix|..] == suffix
  }

  lemma EndsWithAppend(a: string, suffix: string, b: string)
    requires EndsWith(a, suffix)
    ensures EndsWith(a + b, suffix + b)
  {
    var ab := a + b;
    assert ab[|ab| - |suffix + b|..] == a[|a| - |suffix|..] + b;
  }

  /** The pieces of `parts` put back together with `sep` between them
      (JavaScript `parts.join(sep)`). */
  function Join(parts: seq<string>, sep: char): string {
    if |parts| == 0 then ""
    else if |parts| == 1 then parts[0]
    else parts[0] + [sep] + Join(parts[1..], sep)
  }

  /** JavaScript `s.split(sep)` for a one-character separator. */
  function Split(s: string, sep: char): (r: seq<string>)
    ensures |r| >= 1
  {
    if |s| == 0 then [""]
    else if s[0] == sep then [""] + Split(s[1..], sep)
    else PrependChar(s[0], Split(s[1..], sep))
  }

  /** No piece of a split holds the separator, and joining the pieces with
      the separator gives the string back. */
  lemma {:induction false} SplitJoinsBack(s: string, sep: char)
    ensures forall i :: 0 <= i < |Split(s, sep)| ==> sep !in Split(s, sep)[i]
    ensures Join(Split(s, sep), sep) == s
  {
    if |s| > 0 {
      SplitJoinsBack(s[1..], sep);
      var rest := Split(s[1..], sep);
      if s[0] == sep {
        assert s == [sep] + s[1..];
      } else {
        assert s == [s[0]] + s[1..];
        if |rest| > 1 {
          assert Join(rest, sep) == rest[0] + [sep] + Join(rest[1..], sep);
        }
      }
    }
  }

  /** Split is the only way to cut a string into separator-free pieces:
      splitting a join of such pieces gives back the pieces. */
  lemma {:induction false} SplitJoin(parts: seq<string>, sep: char)
    requires |parts| >= 1
    requires forall i :: 0 <= i < |parts| ==> sep !in parts[i]
    ensures Split(Join(parts, sep), sep) == parts
  {
    if |parts| == 1 {
      SplitFree(parts[0], sep);
    } else {
      SplitJoin(parts[1..], sep);
      SplitPrefixed(parts[0], Join(parts[1..], sep), sep);
    }
  }

  lemma {:induction false} SplitFree(s: string, sep: char)
    requires sep !in s
    ensures Split(s, sep) == [s]
  {
    if |s| > 0 {
      SplitFree(s[1..], sep);
      assert [s[0]] + s[1..] == s;
    }
  }

  /** A separator-free head followed by a separator starts a new piece. */
  lemma {:induction false} SplitPrefixed(head: string, tail: string, sep: char)
    requires sep !in head
    ensures Split(head + [sep] + tail, sep) == [head] + Split(tail, sep)
  {
    if |head| == 0 {
      assert head + [sep] + tail == [sep] + tail;
      assert ([sep] + tail)[1..] == tail;
    } else {
      var s := head + [sep] + tail;
      assert s[1..] == head[1..] + [sep] + tail;
      SplitPrefixed(head[1..], tail, sep);
      assert [head[0]] + head[1..] == head;
    }
  }

  /** `s` without its last element (what remains after JavaScript's `pop()`). */
  function AllButLast<T>(s: seq<T>): seq<T>
    requires |s| >= 1
  {
    s[..|s| - 1]
  }

  /** The last element of `s` (what JavaScript's `pop()` returns). */
  function Last<T>(s: seq<T>): T
    requires |s| >= 1
  {
    s[|s| - 1]
  }

  /** Dropping or taking the last element of `a + b` only looks at `b`. */
  lemma AllButLastAppend<T>(a: seq<T>, b: seq<T>)
    requires |b| >= 1
    ensures AllButLast(a + b) == a + AllButLast(b)
    ensures Last(a + b) == Last(b)
  {
    assert (a + b)[..|a + b| - 1] == a + b[..|b| - 1];
  }

  /** The pieces of `x` and `y`, with the last piece of `x` fused to the first
      piece of `y`. */
  function Fuse(sx: seq<string>, sy: seq<string>): seq<string>
    requires |sx| >= 1 && |sy| >= 1
  {
    AllButLast(sx) + [Last(sx) + sy[0]] + sy[1..]
  }

  /** `s` is its elements but the last, then its last. */
  lemma AllButLastThenLast<T>(s: seq<T>)
    requires |s| >= 1
    ensures AllButLast(s) + [Last(s)] == s
  {
  }

  /** Fusing onto `sx` is fusing onto its last piece alone, after the
      pieces before it. */
  lemma FuseOntoLast(sx: seq<string>, sy: seq<string>)
    requires |sx| >= 1 && |sy| >= 1
    ensures AllButLast(Fuse(sx, sy)) == AllButLast(sx) + AllButLast(Fuse([Last(sx)], sy))
    ensures Last(Fuse(sx, sy)) == Last(Fuse([Last(sx)], sy))
  {
    var f := Fuse([Last(sx)], sy);
    assert AllButLast([Last(sx)]) == [];
    assert f == [Last(sx) + sy[0]] + sy[1..];
    assert Fuse(sx, sy) == AllButLast(sx) + f;
    AllButLastAppend(AllButLast(sx), f);
  }

  /** How `split` of a concatenation is made of the splits of its parts: the
      last piece of `x` and the first piece of `y` fuse into one. */
  lemma {:induction false} SplitAppend(x: string, y: string, sep: char)
    ensures Split(x + y, sep) == Fuse(Split(x, sep), Split(y, sep))
  {
    var sx, sy := Split(x, sep), Split(y, sep);
    if |x| == 0 {
      assert x + y == y;
      assert sx == [""];
      assert AllButLast(sx) == [] && Last(sx) + sy[0] == sy[0];
      assert [sy[0]] + sy[1..] == sy;
    } else {
      SplitAppend(x[1..], y, sep);
      SplitAppendStep(x, y, sep);
    }
  }

  /** One step of SplitAppend: from the split of `x[1..] + y` to that of `x + y`. */
  lemma SplitAppendStep(x: string, y: string, sep: char)
    requires |x| > 0
    requires Split(x[1..] + y, sep) == Fuse(Split(x[1..], sep), Split(y, sep))
    ensures Split(x + y, sep) == Fuse(Split(x, sep), Split(y, sep))
  {
    var xy := x + y;
    assert xy[0] == x[0] && xy[1..] == x[1..] + y;
    var sr, sy := Split(x[1..], sep), Split(y, sep);
    if x[0] == sep {
      FuseAfterSep(sr, sy);
    } else {
      FuseAfterChar(x[0], sr, sy);
    }
  }

  /** A piece list with `c` put in front of its first piece. */
  function PrependChar(c: char, parts: seq<string>): seq<string>
    requires |parts| >= 1
  {
    [[c] + parts[0]] + parts[1..]
  }

  lemma FuseAfterSep(sr: seq<string>, sy: seq<string>)
    requires |sr| >= 1 && |sy| >= 1
    ensures [""] + Fuse(sr, sy) == Fuse([""] + sr, sy)
  {
    assert AllButLast([""] + sr) == [""] + AllButLast(sr);
  }

  lemma FuseAfterChar(c: char, sr: seq<string>, sy: seq<string>)
    requires |sr| >= 1 && |sy| >= 1
    ensures PrependChar(c, Fuse(sr, sy)) == Fuse(PrependChar(c, sr), sy)
  {
    if |sr| == 1 {
      assert [c] + (sr[0] + sy[0]) == ([c] + sr[0]) + sy[0];
    } else {
      assert AllButLast(PrependChar(c, sr)) == [[c] + sr[0]] + AllButLast(sr)[1..];
    }
  }

  /** The text before the first `sep`, or all of `s` when it has none. */
  function Before(s: string, sep: char): (r: string)
    ensures sep !in r
    ensures StartsWith(s, r)
    ensures |r| == |s| || s[|r|] == sep
  {
    if |s| == 0 || s[0] == sep then ""
    else [s[0]] + Before(s[1..], sep)
  }

  /** The text after the first `sep`. */
  function After(s: string, sep: char): (r: string)
    requires sep in s
    ensures s == Before(s, sep) + [sep] + r
  {
    var b := Before(s, sep);
    assert |b| < |s|;
    assert s == s[..|b|] + [s[|b|]] + s[|b| + 1..];
    s[|b| + 1..]
  }

  /** Piece 0 of a split is the text before the first separator, and piece 1
      (when present) is the text between the first and second ones. */
  lemma SplitPieces(s: string, sep: char)
    ensures Split(s, sep)[0] == Before(s, sep)
    ensures (|Split(s, sep)| > 1) <==> sep in s
    ensures sep in s ==> Split(s, sep)[1] == Before(After(s, sep), sep)
  {
    if sep in s {
      var a := After(s, sep);
      SplitPrefixed(Before(s, sep), a, sep);
      var sa := Split(a, sep);
      assert Split(a, sep)[0] == Before(a, sep) by {
        SplitHead(a, sep);
      }
    } else {
      SplitFree(s, sep);
    }
  }

  lemma {:induction false} SplitHead(s: string, sep: char)
    ensures Split(s, sep)[0] == Before(s, sep)
  {
    if |s| > 0 && s[0] != sep {
      SplitHead(s[1..], sep);
    }
  }

  predicate OccursAt(s: string, pat: string, k: nat) {
    k + |pat| <= |s| && s[k..k + |pat|] == pat
  }

  /** The first index at which `pat` occurs in `s`, at or after `from`. */
  function IndexFrom(s: string, pat: string, from: nat): (r: Option<nat>)
    requires from <= |s|
    ensures r.Some? ==> from <= r.value && OccursAt(s, pat, r.value)
    ensures r.Some? ==> forall k :: from <= k < r.value ==> !OccursAt(s, pat, k)
    ensures r.None? ==> forall k :: from <= k ==> !OccursAt(s, pat, k)
    decreases |s| - from
  {
    if from + |pat| > |s| then None
    else if OccursAt(s, pat, from) then Some(from)
    else IndexFrom(s, pat, from + 1)
  }

  /** JavaScript `s.indexOf(pat)`, `None` for -1. */
  function IndexOf(s: string, pat: string): Option<nat> {
    IndexFrom(s, pat, 0)
  }

  /** JavaScript `s.replace(pat, '')` with a string pattern: the first
      occurrence of `pat`, if any, is removed. */
  function RemoveFirst(s: string, pat: string): (r: string)
    ensures IndexOf(s, pat).None? ==> r == s
    ensures IndexOf(s, pat).Some? ==>
      var k := IndexOf(s, pat).value; |r| + |pat| == |s| && k <= |r| && s == r[..k] + pat + r[k..]
  {
    match IndexOf(s, pat)
    case None => s
    case Some(k) =>
      var r := s[..k] + s[k + |pat|..];
      assert r[..k] == s[..k] && r[k..] == s[k + |pat|..];
      assert s == s[..k] + s[k..k + |pat|] + s[k + |pat|..];
      r
  }

  /** A name that starts with the pattern loses exactly that prefix. */
  lemma RemoveFirstOfPrefixed(pat: string, rest: string)
    ensures RemoveFirst(pat + rest, pat) == rest
  {
    var s := pat + rest;
    assert s[0..|pat|] == pat;
    assert IndexOf(s, pat) == Some(0);
  }

  /** The characters `String.prototype.trim` removes: ECMAScript WhiteSpace
      (tab, vertical tab, form feed, space, no-break space, the byte order
      mark and the Unicode space separators) and LineTerminator (line feed,
      carriage return, line and paragraph separators). */
  predicate IsWhitespace(ch: char) {
    var n := ch as int;
    n == 0x09 || n == 0x0A || n == 0x0B || n == 0x0C || n == 0x0D || n == 0x20 ||
    n == 0xA0 || n == 0x1680 || (0x2000 <= n <= 0x200A) || n == 0x2028 || n == 0x2029 ||
    n == 0x202F || n == 0x205F || n == 0x3000 || n == 0xFEFF
  }

  predicate AllWhitespace(s: string) {
    forall i :: 0 <= i < |s| ==> IsWhitespace(s[i])
  }

  /** `s` with its leading whitespace removed. */
  function TrimStart(s: string): string {
    if |s| > 0 && IsWhitespace(s[0]) then TrimStart(s[1..]) else s
  }

  /** `s` with its trailing whitespace removed. */
  function TrimEnd(s: string): string {
    if |s| > 0 && IsWhitespace(s[|s| - 1]) then TrimEnd(s[..|s| - 1]) else s
  }

  /** JavaScript `s.trim()`. */
  function Trim(s: string): string {
    TrimEnd(TrimStart(s))
  }

  /** TrimStart leaves a suffix of `s` that does not begin with whitespace,
      and what it drops is whitespace. */
  lemma {:induction false} TrimStartSuffix(s: string)
    ensures var r := TrimStart(s);
      && |r| <= |s| && r == s[|s| - |r|..]
      && AllWhitespace(s[..|s| - |r|])
      && (r == [] || !IsWhitespace(r[0]))
  {
    if |s| > 0 && IsWhitespace(s[0]) {
      TrimStartSuffix(s[1..]);
      var r := TrimStart(s[1..]);
      assert s[..|s| - |r|] == [s[0]] + s[1..][..|s| - 1 - |r|];
    }
  }

  /** TrimEnd leaves a prefix of `s` that does not end with whitespace, and
      what it drops is whitespace. */
  lemma {:induction false} TrimEndPrefix(s: string)
    ensures var r := TrimEnd(s);
      && |r| <= |s| && r == s[..|r|]
      && AllWhitespace(s[|r|..])
      && (r == [] || !IsWhitespace(r[|r| - 1]))
  {
    if |s| > 0 && IsWhitespace(s[|s| - 1]) {
      TrimEndPrefix(s[..|s| - 1]);
      var r := TrimEnd(s[..|s| - 1]);
      assert s[|r|..] == s[..|s| - 1][|r|..] + [s[|s| - 1]];
    }
  }

  /** What `trim` means: the result is the slice `s[i..i + |r|]` with only
      whitespace outside it, and it neither begins nor ends with any. */
  lemma TrimSlice(s: string)
    ensures var r := Trim(s);
      && (exists i :: 0 <= i <= |s| - |r| && r == s[i..i + |r|] &&
                      AllWhitespace(s[..i]) && AllWhitespace(s[i + |r|..]))
      && (r == [] || (!IsWhitespace(r[0]) && !IsWhitespace(r[|r| - 1])))
  {
    var t := TrimStart(s);
    TrimStartSuffix(s);
    TrimEndPrefix(t);
    var r := TrimEnd(t);
    var i := |s| - |t|;
    assert t == s[i..];
    assert s[i..i + |r|] == r;
    assert s[i + |r|..] == t[|r|..];
    assert AllWhitespace(s[..i]) && AllWhitespace(s[i + |r|..]);
    assert r != [] ==> r[0] == t[0];
  }

  /** Text with no whitespace at either end is left as it is. */
  lemma TrimUnchanged(s: string)
    requires s == [] || (!IsWhitespace(s[0]) && !IsWhitespace(s[|s| - 1]))
    ensures Trim(s) == s
  {
  }

  /** The chunks of a body laid end to end. */
  function Concat(chunks: seq<string>): string {
    if |chunks| == 0 then "" else Concat(chunks[..|chunks| - 1]) + chunks[|chunks| - 1]
  }
}
