/**
 * The JavaScript string operations the program relies on: `trim`,
 * `split` and `join` on one character, `replace` with a string pattern
 * (first occurrence only), `replace` of one character everywhere,
 * `startsWith` and `endsWith`.
 */
module Strings {
  import opened Wrappers

  /** White space and line terminators as `String.prototype.trim` strips them. */
  predicate IsWhitespace(c: char) {
    c == '\t' || c == '\n' || c == '\U{000B}' || c == '\U{000C}' || c == '\r' || c == ' ' ||
    c == '\U{00A0}' || c == '\U{1680}' || ('\U{2000}' <= c <= '\U{200A}') ||
    c == '\U{2028}' || c == '\U{2029}' || c == '\U{202F}' || c == '\U{205F}' ||
    c == '\U{3000}' || c == '\U{FEFF}'
  }

  predicate IsDigit(c: char) {
    '0' <= c <= '9'
  }

  predicate StartsWith(s: string, prefix: string) {
    |prefix| <= |s| && s[..|prefix|] == prefix
  }

  predicate EndsWith(s: string, suffix: string) {
    |suffix| <= |s| && s[|s| - |suffix|..] == suffix
  }

  /** `p` occurs in `s` at position `k`. */
  predicate OccursAt(s: string, p: string, k: nat) {
    k + |p| <= |s| && s[k..k + |p|] == p
  }

  /** `s.indexOf(p, from)`: the first position at or after `from` where `p` occurs. */
  function IndexOf(s: string, p: string, from: nat): (r: Option<nat>)
    ensures r.Some? ==> from <= r.value && OccursAt(s, p, r.value)
    ensures r.Some? ==> forall k :: from <= k < r.value ==> !OccursAt(s, p, k)
    ensures r.None? ==> forall k :: from <= k ==> !OccursAt(s, p, k)
    decreases |s| - from
  {
    if from + |p| > |s| then None
    else if OccursAt(s, p, from) then Some(from)
    else IndexOf(s, p, from + 1)
  }

  /** `s.replace(p, r)` with a string pattern: only the first occurrence is replaced. */
  function ReplaceFirst(s: string, p: string, r: string): string {
    match IndexOf(s, p, 0)
    case None => s
    case Some(k) => s[..k] + r + s[k + |p|..]
  }

  /** Without an occurrence of the pattern, replacing changes nothing. */
  lemma ReplaceFirstAbsent(s: string, p: string, r: string)
    requires forall k: nat :: !OccursAt(s, p, k)
    ensures ReplaceFirst(s, p, r) == s
  {
  }

  /** Only the first occurrence, at `k`, is replaced. */
  lemma ReplaceFirstAt(s: string, p: string, r: string, k: nat)
    requires OccursAt(s, p, k) && forall j: nat :: j < k ==> !OccursAt(s, p, j)
    ensures ReplaceFirst(s, p, r) == s[..k] + r + s[k + |p|..]
  {
    assert IndexOf(s, p, 0) == Some(k);
  }

  /** `s.replace(/c/g, d)` for a single character `c`. */
  function ReplaceAllChar(s: string, c: char, d: char): (t: string)
    ensures |t| == |s|
    ensures forall i :: 0 <= i < |s| && s[i] != c ==> t[i] == s[i]
    ensures forall i :: 0 <= i < |s| && s[i] == c ==> t[i] == d
    ensures c != d ==> c !in t
  {
    seq(|s|, i requires 0 <= i < |s| => if s[i] == c then d else s[i])
  }

  /** `s` without its leading white space. */
  function TrimStart(s: string): (r: string)
    ensures |r| <= |s| && r == s[|s| - |r|..]
    ensures |r| == 0 || !IsWhitespace(r[0])
    ensures forall i :: 0 <= i < |s| - |r| ==> IsWhitespace(s[i])
    decreases |s|
  {
    if |s| > 0 && IsWhitespace(s[0]) then TrimStart(s[1..]) else s
  }

  /** `s` without its trailing white space. */
  function TrimEnd(s: string): (r: string)
    ensures |r| <= |s| && r == s[..|r|]
    ensures |r| == 0 || !IsWhitespace(r[|r| - 1])
    ensures forall i :: |r| <= i < |s| ==> IsWhitespace(s[i])
    decreases |s|
  {
    if |s| > 0 && IsWhitespace(s[|s| - 1]) then TrimEnd(s[..|s| - 1]) else s
  }

  /** `s.trim()`. */
  function Trim(s: string): (r: string)
    ensures |r| == 0 || (!IsWhitespace(r[0]) && !IsWhitespace(r[|r| - 1]))
    ensures |r| <= |s|
    ensures (|s| == 0 || (!IsWhitespace(s[0]) && !IsWhitespace(s[|s| - 1]))) ==> r == s
    ensures exists i, j :: TrimmedWindow(s, r, i, j)
  {
    TrimWindow(s);
    TrimEnd(TrimStart(s))
  }

  /** `r` is the slice `s[i..j]` and only white space lies outside it. */
  predicate TrimmedWindow(s: string, r: string, i: int, j: int)
  {
    && 0 <= i <= j <= |s| && r == s[i..j]
    && (forall k :: 0 <= k < i ==> IsWhitespace(s[k]))
    && (forall k :: j <= k < |s| ==> IsWhitespace(s[k]))
  }

  /** What `Trim` drops is white space at either end. */
  lemma TrimWindow(s: string)
    ensures exists i, j :: TrimmedWindow(s, TrimEnd(TrimStart(s)), i, j)
  {
    var t := TrimStart(s);
    var r := TrimEnd(t);
    var i := |s| - |t|;
    SuffixPrefix(s, t, r);
    SuffixTail(s, t, |r|);
    assert TrimmedWindow(s, r, i, i + |r|);
  }

  /** A prefix of a suffix is a slice. */
  lemma SuffixPrefix(s: string, t: string, r: string)
    requires |t| <= |s| && t == s[|s| - |t|..] && |r| <= |t| && r == t[..|r|]
    ensures r == s[|s| - |t|..|s| - |t| + |r|]
  {
    var i := |s| - |t|;
    forall k | 0 <= k < |r|
      ensures r[k] == s[i + k]
    {
      assert r[k] == t[k] == s[i + k];
    }
  }

  /** White space at the end of a suffix is white space at the end of the text. */
  lemma SuffixTail(s: string, t: string, n: nat)
    requires |t| <= |s| && t == s[|s| - |t|..] && n <= |t|
    requires forall k :: n <= k < |t| ==> IsWhitespace(t[k])
    ensures forall k :: |s| - |t| + n <= k < |s| ==> IsWhitespace(s[k])
  {
    forall k | |s| - |t| + n <= k < |s|
      ensures IsWhitespace(s[k])
    {
      assert s[k] == t[k - (|s| - |t|)];
    }
  }

  /** `parts.join(sep)` for a one-character separator. */
  function Join(parts: seq<string>, sep: char): string
  {
    if |parts| == 0 then ""
    else if |parts| == 1 then parts[0]
    else parts[0] + [sep] + Join(parts[1..], sep)
  }

  /** A join of at least one piece starts with the first piece and ends with the last. */
  lemma {:induction false} JoinEnds(parts: seq<string>, sep: char)
    requires |parts| >= 1
    ensures StartsWith(Join(parts, sep), parts[0]) && EndsWith(Join(parts, sep), parts[|parts| - 1])
    decreases |parts|
  {
    if |parts| > 1 {
      JoinEnds(parts[1..], sep);
      var rest := Join(parts[1..], sep);
      var s := parts[0] + [sep] + rest;
      assert s[|s| - |rest|..] == rest;
    }
  }

  /** `s.split(sep)` for a one-character separator: never empty. */
  function Split(s: string, sep: char): (parts: seq<string>)
    ensures |parts| >= 1
    decreases |s|
  {
    if |s| == 0 then [""]
    else
      var rest := Split(s[1..], sep);
      if s[0] == sep then [""] + rest
      else [[s[0]] + rest[0]] + rest[1..]
  }

  /** The pieces of a split are free of the separator, and joining them gives the text back. */
  lemma {:induction false} SplitPieces(s: string, sep: char)
    ensures var parts := Split(s, sep);
            (forall i :: 0 <= i < |parts| ==> sep !in parts[i]) && Join(parts, sep) == s
    decreases |s|
  {
    if |s| > 0 {
      var rest := Split(s[1..], sep);
      SplitPieces(s[1..], sep);
      if s[0] == sep {
        JoinEmptyFirst(rest, sep);
      } else {
        JoinExtendFirst(s[0], rest, sep);
      }
      assert s == [s[0]] + s[1..];
    }
  }

  /** Joining after an empty first piece puts a separator in front. */
  lemma JoinEmptyFirst(rest: seq<string>, sep: char)
    requires |rest| >= 1
    ensures Join([""] + rest, sep) == [sep] + Join(rest, sep)
  {
    assert ([""] + rest)[1..] == rest;
  }

  /** Joining with a character put in front of the first piece puts it in front of the join. */
  lemma JoinExtendFirst(c: char, rest: seq<string>, sep: char)
    requires |rest| >= 1
    ensures Join([[c] + rest[0]] + rest[1..], sep) == [c] + Join(rest, sep)
  {
    var parts := [[c] + rest[0]] + rest[1..];
    assert parts[1..] == rest[1..];
  }

  /** The first separator in `u + [sep] + r` is the one after `u`. */
  lemma SeparatorPosition(u: string, r: string, sep: char)
    requires sep !in u
    ensures IndexOf(u + [sep] + r, [sep], 0) == Some(|u|)
  {
    var x := u + [sep] + r;
    assert OccursAt(x, [sep], |u|);
    forall k: nat | k < |u|
      ensures !OccursAt(x, [sep], k)
    {
      assert x[k] == u[k];
    }
  }

  /** Joining is injective on non-empty lists of pieces free of the separator. */
  lemma {:induction false} JoinInjective(a: seq<string>, b: seq<string>, sep: char)
    requires |a| >= 1 && |b| >= 1
    requires forall i :: 0 <= i < |a| ==> sep !in a[i]
    requires forall i :: 0 <= i < |b| ==> sep !in b[i]
    requires Join(a, sep) == Join(b, sep)
    ensures a == b
    decreases |a|
  {
    var x := Join(a, sep);
    if |a| > 1 && |b| > 1 {
      assert x == a[0] + [sep] + Join(a[1..], sep);
      assert x == b[0] + [sep] + Join(b[1..], sep);
      SeparatorPosition(a[0], Join(a[1..], sep), sep);
      SeparatorPosition(b[0], Join(b[1..], sep), sep);
      assert a[0] == x[..|a[0]|] == b[0];
      assert Join(a[1..], sep) == x[|a[0]| + 1..] == Join(b[1..], sep);
      JoinInjective(a[1..], b[1..], sep);
      assert a == [a[0]] + a[1..];
      assert b == [b[0]] + b[1..];
    }
  }

  /** Splitting undoes joining: the round trip `join` then `split`. */
  lemma SplitJoin(parts: seq<string>, sep: char)
    requires |parts| >= 1
    requires forall i :: 0 <= i < |parts| ==> sep !in parts[i]
    ensures Split(Join(parts, sep), sep) == parts
  {
    SplitPieces(Join(parts, sep), sep);
    JoinInjective(Split(Join(parts, sep), sep), parts, sep);
  }

  /** A join starts with its first piece. */
  lemma JoinFirst(parts: seq<string>, sep: char)
    requires |parts| >= 1 && |parts[0]| > 0
    ensures var s := Join(parts, sep); |s| > 0 && s[0] == parts[0][0]
  {
  }

  /** A join ends with its last piece. */
  lemma {:induction false} JoinLast(parts: seq<string>, sep: char)
    requires |parts| >= 1 && |parts[|parts| - 1]| > 0
    ensures var s := Join(parts, sep); var p := parts[|parts| - 1];
            |s| >= |p| && s[|s| - 1] == p[|p| - 1]
    decreases |parts|
  {
    if |parts| > 1 {
      JoinLast(parts[1..], sep);
    }
  }

  /** A non-empty sequence is its front followed by its last element. */
  lemma FrontLast<T>(s: seq<T>)
    requires |s| > 0
    ensures s == s[..|s| - 1] + [s[|s| - 1]]
  {
  }

  lemma TakeNext<T>(s: seq<T>, i: nat)
    requires i < |s|
    ensures s[..i + 1] == s[..i] + [s[i]]
  {
  }

  lemma TakeAll<T>(s: seq<T>)
    ensures s[..|s|] == s
  {
  }

  lemma ConcatEmpty<T>(s: seq<T>)
    ensures s + [] == s
  {
  }

  lemma ConcatAssoc<T>(a: seq<T>, b: seq<T>, c: seq<T>)
    ensures (a + b) + c == a + (b + c)
  {
  }

  lemma ConcatAssoc3<T>(a: seq<T>, b: seq<T>, c: seq<T>, d: seq<T>)
    ensures a + b + c + d == a + (b + (c + d))
  {
  }

  lemma ConcatGroup<T>(a: seq<T>, b: seq<T>, c: seq<T>, d: seq<T>, e: seq<T>)
    ensures a + b + c + d + e == a + (b + (c + d + e))
  {
  }

  lemma ConcatAssoc4<T>(a: seq<T>, b: seq<T>, c: seq<T>, d: seq<T>, e: seq<T>, f: seq<T>)
    ensures a + b + c + d + e + f == a + (b + (c + d + e + f))
  {
  }

  /** A slice is the concatenation of its pieces between the given cut points. */
  lemma SliceParts<T>(s: seq<T>, i0: nat, i1: nat, i2: nat, i3: nat, i4: nat, i5: nat)
    requires i0 <= i1 <= i2 <= i3 <= i4 <= i5 <= |s|
    ensures s[i0..i5] == s[i0..i1] + s[i1..i2] + s[i2..i3] + s[i3..i4] + s[i4..i5]
  {
    SliceSplit(s, i0, i1, i2);
    SliceSplit(s, i0, i2, i3);
    SliceSplit(s, i0, i3, i4);
    SliceSplit(s, i0, i4, i5);
  }

  lemma SliceSplit<T>(s: seq<T>, i: nat, j: nat, k: nat)
    requires i <= j <= k <= |s|
    ensures s[i..k] == s[i..j] + s[j..k]
  {
  }

  /** The slices of `a + b + c + d + e` at the part boundaries are the parts. */
  lemma FiveParts<T>(a: seq<T>, b: seq<T>, c: seq<T>, d: seq<T>, e: seq<T>)
    ensures var s := a + b + c + d + e;
            var q := |a|;
            var w := q + |b| + |c|;
            && |s| == w + |d| + |e|
            && s[0..q] == a && s[q..q + |b|] == b && s[q + |b|..w] == c
            && s[w..w + |d|] == d && s[w + |d|..] == e
  {
  }

  /** Where `a + b + c + d + e` occurs at `p`, each part occurs right after the one before. */
  lemma PartsAt<T>(s: seq<T>, p: nat, a: seq<T>, b: seq<T>, c: seq<T>, d: seq<T>, e: seq<T>)
    requires p + |a + b + c + d + e| <= |s| && s[p..p + |a + b + c + d + e|] == a + b + c + d + e
    ensures var q := p + |a|;
            var r := q + |b|;
            var u := r + |c|;
            var v := u + |d|;
            s[p..q] == a && s[q..r] == b && s[r..u] == c && s[u..v] == d && s[v..v + |e|] == e
  {
    TwoPartsAt(s, p, a + b + c + d, e);
    TwoPartsAt(s, p, a + b + c, d);
    TwoPartsAt(s, p, a + b, c);
    TwoPartsAt(s, p, a, b);
  }

  /** Where `a + b` occurs at `p`, `a` occurs at `p` and `b` right after it. */
  lemma TwoPartsAt<T>(s: seq<T>, p: nat, a: seq<T>, b: seq<T>)
    requires p + |a + b| <= |s| && s[p..p + |a + b|] == a + b
    ensures s[p..p + |a|] == a && s[p + |a|..p + |a| + |b|] == b
  {
    var t := a + b;
    assert s[p..p + |a|] == a by {
      forall k | 0 <= k < |a|
        ensures s[p..p + |a|][k] == a[k]
      {
        assert s[p..p + |a|][k] == s[p..p + |t|][k] == t[k];
      }
    }
    assert s[p + |a|..p + |a| + |b|] == b by {
      forall k | 0 <= k < |b|
        ensures s[p + |a|..p + |a| + |b|][k] == b[k]
      {
        assert s[p + |a|..p + |a| + |b|][k] == s[p..p + |t|][|a| + k] == t[|a| + k];
      }
    }
  }
}
