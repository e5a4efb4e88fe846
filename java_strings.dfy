/** The handful of `java.lang.String` operations the modelled code relies on,
    stated exactly enough that the edge cases the source meets (no separator,
    trailing empty tokens, a limit on the number of parts, leading or
    trailing blanks) behave as in Java.
 */
module JavaStrings {
  import opened Wrappers

  /** `Strings.isNullOrEmpty`. */
  predicate IsNullOrEmpty(s: Option<string>) {
    s.None? || s.value == []
  }

  /** The conjunction of a run of `checkArgument(!Strings.isNullOrEmpty(x))`. */
  predicate AllPresent(args: seq<Option<string>>) {
    forall i :: 0 <= i < |args| ==> !IsNullOrEmpty(args[i])
  }

  /** `s.indexOf(c)`: the first position of `c`, or -1. */
  function IndexOf(s: string, c: char): (r: int)
    ensures -1 <= r < |s|
    ensures r == -1 <==> c !in s
    ensures 0 <= r ==> s[r] == c && c !in s[..r]
  {
    if |s| == 0 then -1
    else if s[0] == c then 0
    else
      var k := IndexOf(s[1..], c);
      if k == -1 then -1
      else
        assert s[..k + 1] == [s[0]] + s[1..][..k];
        k + 1
  }

  /** `s.lastIndexOf(c)`: the last position of `c`, or -1. */
  function LastIndexOf(s: string, c: char): (r: int)
    ensures -1 <= r < |s|
    ensures r == -1 <==> c !in s
    ensures 0 <= r ==> s[r] == c && c !in s[r + 1..]
  {
    if |s| == 0 then -1
    else if s[|s| - 1] == c then |s| - 1
    else
      var k := LastIndexOf(s[..|s| - 1], c);
      assert s == s[..|s| - 1] + [s[|s| - 1]];
      assert c in s <==> c in s[..|s| - 1];
      assert 0 <= k ==> s[k] == c && s[k + 1..] == s[..|s| - 1][k + 1..] + [s[|s| - 1]];
      k
  }

  /** `s.startsWith(prefix)`. */
  predicate StartsWith(s: string, prefix: string) {
    |prefix| <= |s| && s[..|prefix|] == prefix
  }

  /** A sequence with a known head. */
  lemma ConsParts<T>(h: T, t: seq<T>)
    ensures ([h] + t)[0] == h && ([h] + t)[1..] == t
  {
  }

  /** A non-empty sequence is its head followed by its tail. */
  lemma HeadTail<T>(s: seq<T>)
    requires s != []
    ensures [s[0]] + s[1..] == s
  {
  }

  /** A string is the text before position `i`, the character there and the
      text after it. */
  lemma CutAt(s: string, i: nat)
    requires i < |s|
    ensures s == s[..i] + [s[i]] + s[i + 1..]
  {
  }

  /** The text before and after a character placed between two strings. */
  lemma AroundChar(a: string, c: char, b: string)
    ensures (a + [c] + b)[..|a|] == a && (a + [c] + b)[|a| + 1..] == b
  {
  }

  /** The parts glued together with `sep` between neighbours (`String.join`). */
  function Join(parts: seq<string>, sep: string): string {
    if |parts| == 0 then ""
    else if |parts| == 1 then parts[0]
    else parts[0] + sep + Join(parts[1..], sep)
  }

  /** Joining a part in front of at least one more. */
  lemma JoinCons(h: string, t: seq<string>, sep: string)
    requires t != []
    ensures Join([h] + t, sep) == h + sep + Join(t, sep)
  {
    ConsParts(h, t);
  }

  lemma {:induction false} JoinSnoc(parts: seq<string>, x: string, sep: string)
    ensures Join(parts + [x], sep) == if parts == [] then x else Join(parts, sep) + sep + x
    decreases |parts|
  {
    if |parts| <= 1 {
    } else {
      assert (parts + [x])[1..] == parts[1..] + [x];
      JoinSnoc(parts[1..], x, sep);
    }
  }

  /** One cut at the first separator, in front of the cuts of the rest. */
  lemma CutOnce(s: string, c: char, i: nat, rest: seq<string>, n: nat)
    requires i < |s| && s[i] == c && c !in s[..i]
    requires rest != [] && Join(rest, [c]) == s[i + 1..]
    requires n <= |rest| && forall k :: 0 <= k < n ==> c !in rest[k]
    ensures |[s[..i]] + rest| == |rest| + 1
    ensures forall k :: 0 <= k < n + 1 ==> c !in ([s[..i]] + rest)[k]
    ensures Join([s[..i]] + rest, [c]) == s
  {
    var r := [s[..i]] + rest;
    ConsParts(s[..i], rest);
    forall k | 0 <= k < n + 1 ensures c !in r[k] {
      if k > 0 {
        assert r[k] == rest[k - 1];
      }
    }
    JoinCons(s[..i], rest, [c]);
    CutAt(s, i);
  }

  /** The pieces between every occurrence of `c` (the split before Java drops
      trailing empty strings). */
  function Pieces(s: string, c: char): (r: seq<string>)
    ensures |r| >= 1
    ensures forall i :: 0 <= i < |r| ==> c !in r[i]
    ensures Join(r, [c]) == s
    decreases |s|
  {
    var i := IndexOf(s, c);
    if i < 0 then [s]
    else
      var rest := Pieces(s[i + 1..], c);
      CutOnce(s, c, i, rest, |rest|);
      [s[..i]] + rest
  }

  /** The longest prefix of `ts` that does not end with an empty string. */
  function DropTrailingEmpty(ts: seq<string>): (r: seq<string>)
    ensures |r| <= |ts| && r == ts[..|r|]
    ensures r == [] || r[|r| - 1] != []
    ensures forall i :: |r| <= i < |ts| ==> ts[i] == []
  {
    if |ts| > 0 && ts[|ts| - 1] == [] then DropTrailingEmpty(ts[..|ts| - 1]) else ts
  }

  /** `s.split(c)` for a one-character separator that is not a regular
      expression metacharacter: no occurrence gives the whole string, and
      otherwise trailing empty strings are removed. */
  function Split(s: string, c: char): (r: seq<string>)
    ensures c !in s ==> r == [s]
    ensures forall i :: 0 <= i < |r| ==> c !in r[i]
    ensures c in s ==> r == [] || r[|r| - 1] != []
  {
    if c !in s then [s] else DropTrailingEmpty(Pieces(s, c))
  }

  /** `s.split(c, limit)` for a positive limit: at most `limit` parts, the last
      one holding the rest of the string; empty parts are kept. */
  function SplitLimit(s: string, c: char, limit: nat): (r: seq<string>)
    requires limit >= 1
    ensures 1 <= |r| <= limit
    ensures forall i :: 0 <= i < |r| - 1 ==> c !in r[i]
    ensures Join(r, [c]) == s
    decreases limit
  {
    var i := IndexOf(s, c);
    if limit == 1 || i < 0 then [s]
    else
      var rest := SplitLimit(s[i + 1..], c, limit - 1);
      CutOnce(s, c, i, rest, |rest| - 1);
      [s[..i]] + rest
  }
  /** `split(c, limit)` stops after `limit` parts; before the last of them it
      cuts exactly where the unlimited split does. */
  lemma {:induction false} SplitLimitPieces(s: string, c: char, limit: nat)
    requires limit >= 1
    ensures |SplitLimit(s, c, limit)| == if |Pieces(s, c)| < limit then |Pieces(s, c)| else limit
    ensures forall j :: 0 <= j < |SplitLimit(s, c, limit)| - 1 ==> SplitLimit(s, c, limit)[j] == Pieces(s, c)[j]
    decreases limit
  {
    var i := IndexOf(s, c);
    if limit > 1 && i >= 0 {
      var r, p := SplitLimit(s[i + 1..], c, limit - 1), Pieces(s[i + 1..], c);
      ConsParts(s[..i], r);
      ConsParts(s[..i], p);
      SplitLimitPieces(s[i + 1..], c, limit - 1);
      forall j | 0 <= j < |SplitLimit(s, c, limit)| - 1
        ensures SplitLimit(s, c, limit)[j] == Pieces(s, c)[j]
      {
        if j > 0 {
          assert SplitLimit(s, c, limit)[j] == r[j - 1] && Pieces(s, c)[j] == p[j - 1];
        }
      }
    }
  }

  /** A string that `split(c)` cuts into at least three parts is cut into
      exactly three by `split(c, 3)`, the first two of them the same. */
  lemma SplitInThree(s: string, c: char)
    requires |Split(s, c)| >= 3
    ensures |SplitLimit(s, c, 3)| == 3
    ensures SplitLimit(s, c, 3)[0] == Split(s, c)[0] && SplitLimit(s, c, 3)[1] == Split(s, c)[1]
  {
    SplitLimitPieces(s, c, 3);
    assert c in s;
  }


  lemma IndexOfAfterFreePrefix(a: string, c: char, b: string)
    requires c !in a
    ensures IndexOf(a + [c] + b, c) == |a|
  {
    var s := a + [c] + b;
    assert s[|a|] == c;
    assert forall j :: 0 <= j < |a| ==> s[j] == a[j];
    assert forall k :: |a| < k <= |s| ==> s[..k][|a|] == c;
  }

  /** Splitting what `Join` glued back together gives the parts again. */
  lemma {:induction false} PiecesOfJoin(ts: seq<string>, c: char)
    requires |ts| >= 1
    requires forall i :: 0 <= i < |ts| ==> c !in ts[i]
    ensures Pieces(Join(ts, [c]), c) == ts
    decreases |ts|
  {
    if |ts| > 1 {
      var rest := Join(ts[1..], [c]);
      assert Join(ts, [c]) == ts[0] + [c] + rest;
      IndexOfAfterFreePrefix(ts[0], c, rest);
      AroundChar(ts[0], c, rest);
      PiecesOfJoin(ts[1..], c);
      HeadTail(ts);
    } else {
      assert c !in ts[0];
    }
  }

  /** `Split` undoes `Join` whenever no part holds the separator and Java's
      removal of trailing empty strings has nothing to remove. */
  lemma SplitOfJoin(ts: seq<string>, c: char)
    requires |ts| >= 1
    requires forall i :: 0 <= i < |ts| ==> c !in ts[i]
    requires |ts| == 1 || ts[|ts| - 1] != []
    ensures Split(Join(ts, [c]), c) == ts
  {
    var s := Join(ts, [c]);
    if |ts| == 1 {
      assert s == ts[0];
    } else {
      PiecesOfJoin(ts, c);
      assert s == ts[0] + [c] + Join(ts[1..], [c]);
      assert s[|ts[0]|] == c;
    }
  }

  /** The characters `String.trim` removes: every code point up to U+0020. */
  predicate IsTrimmed(ch: char) {
    ch <= ' '
  }

  function TrimStart(s: string): (r: string)
    ensures |r| <= |s| && r == s[|s| - |r|..]
    ensures r == [] || !IsTrimmed(r[0])
    ensures forall i :: 0 <= i < |s| - |r| ==> IsTrimmed(s[i])
  {
    if |s| > 0 && IsTrimmed(s[0]) then
      var r := TrimStart(s[1..]);
      assert s[1..][|s| - 1 - |r|..] == s[|s| - |r|..];
      assert forall i :: 1 <= i < |s| - |r| ==> s[i] == s[1..][i - 1];
      r
    else s
  }

  function TrimEnd(s: string): (r: string)
    ensures |r| <= |s| && r == s[..|r|]
    ensures r == [] || !IsTrimmed(r[|r| - 1])
    ensures forall i :: |r| <= i < |s| ==> IsTrimmed(s[i])
  {
    if |s| > 0 && IsTrimmed(s[|s| - 1]) then TrimEnd(s[..|s| - 1]) else s
  }

  /** `s.trim()`: the part of `s` left after removing the trimmed characters
      at both ends; nothing is left exactly when every character is trimmed. */
  function Trim(s: string): (r: string)
    ensures var k := |s| - |TrimStart(s)|; k + |r| <= |s| && r == s[k..k + |r|]
    ensures r == [] || (!IsTrimmed(r[0]) && !IsTrimmed(r[|r| - 1]))
    ensures r == [] <==> forall i :: 0 <= i < |s| ==> IsTrimmed(s[i])
  {
    var t := TrimStart(s);
    var r := TrimEnd(t);
    assert r != [] ==> r[0] == t[0];
    r
  }

  lemma TrimEndOfSpaced(s: string)
    requires s != [] && !IsTrimmed(s[|s| - 1])
    ensures TrimEnd(s + " ") == s
  {
    assert (s + " ")[..|s + " "| - 1] == s;
  }

  lemma {:induction false} TrimStartOfAppend(a: string, b: string)
    requires exists i :: 0 <= i < |a| && !IsTrimmed(a[i])
    ensures TrimStart(a + b) == TrimStart(a) + b
    decreases |a|
  {
    if IsTrimmed(a[0]) {
      assert (a + b)[1..] == a[1..] + b;
      var i :| 0 <= i < |a| && !IsTrimmed(a[i]);
      assert !IsTrimmed(a[1..][i - 1]);
      TrimStartOfAppend(a[1..], b);
    }
  }

  /** `Trim(s + " ")`, for text that ends with a character trim keeps, only
      trims the front of `s`. */
  lemma TrimOfSpaced(s: string)
    requires s != [] && !IsTrimmed(s[|s| - 1])
    ensures Trim(s + " ") == TrimStart(s)
  {
    TrimStartOfAppend(s, " ");
    var t := TrimStart(s);
    assert t != [] && t[|t| - 1] == s[|s| - 1];
    TrimEndOfSpaced(t);
  }

  /** Upper-casing of the ASCII letters. */
  function ToUpperAscii(ch: char): char {
    if 'a' <= ch <= 'z' then (ch as int - 32) as char else ch
  }

  /** `a.equalsIgnoreCase(b)` for a non-null `b`, with ASCII case folding. */
  predicate EqualsIgnoreCase(a: string, b: string) {
    |a| == |b| && forall i :: 0 <= i < |a| ==> ToUpperAscii(a[i]) == ToUpperAscii(b[i])
  }

  /** Equality ignoring case is an equivalence, and equal strings are equal
      ignoring case. */
  lemma EqualsIgnoreCaseIsEquivalence(a: string, b: string, c: string)
    ensures EqualsIgnoreCase(a, a)
    ensures EqualsIgnoreCase(a, b) ==> EqualsIgnoreCase(b, a)
    ensures EqualsIgnoreCase(a, b) && EqualsIgnoreCase(b, c) ==> EqualsIgnoreCase(a, c)
  {
  }

  /** `a.equalsIgnoreCase(b)` where `b` may be null (then false). */
  predicate EqualsIgnoreCaseOrNull(a: string, b: Option<string>) {
    b.Some? && EqualsIgnoreCase(a, b.value)
  }

  /** `a.compareTo(b) <= 0`: lexicographic order, a proper prefix first. */
  predicate StringLeq(a: string, b: string)
    decreases |a|
  {
    if |a| == 0 then true
    else if |b| == 0 then false
    else if a[0] != b[0] then a[0] < b[0]
    else StringLeq(a[1..], b[1..])
  }

  /** Two strings that differ in their first character compare as those
      characters do. */
  lemma FirstCharDecides(a: string, b: string)
    requires a != [] && b != [] && a[0] != b[0]
    ensures StringLeq(a, b) <==> a[0] < b[0]
  {
  }

  lemma {:induction false} StringLeqTotal(a: string, b: string)
    ensures StringLeq(a, b) || StringLeq(b, a)
    decreases |a|
  {
    if |a| > 0 && |b| > 0 && a[0] == b[0] {
      StringLeqTotal(a[1..], b[1..]);
    }
  }

  lemma {:induction false} StringLeqTransitive(a: string, b: string, c: string)
    requires StringLeq(a, b) && StringLeq(b, c)
    ensures StringLeq(a, c)
    decreases |a|
  {
    if |a| > 0 && |b| > 0 && |c| > 0 && a[0] == b[0] && b[0] == c[0] {
      StringLeqTransitive(a[1..], b[1..], c[1..]);
    }
  }

  lemma {:induction false} StringLeqAntisymmetric(a: string, b: string)
    requires StringLeq(a, b) && StringLeq(b, a)
    ensures a == b
    decreases |a|
  {
    if |a| > 0 && |b| > 0 {
      StringLeqAntisymmetric(a[1..], b[1..]);
      assert a == [a[0]] + a[1..] && b == [b[0]] + b[1..];
    }
  }

  /** Strings that share a prefix compare as their remainders do. */
  lemma {:induction false} StringLeqCommonPrefix(p: string, a: string, b: string)
    ensures StringLeq(p + a, p + b) == StringLeq(a, b)
    decreases |p|
  {
    if p == [] {
      assert p + a == a && p + b == b;
    } else {
      assert (p + a)[1..] == p[1..] + a;
      assert (p + b)[1..] == p[1..] + b;
      StringLeqCommonPrefix(p[1..], a, b);
    }
  }
}
