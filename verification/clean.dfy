/**
 Key cleaning: `cleanLocation` in location/location.ts trims the input and then
 lowercases it. The lookup key of both the cache and the upstream query is the
 cleaned string. `String.prototype.trim` removes ECMAScript WhiteSpace and
 LineTerminator characters from both ends; lowercasing is modelled on ASCII.

 The functions here carry no postconditions of their own, so that a caller
 that merely mentions a cleaned key does not pull their properties into every
 proof; the properties are the lemmas below, called where they are needed.
 */
module Clean {

  /** ECMAScript WhiteSpace and LineTerminator code points, the set `trim` removes. */
  predicate IsSpace(c: char) {
    c == '\t' || c == '\n' || c == '\U{B}' || c == '\U{C}' || c == '\r' || c == ' '
    || c == '\U{A0}' || c == '\U{1680}' || ('\U{2000}' <= c <= '\U{200A}')
    || c == '\U{2028}' || c == '\U{2029}' || c == '\U{202F}' || c == '\U{205F}'
    || c == '\U{3000}' || c == '\U{FEFF}'
  }

  predicate IsUpper(c: char) {
    'A' <= c <= 'Z'
  }

  function LowerChar(c: char): char {
    if IsUpper(c) then (c as int - 'A' as int + 'a' as int) as char else c
  }

  /** Lowercasing one character neither creates nor removes whitespace. */
  lemma LowerCharKeepsSpace(c: char)
    ensures IsSpace(LowerChar(c)) <==> IsSpace(c)
    ensures !IsUpper(LowerChar(c))
    ensures LowerChar(LowerChar(c)) == LowerChar(c)
  {
  }

  function Lower(s: string): string {
    seq(|s|, k requires 0 <= k < |s| => LowerChar(s[k]))
  }

  predicate AllSpace(s: string) {
    forall k :: 0 <= k < |s| ==> IsSpace(s[k])
  }

  /** Neither end of `s` is whitespace (vacuously true of the empty string). */
  predicate NoEdgeSpace(s: string) {
    |s| == 0 || (!IsSpace(s[0]) && !IsSpace(s[|s| - 1]))
  }

  function TrimStart(s: string): string
    decreases |s|
  {
    if |s| > 0 && IsSpace(s[0]) then TrimStart(s[1..]) else s
  }

  function TrimEnd(s: string): string
    decreases |s|
  {
    if |s| > 0 && IsSpace(s[|s| - 1]) then TrimEnd(s[..|s| - 1]) else s
  }

  /** `String.prototype.trim`. */
  function Trim(s: string): string {
    TrimEnd(TrimStart(s))
  }

  /** `cleanLocation`: trim, then lowercase. */
  function CleanLocation(s: string): string {
    Lower(Trim(s))
  }

  /** `r` is the part of `s` starting at index `i`, with only whitespace before and after it and none at its ends. */
  predicate TrimAt(r: string, s: string, i: int) {
    NoEdgeSpace(r)
    && 0 <= i <= |s| - |r| && r == s[i..i + |r|] && AllSpace(s[..i]) && AllSpace(s[i + |r|..])
  }

  /** `r` is `s` with its whitespace padding removed from both ends, stated without reference to how it is computed. */
  ghost predicate IsTrimOf(r: string, s: string) {
    exists i :: TrimAt(r, s, i)
  }

  /** `TrimStart` drops exactly the leading whitespace: a suffix that starts with a non-space, after only whitespace. */
  lemma {:induction false} TrimStartSpec(s: string)
    ensures |TrimStart(s)| <= |s| && TrimStart(s) == s[|s| - |TrimStart(s)|..]
    ensures AllSpace(s[..|s| - |TrimStart(s)|])
    ensures |TrimStart(s)| == 0 || !IsSpace(TrimStart(s)[0])
    decreases |s|
  {
    if |s| > 0 && IsSpace(s[0]) {
      var t := s[1..];
      TrimStartSpec(t);
      var n := |s| - |TrimStart(s)|;
      assert s[n..] == t[n - 1..];
      forall k | 0 <= k < n ensures IsSpace(s[..n][k]) {
        if k > 0 {
          assert s[..n][k] == t[..n - 1][k - 1];
        }
      }
    }
  }

  /** `TrimEnd` drops exactly the trailing whitespace: a prefix that ends with a non-space, before only whitespace. */
  lemma {:induction false} TrimEndSpec(s: string)
    ensures |TrimEnd(s)| <= |s| && TrimEnd(s) == s[..|TrimEnd(s)|]
    ensures AllSpace(s[|TrimEnd(s)|..])
    ensures |TrimEnd(s)| == 0 || !IsSpace(TrimEnd(s)[|TrimEnd(s)| - 1])
    decreases |s|
  {
    if |s| > 0 && IsSpace(s[|s| - 1]) {
      var t := s[..|s| - 1];
      TrimEndSpec(t);
      var m := |TrimEnd(s)|;
      assert s[..m] == t[..m];
      forall k | 0 <= k < |s| - m ensures IsSpace(s[m..][k]) {
        if m + k < |s| - 1 {
          assert s[m..][k] == t[m..][k];
        }
      }
    }
  }

  /** `Trim` removes the whitespace padding of both ends, and the kept part starts where `TrimStart` says. */
  lemma TrimSpec(s: string)
    ensures TrimAt(Trim(s), s, |s| - |TrimStart(s)|)
    ensures IsTrimOf(Trim(s), s)
  {
    TrimStartSpec(s);
    var t := TrimStart(s);
    TrimEndSpec(t);
    var r := TrimEnd(t);
    var i := |s| - |t|;
    assert r == s[i..i + |r|];
    assert s[i + |r|..] == t[|r|..];
    if |r| > 0 {
      assert r[0] == t[0];
      assert !IsSpace(r[0]) && !IsSpace(r[|r| - 1]);
    }
    assert TrimAt(r, s, i);
  }

  /** Skipping leading whitespace does not change what `TrimStart` returns. */
  lemma {:induction false} TrimStartSkips(s: string, i: nat)
    requires i <= |s| && AllSpace(s[..i])
    ensures TrimStart(s) == TrimStart(s[i..])
    decreases i
  {
    if i > 0 {
      assert s[..i][0] == s[0];
      assert s[1..][..i - 1] == s[1..i];
      forall k | 0 <= k < i - 1 ensures IsSpace(s[1..i][k]) {
        assert s[1..i][k] == s[..i][k + 1];
      }
      TrimStartSkips(s[1..], i - 1);
      assert s[1..][i - 1..] == s[i..];
    }
  }

  /** Dropping trailing whitespace does not change what `TrimEnd` returns. */
  lemma {:induction false} TrimEndSkips(s: string, j: nat)
    requires j <= |s| && AllSpace(s[j..])
    ensures TrimEnd(s) == TrimEnd(s[..j])
    decreases |s| - j
  {
    if j < |s| {
      var n := |s| - 1;
      assert s[j..][n - j] == s[n];
      assert IsSpace(s[n]);
      assert TrimEnd(s) == TrimEnd(s[..n]);
      assert s[..n][j..] == s[j..n];
      forall k | 0 <= k < n - j ensures IsSpace(s[j..n][k]) {
        assert s[j..n][k] == s[j..][k];
      }
      TrimEndSkips(s[..n], j);
      assert s[..n][..j] == s[..j];
    } else {
      assert s[..j] == s;
    }
  }

  /** `Trim` computes exactly the trim described by `TrimAt`; in particular that trim is unique. */
  lemma TrimCharacterized(a: string, s: string, i: int)
    requires TrimAt(a, s, i)
    ensures Trim(s) == a
  {
    assert 0 <= i && i + |a| <= |s|;
    assert a == s[i..i + |a|];
    var u := s[i..];
    assert |u| == |s| - i;
    assert u[|a|..] == s[i + |a|..];
    assert u[..|a|] == s[i..i + |a|];
    TrimStartSkips(s, i);
    if |a| > 0 {
      TrimOfPaddedNonEmpty(a, u);
    } else {
      TrimOfAllSpace(u);
    }
  }

  lemma TrimOfPaddedNonEmpty(a: string, u: string)
    requires 0 < |a| <= |u| && NoEdgeSpace(a) && u[..|a|] == a && AllSpace(u[|a|..])
    ensures TrimEnd(TrimStart(u)) == a
  {
    assert u[0] == a[0];
    assert TrimStart(u) == u;
    TrimEndSkips(u, |a|);
  }

  lemma TrimOfAllSpace(u: string)
    requires AllSpace(u)
    ensures TrimEnd(TrimStart(u)) == []
  {
    assert u[..|u|] == u;
    TrimStartSkips(u, |u|);
    assert u[|u|..] == [];
  }

  /** Lowercasing keeps both ends non-space and leaves no upper-case letter. */
  lemma LowerKeepsShape(t: string)
    ensures NoEdgeSpace(t) ==> NoEdgeSpace(Lower(t))
    ensures forall k :: 0 <= k < |t| ==> !IsUpper(Lower(t)[k])
  {
    if |t| > 0 {
      LowerCharKeepsSpace(t[0]);
      LowerCharKeepsSpace(t[|t| - 1]);
    }
    forall k | 0 <= k < |t|
      ensures !IsUpper(Lower(t)[k])
    {
      LowerCharKeepsSpace(t[k]);
    }
  }

  /**
   What `cleanLocation` returns: the input with its whitespace padding removed,
   lowercased; so it has no whitespace at either end and no upper-case letter.
   */
  lemma CleanSpec(s: string)
    ensures exists t :: IsTrimOf(t, s) && CleanLocation(s) == Lower(t)
    ensures NoEdgeSpace(CleanLocation(s))
    ensures forall k :: 0 <= k < |CleanLocation(s)| ==> !IsUpper(CleanLocation(s)[k])
  {
    TrimSpec(s);
    LowerKeepsShape(Trim(s));
  }

  /** Any trim of the input, lowercased, is the cleaned key. */
  lemma CleanCharacterized(s: string, t: string, i: int)
    requires TrimAt(t, s, i)
    ensures CleanLocation(s) == Lower(t)
  {
    TrimCharacterized(t, s, i);
  }

  /** A string with no whitespace at either end is its own trim. */
  lemma TrimOfTrimmed(s: string)
    requires NoEdgeSpace(s)
    ensures Trim(s) == s
  {
    if |s| > 0 {
      assert TrimStart(s) == s;
      assert TrimEnd(s) == s;
    }
  }

  lemma LowerIdempotent(s: string)
    ensures Lower(Lower(s)) == Lower(s)
  {
    forall k | 0 <= k < |s|
      ensures Lower(Lower(s))[k] == Lower(s)[k]
    {
      LowerCharKeepsSpace(s[k]);
    }
  }

  /** Cleaning an already cleaned key is a no-op; `getFromDB` re-cleans the key it is given and relies on this. */
  lemma CleanIdempotent(s: string)
    ensures CleanLocation(CleanLocation(s)) == CleanLocation(s)
  {
    CleanSpec(s);
    TrimOfTrimmed(CleanLocation(s));
    LowerIdempotent(Trim(s));
  }

  /** Two inputs that differ only in surrounding whitespace and letter case map to the same key. */
  lemma CleanIgnoresPaddingAndCase(pre: string, s: string, post: string)
    requires AllSpace(pre) && AllSpace(post)
    ensures CleanLocation(pre + Lower(s) + post) == CleanLocation(s)
  {
    TrimPadding(pre, Lower(s), post);
    LowerTrimCommutes(s);
    LowerIdempotent(Trim(s));
  }

  /** Whitespace padding around `s` does not change its trim. */
  lemma TrimPadding(pre: string, s: string, post: string)
    requires AllSpace(pre) && AllSpace(post)
    ensures Trim(pre + s + post) == Trim(s)
  {
    var i := |s| - |TrimStart(s)|;
    TrimSpec(s);
    PaddedTrimAt(pre, s, post, Trim(s), i);
    TrimCharacterized(Trim(s), pre + s + post, |pre| + i);
  }

  lemma PaddedTrimAt(pre: string, s: string, post: string, t: string, i: int)
    requires AllSpace(pre) && AllSpace(post) && TrimAt(t, s, i)
    ensures TrimAt(t, pre + s + post, |pre| + i)
  {
    var p := pre + s + post;
    var j := |pre| + i;
    assert p[j..j + |t|] == s[i..i + |t|];
    assert p[..j] == pre + s[..i];
    assert p[j + |t|..] == s[i + |t|..] + post;
  }

  lemma LowerSlice(s: string, i: nat, j: nat)
    requires i <= j <= |s|
    ensures Lower(s)[i..j] == Lower(s[i..j])
  {
  }

  lemma LowerConcat(a: string, b: string)
    ensures Lower(a + b) == Lower(a) + Lower(b)
  {
  }

  lemma LowerAllSpace(u: string)
    requires AllSpace(u)
    ensures AllSpace(Lower(u))
  {
    forall k | 0 <= k < |u| ensures IsSpace(Lower(u)[k]) {
      LowerCharKeepsSpace(u[k]);
    }
  }

  /** Lowercasing commutes with trimming, because it keeps whitespace where it was. */
  lemma LowerTrimCommutes(s: string)
    ensures Trim(Lower(s)) == Lower(Trim(s))
  {
    var i := |s| - |TrimStart(s)|;
    TrimSpec(s);
    LoweredTrimAt(Trim(s), s, i);
    TrimCharacterized(Lower(Trim(s)), Lower(s), i);
  }

  lemma LoweredTrimAt(t: string, s: string, i: int)
    requires TrimAt(t, s, i)
    ensures TrimAt(Lower(t), Lower(s), i)
  {
    var ls := Lower(s);
    LowerSlice(s, i, i + |t|);
    LowerSlice(s, 0, i);
    LowerSlice(s, i + |t|, |s|);
    assert s[0..i] == s[..i] && ls[0..i] == ls[..i];
    assert s[i + |t|..|s|] == s[i + |t|..] && ls[i + |t|..|s|] == ls[i + |t|..];
    LowerAllSpace(s[..i]);
    LowerAllSpace(s[i + |t|..]);
    LowerKeepsShape(t);
  }

  /**
   Length of a string as JavaScript's `.length` reports it: the number of
   UTF-16 code units, two for a character outside the Basic Multilingual Plane.
   */
  function Utf16Length(s: string): (n: nat)
    ensures |s| <= n <= 2 * |s|
    ensures n == |s| <==> forall k :: 0 <= k < |s| ==> s[k] as int <= 0xFFFF
    ensures n == 2 * |s| <==> forall k :: 0 <= k < |s| ==> s[k] as int > 0xFFFF
  {
    if |s| == 0 then 0
    else (if s[0] as int > 0xFFFF then 2 else 1) + Utf16Length(s[1..])
  }
}
