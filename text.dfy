/**
 * ASCII-level models of Python's `str.strip()` and `str.lower()`, the two
 * normalisations the quiz applies to what the learner types.
 */
module Text {

  /** The ASCII characters for which Python's `str.isspace()` holds:
      tab, line feed, vertical tab, form feed, carriage return,
      the four information separators 0x1C..0x1F, and space. */
  predicate IsSpace(c: char)
    ensures IsSpace(c) <==> c == ' ' || c == '\t' || c == '\n' || c == '\r' || c == '\U{B}' || c == '\U{C}' || '\U{1C}' <= c <= '\U{1F}'
  {
    var n := c as int;
    n == 32 || 9 <= n <= 13 || 28 <= n <= 31
  }

  predicate IsUpper(c: char) {
    'A' <= c <= 'Z'
  }

  /** `str.lower()` on one ASCII character. */
  function LowerChar(c: char): char {
    if IsUpper(c) then (c as int + 32) as char else c
  }

  predicate AllSpace(s: string) {
    forall i :: 0 <= i < |s| ==> IsSpace(s[i])
  }

  predicate NoUpper(s: string) {
    forall i :: 0 <= i < |s| ==> !IsUpper(s[i])
  }

  /** Neither end of `s` is whitespace: what `strip()` leaves behind. */
  predicate Trimmed(s: string) {
    s == [] || (!IsSpace(s[0]) && !IsSpace(s[|s| - 1]))
  }

  /** A string the quiz's normalisation leaves as it is. */
  predicate IsNormal(s: string) {
    Trimmed(s) && NoUpper(s)
  }

  /** `a` and `b` spell the same thing up to the letter case of each position. */
  predicate CaseVariant(a: string, b: string) {
    && |a| == |b|
    && forall i :: 0 <= i < |a| ==>
         a[i] == b[i]
         || (IsUpper(a[i]) && b[i] as int == a[i] as int + 32)
         || (IsUpper(b[i]) && a[i] as int == b[i] as int + 32)
  }

  /** The scan `str.strip()` starts with: the first index at or after `i`
      that is not whitespace, or `|s|` when there is none. */
  function FirstNonSpace(s: string, i: nat): (k: nat)
    requires i <= |s|
    ensures i <= k <= |s| && AllSpace(s[i..k])
    ensures k == |s| || !IsSpace(s[k])
    decreases |s| - i
  {
    if i < |s| && IsSpace(s[i]) then FirstNonSpace(s, i + 1) else i
  }

  /** The scan `str.strip()` ends with: walking down from `j`, but never below `i`,
      the index just past the last character that is not whitespace. */
  function EndOfText(s: string, i: nat, j: nat): (k: nat)
    requires i <= j <= |s|
    ensures i <= k <= j && AllSpace(s[k..j])
    ensures k == i || !IsSpace(s[k - 1])
    decreases j
  {
    if i < j && IsSpace(s[j - 1]) then
      var k := EndOfText(s, i, j - 1);
      assert AllSpace(s[k..j]) by {
        forall t | 0 <= t < j - k
          ensures IsSpace(s[k..j][t])
        {
          if t < j - 1 - k {
            assert s[k..j][t] == s[k..j - 1][t];
          }
        }
      }
      k
    else
      j
  }

  /** Where the text kept by `str.strip()` starts. */
  function StripStart(s: string): nat {
    FirstNonSpace(s, 0)
  }

  /** Where the text kept by `str.strip()` stops. */
  function StripStop(s: string): nat {
    EndOfText(s, StripStart(s), |s|)
  }

  /** `str.strip()`: `s` without its leading and trailing whitespace. */
  function Strip(s: string): (r: string)
    ensures |r| <= |s| && Trimmed(r)
  {
    s[StripStart(s)..StripStop(s)]
  }

  /** `str.lower()` restricted to ASCII letters. */
  function Lower(s: string): (r: string)
    ensures NoUpper(r)
  {
    seq(|s|, i requires 0 <= i < |s| => LowerChar(s[i]))
  }

  /** What the quiz compares: `attempt.strip().lower()`. */
  function Normalise(s: string): (r: string)
    ensures IsNormal(r)
  {
    StripLower(Strip(s));
    Lower(Strip(s))
  }

  /** The start scan stops at the only place it can: the first non-space at or after `i`. */
  lemma FirstNonSpaceAt(s: string, i: nat, k: nat)
    requires i <= k <= |s| && AllSpace(s[i..k])
    requires k == |s| || !IsSpace(s[k])
    ensures FirstNonSpace(s, i) == k
  {
  }

  /** The end scan stops at the only place it can: just past the last non-space below `j`. */
  lemma EndOfTextAt(s: string, i: nat, j: nat, k: nat)
    requires i <= k <= j <= |s| && AllSpace(s[k..j])
    requires k == i || !IsSpace(s[k - 1])
    ensures EndOfText(s, i, j) == k
  {
  }

  lemma SplitThree(s: string, i: nat, j: nat)
    requires i <= j <= |s|
    ensures s == s[..i] + s[i..j] + s[j..]
  {
  }

  /** Padding `s` and cutting it at `i` and `j` can be regrouped around the middle part. */
  lemma PadSplit(p: string, s: string, q: string, i: nat, j: nat)
    requires i <= j <= |s|
    ensures p + s + q == (p + s[..i]) + s[i..j] + (s[j..] + q)
  {
    SplitThree(s, i, j);
  }

  lemma AllSpaceConcat(a: string, b: string)
    ensures AllSpace(a + b) <==> AllSpace(a) && AllSpace(b)
  {
    if AllSpace(a + b) {
      assert forall i :: 0 <= i < |a| ==> a[i] == (a + b)[i];
      assert forall i :: 0 <= i < |b| ==> b[i] == (a + b)[|a| + i];
    }
  }

  /** Stripping is determined by the text between the padding: whatever
      whitespace surrounds a trimmed `m`, `strip()` returns exactly `m`. */
  lemma StripPadded(p: string, m: string, q: string)
    requires AllSpace(p) && AllSpace(q) && Trimmed(m)
    ensures Strip(p + m + q) == m
  {
    var s := p + m + q;
    var i, j := |p|, |p| + |m|;
    assert s[..i] == p && s[i..j] == m && s[j..] == q;
    if m == [] {
      AllSpaceConcat(p, q);
      assert s[0..|s|] == s == p + q;
      FirstNonSpaceAt(s, 0, |s|);
      EndOfTextAt(s, |s|, |s|, |s|);
    } else {
      assert s[0..i] == p && s[i] == m[0];
      FirstNonSpaceAt(s, 0, i);
      assert s[j..|s|] == q && s[j - 1] == m[|m| - 1];
      EndOfTextAt(s, i, |s|, j);
    }
  }

  /** Surrounding whitespace never changes what `strip()` returns. */
  lemma StripIgnoresPadding(p: string, s: string, q: string)
    requires AllSpace(p) && AllSpace(q)
    ensures Strip(p + s + q) == Strip(s)
  {
    var i, j := StripStart(s), StripStop(s);
    assert AllSpace(s[..i]) by { assert s[..i] == s[0..i]; }
    assert AllSpace(s[j..]) by { assert s[j..] == s[j..|s|]; }
    AllSpaceConcat(p, s[..i]);
    AllSpaceConcat(s[j..], q);
    PadSplit(p, s, q, i, j);
    StripPadded(p + s[..i], s[i..j], s[j..] + q);
  }

  /** `strip()` is idempotent. */
  lemma StripIdempotent(s: string)
    ensures Strip(Strip(s)) == Strip(s)
  {
    StripPadded([], Strip(s), []);
    assert [] + Strip(s) + [] == Strip(s);
  }

  /** Lower-casing keeps the length and changes no character's spacing. */
  lemma LowerShape(s: string)
    ensures |Lower(s)| == |s|
    ensures forall i :: 0 <= i < |s| ==> (IsSpace(Lower(s)[i]) <==> IsSpace(s[i]))
  {
  }

  /** Lower-casing a trimmed string keeps it trimmed. */
  lemma StripLower(s: string)
    requires Trimmed(s)
    ensures Trimmed(Lower(s))
  {
    LowerShape(s);
  }

  /** `lower()` changes exactly the upper-case letters: it is the identity precisely on strings without them. */
  lemma LowerFixedIff(s: string)
    ensures Lower(s) == s <==> NoUpper(s)
  {
    if NoUpper(s) {
      assert forall i :: 0 <= i < |s| ==> Lower(s)[i] == s[i];
    }
  }

  /** Two strings lower-case to the same string exactly when they differ only in letter case. */
  lemma LowerEqIff(a: string, b: string)
    ensures Lower(a) == Lower(b) <==> CaseVariant(a, b)
  {
    if Lower(a) == Lower(b) {
      forall i | 0 <= i < |a|
        ensures a[i] == b[i] || (IsUpper(a[i]) && b[i] as int == a[i] as int + 32) || (IsUpper(b[i]) && a[i] as int == b[i] as int + 32)
      {
        assert LowerChar(a[i]) == Lower(a)[i] == Lower(b)[i] == LowerChar(b[i]);
      }
    }
    if CaseVariant(a, b) {
      forall i | 0 <= i < |a| ensures Lower(a)[i] == Lower(b)[i] {
      }
    }
  }

  /** Lower-casing commutes with slicing. */
  lemma LowerSlice(s: string, a: nat, b: nat)
    requires a <= b <= |s|
    ensures Lower(s)[a..b] == Lower(s[a..b])
  {
  }

  /** Lower-casing and stripping commute. */
  lemma StripLowerCommute(s: string)
    ensures Strip(Lower(s)) == Lower(Strip(s))
  {
    var i, j := StripStart(s), StripStop(s);
    var l := Lower(s);
    LowerShape(s);
    assert AllSpace(l[..i]) by {
      assert s[..i] == s[0..i];
      LowerSlice(s, 0, i);
      LowerShape(s[..i]);
    }
    assert AllSpace(l[j..]) by {
      assert s[j..] == s[j..|s|];
      LowerSlice(s, j, |s|);
      LowerShape(s[j..]);
    }
    assert l[i..j] == Lower(Strip(s)) by {
      LowerSlice(s, i, j);
    }
    StripLower(Strip(s));
    SplitThree(l, i, j);
    StripPadded(l[..i], Lower(Strip(s)), l[j..]);
  }

  /** The normalisation leaves a string alone exactly when it is already normal, so it is idempotent. */
  lemma NormaliseFixedIff(s: string)
    ensures Normalise(s) == s <==> IsNormal(s)
  {
    if IsNormal(s) {
      StripPadded([], s, []);
      assert [] + s + [] == s;
      LowerFixedIff(s);
    }
  }

  lemma NormaliseIdempotent(s: string)
    ensures Normalise(Normalise(s)) == Normalise(s)
  {
    NormaliseFixedIff(Normalise(s));
  }
}
