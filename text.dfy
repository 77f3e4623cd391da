/**
 The three string operations the extractor relies on: JavaScript's
 `String.prototype.trim`, `String.prototype.toLowerCase` (restricted to the
 Latin letters, see `Lower`) and `String.prototype.includes`.
 */
module Text {

  /** ECMAScript WhiteSpace and LineTerminator code points: what `trim` removes. */
  predicate IsWhitespace(c: char)
  {
    || c == '\t' || c == '\n' || c == '\U{000B}' || c == '\U{000C}' || c == '\r'
    || c == ' ' || c == '\U{00A0}' || c == '\U{1680}'
    || ('\U{2000}' <= c <= '\U{200A}')
    || c == '\U{2028}' || c == '\U{2029}' || c == '\U{202F}' || c == '\U{205F}'
    || c == '\U{3000}' || c == '\U{FEFF}'
  }

  /** Upper-case letters that `Lower` maps: ASCII A-Z and Latin-1 À-Þ except ×. */
  predicate IsUpper(c: char)
  {
    ('A' <= c <= 'Z') || ('\U{00C0}' <= c <= '\U{00DE}' && c != '\U{00D7}')
  }

  function Lower(c: char): (d: char)
    ensures !IsUpper(d)
    ensures IsUpper(c) ==> d as int == c as int + 32
    ensures !IsUpper(c) ==> d == c
  {
    if IsUpper(c) then (c as int + 32) as char else c
  }

  /** `toLowerCase`, code point by code point. */
  function ToLower(s: string): (r: string)
    ensures |r| == |s|
    ensures forall i :: 0 <= i < |s| ==> !IsUpper(r[i])
    ensures forall i :: 0 <= i < |s| && !IsUpper(s[i]) ==> r[i] == s[i]
    ensures forall i :: 0 <= i < |s| && IsUpper(s[i]) ==> r[i] as int == s[i] as int + 32
  {
    seq(|s|, i requires 0 <= i < |s| => Lower(s[i]))
  }

  /** `trimStart`: drops the longest all-whitespace prefix. */
  function TrimStart(s: string): string
  {
    if |s| > 0 && IsWhitespace(s[0]) then TrimStart(s[1..]) else s
  }

  /** `trimEnd`: drops the longest all-whitespace suffix. */
  function TrimEnd(s: string): string
  {
    if |s| > 0 && IsWhitespace(s[|s| - 1]) then TrimEnd(s[..|s| - 1]) else s
  }

  function Trim(s: string): string
  {
    TrimEnd(TrimStart(s))
  }

  lemma {:induction false} TrimStartShape(s: string)
    ensures |TrimStart(s)| <= |s| && TrimStart(s) == s[|s| - |TrimStart(s)|..]
    ensures forall i :: 0 <= i < |s| - |TrimStart(s)| ==> IsWhitespace(s[i])
    ensures TrimStart(s) == [] || !IsWhitespace(TrimStart(s)[0])
    decreases |s|
  {
    if |s| > 0 && IsWhitespace(s[0]) {
      TrimStartShape(s[1..]);
      assert s[1..][|s| - 1 - |TrimStart(s)|..] == s[|s| - |TrimStart(s)|..];
    }
  }

  lemma {:induction false} TrimEndShape(s: string)
    ensures |TrimEnd(s)| <= |s| && TrimEnd(s) == s[..|TrimEnd(s)|]
    ensures forall i :: |TrimEnd(s)| <= i < |s| ==> IsWhitespace(s[i])
    ensures TrimEnd(s) == [] || !IsWhitespace(TrimEnd(s)[|TrimEnd(s)| - 1])
    decreases |s|
  {
    if |s| > 0 && IsWhitespace(s[|s| - 1]) {
      TrimEndShape(s[..|s| - 1]);
      assert s[..|s| - 1][..|TrimEnd(s)|] == s[..|TrimEnd(s)|];
    }
  }

  predicate OccursAt(s: string, sub: string, i: nat)
  {
    i + |sub| <= |s| && s[i..i + |sub|] == sub
  }

  /** `s.includes(sub)`: some suffix of `s` starts with `sub`. */
  predicate Contains(s: string, sub: string)
    decreases |s|
  {
    sub <= s || (|s| > 0 && Contains(s[1..], sub))
  }

  /** Number of leading whitespace characters `trim` removes. */
  function Leading(s: string): (n: nat)
    ensures n <= |s|
  {
    TrimStartShape(s);
    |s| - |TrimStart(s)|
  }

  /**
   Trim keeps exactly the slice between the outer whitespace runs, and the
   slice neither starts nor ends with whitespace.
   */
  lemma TrimShape(s: string)
    ensures Leading(s) + |Trim(s)| <= |s|
    ensures Trim(s) == s[Leading(s)..Leading(s) + |Trim(s)|]
    ensures forall k :: 0 <= k < Leading(s) ==> IsWhitespace(s[k])
    ensures forall k :: Leading(s) + |Trim(s)| <= k < |s| ==> IsWhitespace(s[k])
    ensures Trim(s) == [] || (!IsWhitespace(Trim(s)[0]) && !IsWhitespace(Trim(s)[|Trim(s)| - 1]))
  {
    var t := TrimStart(s);
    var r := TrimEnd(t);
    TrimStartShape(s);
    TrimEndShape(t);
    var i := |s| - |t|;
    var j := i + |r|;
    assert s[i..j] == t[..|r|];
    forall k | j <= k < |s| ensures IsWhitespace(s[k]) {
      assert s[k] == t[k - i];
    }
  }

  lemma TrimIdempotent(s: string)
    ensures Trim(Trim(s)) == Trim(s)
  {
    TrimShape(s);
  }

  lemma {:induction false} OccursContains(s: string, sub: string, i: nat)
    requires OccursAt(s, sub, i)
    ensures Contains(s, sub)
    decreases i
  {
    if i == 0 {
      assert s[..|sub|] == sub;
    } else {
      assert s[1..][i - 1..i - 1 + |sub|] == s[i..i + |sub|];
      OccursContains(s[1..], sub, i - 1);
    }
  }

  lemma {:induction false} ContainsOccurs(s: string, sub: string) returns (i: nat)
    requires Contains(s, sub)
    ensures OccursAt(s, sub, i)
    decreases |s|
  {
    if sub <= s {
      assert s[0..|sub|] == sub;
      i := 0;
    } else {
      var j := ContainsOccurs(s[1..], sub);
      assert s[j + 1..j + 1 + |sub|] == s[1..][j..j + |sub|];
      i := j + 1;
    }
  }

  /** `Contains` agrees with the textbook definition of a substring occurrence. */
  lemma ContainsIff(s: string, sub: string)
    ensures Contains(s, sub) <==> exists i: nat :: OccursAt(s, sub, i)
  {
    if Contains(s, sub) {
      var i := ContainsOccurs(s, sub);
    }
    forall i: nat | OccursAt(s, sub, i) ensures Contains(s, sub) {
      OccursContains(s, sub, i);
    }
  }

  /** Every character of a contained string occurs in the containing one. */
  lemma ContainsChars(s: string, sub: string, k: nat)
    requires Contains(s, sub) && k < |sub|
    ensures sub[k] in s
  {
    ContainsIff(s, sub);
    var i: nat :| OccursAt(s, sub, i);
    assert s[i + k] == s[i..i + |sub|][k];
  }

  lemma LowerHasNoUpper(s: string)
    ensures forall c :: c in ToLower(s) ==> !IsUpper(c)
  {
  }

  lemma TrimChars(s: string)
    ensures forall c :: c in Trim(s) ==> c in s
  {
    TrimShape(s);
    var i := Leading(s);
    forall c | c in Trim(s) ensures c in s {
      var k :| 0 <= k < |Trim(s)| && Trim(s)[k] == c;
      assert s[i + k] == c;
    }
  }

  /**
   A search string holding an upper-case letter is never found in a lowered,
   trimmed text: only the text is lowered before `includes`.
   */
  lemma UpperNeverFound(text: string, sub: string, k: nat)
    requires k < |sub| && IsUpper(sub[k])
    ensures !Contains(Trim(ToLower(text)), sub)
  {
    if Contains(Trim(ToLower(text)), sub) {
      ContainsChars(Trim(ToLower(text)), sub, k);
      TrimChars(ToLower(text));
      LowerHasNoUpper(text);
      assert false;
    }
  }

  /**
   Trimming cannot change whether a phrase that starts and ends with a
   non-whitespace character occurs.
   */
  lemma TrimKeepsPhrase(s: string, p: string)
    requires |p| > 0 && !IsWhitespace(p[0]) && !IsWhitespace(p[|p| - 1])
    ensures Contains(Trim(s), p) <==> Contains(s, p)
  {
    if Contains(s, p) {
      PhraseInTrim(s, p);
    }
    if Contains(Trim(s), p) {
      PhraseFromTrim(s, p);
    }
  }

  lemma PhraseFromTrim(s: string, p: string)
    requires Contains(Trim(s), p)
    ensures Contains(s, p)
  {
    var m := ContainsOccurs(Trim(s), p);
    var i := Leading(s);
    assert i + |Trim(s)| <= |s| && Trim(s) == s[i..i + |Trim(s)|] by { TrimShape(s); }
    SliceOfSlice(s, i, i + |Trim(s)|, m, m + |p|);
    OccursContains(s, p, i + m);
  }

  lemma PhraseInTrim(s: string, p: string)
    requires |p| > 0 && !IsWhitespace(p[0]) && !IsWhitespace(p[|p| - 1])
    requires Contains(s, p)
    ensures Contains(Trim(s), p)
  {
    var m := ContainsOccurs(s, p);
    PhraseInsideTrim(s, p, m);
    var i := Leading(s);
    assert i + |Trim(s)| <= |s| && Trim(s) == s[i..i + |Trim(s)|] by { TrimShape(s); }
    SliceOfSlice(s, i, i + |Trim(s)|, m - i, m - i + |p|);
    OccursContains(Trim(s), p, m - i);
  }

  /** An occurrence of such a phrase lies wholly inside the trimmed slice. */
  lemma PhraseInsideTrim(s: string, p: string, m: nat)
    requires |p| > 0 && !IsWhitespace(p[0]) && !IsWhitespace(p[|p| - 1])
    requires OccursAt(s, p, m)
    ensures Leading(s) <= m && m + |p| <= Leading(s) + |Trim(s)|
  {
    TrimShape(s);
    var last := m + |p| - 1;
    assert s[m] == p[0] by { assert s[m..m + |p|][0] == s[m]; }
    assert s[last] == p[|p| - 1] by { assert s[m..m + |p|][|p| - 1] == s[last]; }
  }

  lemma SliceOfSlice(s: string, i: nat, j: nat, a: nat, b: nat)
    requires i <= j <= |s| && a <= b <= j - i
    ensures s[i..j][a..b] == s[i + a..i + b]
  {
    var u, v := s[i..j][a..b], s[i + a..i + b];
    assert |u| == |v|;
    forall k | 0 <= k < |u| ensures u[k] == v[k] {
      assert u[k] == s[i..j][a + k] == s[i + a + k];
    }
  }
}
