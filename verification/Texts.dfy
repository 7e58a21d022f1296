/** The string operations of the validators, on strings of Unicode characters. */
module Texts {
  import opened Tallies

  /** `unicode.IsSpace`. */
  predicate IsSpace(c: char) {
    var n := c as int;
    || 9 <= n <= 13 || n == 32 || n == 0x85 || n == 0xA0 || n == 0x1680 || 0x2000 <= n <= 0x200A
    || n == 0x2028 || n == 0x2029 || n == 0x202F || n == 0x205F || n == 0x3000
  }

  /** What the proofs need of `unicode.ToLower`: neither spaces nor the dash have another case. */
  ghost predicate LowerOk(lower: char -> char) {
    forall c ::
      && (IsSpace(lower(c)) <==> IsSpace(c))
      && (lower(c) == ' ' <==> c == ' ')
      && (lower(c) == '-' <==> c == '-')
  }

  /** The length in bytes of the UTF-8 encoding, which is what `len` counts. */
  function ByteLen(s: string): nat {
    if s == "" then 0 else ByteLen(s[..|s| - 1]) + Width(s[|s| - 1])
  }

  function Width(c: char): nat {
    var n := c as int;
    if n < 0x80 then 1 else if n < 0x800 then 2 else if n < 0x1_0000 then 3 else 4
  }

  function TrimLeft(s: string): string {
    if s != "" && IsSpace(s[0]) then TrimLeft(s[1..]) else s
  }

  function TrimRight(s: string): string {
    if s != "" && IsSpace(s[|s| - 1]) then TrimRight(s[..|s| - 1]) else s
  }

  function Trim(s: string): string { TrimRight(TrimLeft(s)) }

  /** Nothing to trim: empty, or a non-space at both ends. */
  predicate Tight(s: string) { s != "" ==> !IsSpace(s[0]) && !IsSpace(s[|s| - 1]) }

  lemma TrimLeftStarts(s: string)
    ensures TrimLeft(s) != "" ==> !IsSpace(TrimLeft(s)[0])
  {
  }

  lemma {:induction false} TrimRightEnds(s: string)
    ensures TrimRight(s) <= s && (TrimRight(s) != "" ==> !IsSpace(TrimRight(s)[|TrimRight(s)| - 1]))
    decreases |s|
  {
    if s != "" && IsSpace(s[|s| - 1]) { TrimRightEnds(s[..|s| - 1]); }
  }

  lemma TrimTight(s: string)
    ensures Tight(Trim(s))
  {
    TrimLeftStarts(s);
    TrimRightEnds(TrimLeft(s));
  }

  predicate AllSpace(s: string) { forall c :: c in s ==> IsSpace(c) }

  lemma {:induction false} TrimLeftDrops(s: string) returns (left: string)
    ensures s == left + TrimLeft(s) && AllSpace(left)
    decreases |s|
  {
    left := "";
    if s != "" && IsSpace(s[0]) {
      left := TrimLeftDrops(s[1..]);
      left := [s[0]] + left;
    }
  }

  lemma {:induction false} TrimRightDrops(s: string) returns (right: string)
    ensures s == TrimRight(s) + right && AllSpace(right)
    decreases |s|
  {
    right := "";
    if s != "" && IsSpace(s[|s| - 1]) {
      right := TrimRightDrops(s[..|s| - 1]);
      right := right + [s[|s| - 1]];
    }
  }

  /** Only spaces are trimmed, and only at the ends. */
  lemma TrimDropsSpaces(s: string) returns (left: string, right: string)
    ensures s == left + Trim(s) + right && AllSpace(left) && AllSpace(right)
  {
    left := TrimLeftDrops(s);
    right := TrimRightDrops(TrimLeft(s));
  }

  /** `t` is `s` without the spaces at its ends. */
  ghost predicate IsTrimmed(s: string, t: string) {
    Tight(t) && exists left, right :: AllSpace(left) && AllSpace(right) && s == left + t + right
  }

  lemma TrimIsTrimmed(s: string)
    ensures IsTrimmed(s, Trim(s))
    ensures Trim(s) == "" <==> AllSpace(s)
  {
    TrimTight(s);
    var left, right := TrimDropsSpaces(s);
    if Trim(s) != "" { assert Trim(s)[0] in s; }
  }

  /** The first character of a trimmed text is the first of the whole that is no space, and the last the last. */
  lemma TrimmedEnds(s: string, t: string, left: string, right: string)
    requires Tight(t) && t != "" && AllSpace(left) && AllSpace(right) && s == left + t + right
    ensures !IsSpace(s[|left|]) && forall i :: 0 <= i < |left| ==> IsSpace(s[i])
    ensures !IsSpace(s[|left| + |t| - 1]) && forall i :: |left| + |t| <= i < |s| ==> IsSpace(s[i])
  {
    assert s[|left|] == t[0] && s[|left| + |t| - 1] == t[|t| - 1];
    assert forall i :: 0 <= i < |left| ==> s[i] == left[i] && s[i] in left;
    assert forall i :: |left| + |t| <= i < |s| ==> s[i] == right[i - |left| - |t|] && s[i] in right;
  }

  lemma TrimmedEmptyIff(s: string, t: string)
    requires IsTrimmed(s, t)
    ensures t == "" <==> AllSpace(s)
  {
    var left, right :| AllSpace(left) && AllSpace(right) && s == left + t + right;
    if t == "" {
      assert s == left + right;
    } else {
      assert s[|left|] == t[0] && t[0] in s;
    }
  }

  /** There is one such text only. */
  lemma TrimmedOnce(s: string, t: string, u: string)
    requires IsTrimmed(s, t) && IsTrimmed(s, u)
    ensures t == u
  {
    var l, r :| AllSpace(l) && AllSpace(r) && s == l + t + r;
    var m, q :| AllSpace(m) && AllSpace(q) && s == m + u + q;
    TrimmedEmptyIff(s, t);
    TrimmedEmptyIff(s, u);
    if t != "" && u != "" {
      TrimmedEnds(s, t, l, r);
      TrimmedEnds(s, u, m, q);
      assert |l| == |m| && |l| + |t| == |m| + |u|;
      assert t == s[|l|..|l| + |t|] == u;
    }
  }

  lemma TightTrim(s: string)
    requires Tight(s)
    ensures Trim(s) == s
  {
  }

  function Each(s: string, f: char -> char): (r: string)
    ensures |r| == |s| && forall i :: 0 <= i < |s| ==> r[i] == f(s[i])
  {
    seq(|s|, i requires 0 <= i < |s| => f(s[i]))
  }

  function Dash(c: char): char { if c == ' ' then '-' else c }

  function Lower(lower: char -> char, s: string): string { Each(s, lower) }

  /** Spaces to dashes, then lower case. */
  function Slug(lower: char -> char, s: string): string { Each(Each(s, Dash), lower) }

  /** `id` spells `text` in lower case with a dash for every space, and may go on with a dash and `n` times x. */
  predicate Spells(lower: char -> char, text: string, n: nat, id: string) {
    && |id| >= |text|
    && (forall i :: 0 <= i < |text| ==> id[i] == lower(if text[i] == ' ' then '-' else text[i]))
    && (|id| == |text|
        || (|id| == |text| + 1 + n && id[|text|] == '-' && forall i :: |text| < i < |id| ==> id[i] == 'x'))
  }

  lemma SlugSpells(lower: char -> char, text: string, n: nat)
    ensures Spells(lower, text, n, Slug(lower, text)) && Spells(lower, text, n, Suffixed(Slug(lower, text), n))
    ensures |Slug(lower, text)| == |text| && |Suffixed(Slug(lower, text), n)| == |text| + 1 + n
  {
  }

  lemma SpelledHasNoSpace(lower: char -> char, text: string, n: nat, id: string)
    requires LowerOk(lower) && Spells(lower, text, n, id)
    ensures ' ' !in id
  {
    forall i | 0 <= i < |id| ensures id[i] != ' ' {
      if i < |text| { assert lower(if text[i] == ' ' then '-' else text[i]) != ' '; }
    }
  }

  /** One length, and the same letters in lower case. */
  predicate SameLetters(lower: char -> char, a: string, b: string) {
    |a| == |b| && forall i :: 0 <= i < |a| ==> lower(a[i]) == lower(b[i])
  }

  lemma SameLettersIff(lower: char -> char, a: string, b: string)
    ensures Lower(lower, a) == Lower(lower, b) <==> SameLetters(lower, a, b)
  {
    if Lower(lower, a) == Lower(lower, b) {
      assert forall i :: 0 <= i < |a| ==> Lower(lower, a)[i] == lower(a[i]) && Lower(lower, b)[i] == lower(b[i]);
    }
  }

  /** The bytes of a character, counted by the thresholds of UTF-8. */
  lemma {:induction false} ByteLenIs(s: string)
    ensures ByteLen(s) == |s| + Tally(s, (c: char) => c as int >= 0x80) + Tally(s, (c: char) => c as int >= 0x800)
                          + Tally(s, (c: char) => c as int >= 0x1_0000)
    decreases |s|
  {
    if s != "" { ByteLenIs(s[..|s| - 1]); }
  }

  function Repeat(c: char, n: nat): string { seq(n, _ => c) }

  function Suffixed(s: string, n: nat): string { s + "-" + Repeat('x', n) }

  /** The number of trailing x's of a suffixed string tells the suffix. */
  lemma SuffixTells(s: string, n: nat, t: string, m: nat)
    requires Suffixed(s, n) == Suffixed(t, m)
    ensures n == m
  {
    var u := Suffixed(s, n);
    assert u[|u| - 1 - n] == '-' && (n > 0 ==> u[|u| - n] == 'x');
    assert u[|u| - 1 - m] == '-' && (m > 0 ==> u[|u| - m] == 'x');
  }

  lemma SlugTight(lower: char -> char, s: string)
    requires LowerOk(lower) && s != "" && Tight(s)
    ensures Slug(lower, s) != "" && Tight(Slug(lower, s))
  {
    assert !IsSpace(Dash(s[0])) && !IsSpace(Dash(s[|s| - 1]));
  }
}
