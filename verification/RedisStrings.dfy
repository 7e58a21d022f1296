/** Redis hash fields are decimal strings: printing, scanning, HINCRBY and HSET on them, and their
    agreement with the integer counters of the protocol. */
module RedisStrings {
  import opened Models

  type Hash = map<string, string>

  const MAX_INT64: int := 0x7FFF_FFFF_FFFF_FFFF
  const MIN_INT64: int := -0x8000_0000_0000_0000

  predicate IsInt64(n: int) { MIN_INT64 <= n <= MAX_INT64 }

  predicate IsDigit(c: char) { '0' <= c <= '9' }

  function Digit(d: nat): (c: char)
    requires d < 10
    ensures IsDigit(c) && DigitValue(c) == d
  {
    ('0' as int + d) as char
  }

  function DigitValue(c: char): (d: nat)
    requires IsDigit(c)
    ensures d < 10
  {
    c as int - '0' as int
  }

  predicate AllDigits(s: string) { forall c :: c in s ==> IsDigit(c) }

  function PrintNat(n: nat): (s: string)
    ensures s != "" && AllDigits(s) && (s[0] == '0' ==> s == "0")
    ensures NatValue(s) == n
  {
    if n < 10 then [Digit(n)]
    else
      var front := PrintNat(n / 10);
      assert (front + [Digit(n % 10)])[..|front|] == front;
      front + [Digit(n % 10)]
  }

  function NatValue(s: string): nat
    requires AllDigits(s)
  {
    if s == "" then 0 else
      assert forall c :: c in s[..|s| - 1] ==> c in s;
      10 * NatValue(s[..|s| - 1]) + DigitValue(s[|s| - 1])
  }

  function PrintInt(n: int): string {
    if n < 0 then "-" + PrintNat(-n) else PrintNat(n)
  }

  /** The digits `s` starts with. */
  function LeadingDigits(s: string): (d: string)
    ensures AllDigits(d) && d <= s
    ensures AllDigits(s) ==> d == s
  {
    if s == "" || !IsDigit(s[0]) then "" else [s[0]] + LeadingDigits(s[1..])
  }

  /** `Sscanf` with `%d` into a 64-bit int: an optional sign, then digits; the target stays 0 when there
      are none or they do not fit. */
  function Scan(s: string): (n: int)
    ensures IsInt64(n)
  {
    var negative := s != "" && s[0] == '-';
    var digits := LeadingDigits(if negative || (s != "" && s[0] == '+') then s[1..] else s);
    var n: int := if negative then -(NatValue(digits) as int) else NatValue(digits);
    if digits == "" || !IsInt64(n) then 0 else n
  }

  /** Scanning undoes printing for every 64-bit integer. */
  lemma ScanPrint(n: int)
    requires IsInt64(n)
    ensures Scan(PrintInt(n)) == n
  {
    if n < 0 {
      assert PrintInt(n)[1..] == PrintNat(-n);
    } else {
      var s := PrintNat(n);
      assert s[0] in s;
    }
  }

  /** The integers HINCRBY accepts: the strings printing gives. */
  predicate IsInteger(s: string) { PrintInt(Scan(s)) == s }

  predicate AllIntegers(hash: Hash) { forall f :: f in hash ==> IsInteger(hash[f]) }

  /** HINCRBY by one: a missing field counts as 0; no integer, or one that would overflow, is an error. */
  function HIncrBy(hash: Hash, f: string): Option<Hash> {
    if f in hash && !IsInteger(hash[f]) then None
    else
      var n := if f in hash then Scan(hash[f]) else 0;
      if n == MAX_INT64 then None else Some(hash[f := PrintInt(n + 1)])
  }

  /** What a reader makes of a hash. */
  function ScanCounts(hash: Hash): Counts { map f | f in hash :: Scan(hash[f]) }

  lemma HSetRefines(hash: Hash, f: string, n: int)
    requires AllIntegers(hash) && IsInt64(n)
    ensures AllIntegers(hash[f := PrintInt(n)]) && ScanCounts(hash[f := PrintInt(n)]) == ScanCounts(hash)[f := n]
  {
    var next := hash[f := PrintInt(n)];
    ScanPrint(n);
    forall g | g in next ensures IsInteger(next[g]) && Scan(next[g]) == if g == f then n else Scan(hash[g]) {
      if g != f { assert IsInteger(hash[g]); }
    }
  }

  lemma {:induction false} HIncrByIs(hash: Hash, f: string)
    requires AllIntegers(hash)
    ensures var n := Lookup(ScanCounts(hash), f);
      IsInt64(n) && HIncrBy(hash, f) == if n == MAX_INT64 then None else Some(hash[f := PrintInt(n + 1)])
  {
    assert f in hash ==> IsInteger(hash[f]);
  }

  /** HINCRBY on strings adds one to the integer counter, and fails only when that would overflow. */
  lemma {:induction false} HIncrByRefines(hash: Hash, f: string)
    requires AllIntegers(hash)
    ensures HIncrBy(hash, f).None? <==> Lookup(ScanCounts(hash), f) == MAX_INT64
    ensures HIncrBy(hash, f).Some? ==> AllIntegers(HIncrBy(hash, f).value)
    ensures HIncrBy(hash, f).Some? ==>
              ScanCounts(HIncrBy(hash, f).value) == ScanCounts(hash)[f := Lookup(ScanCounts(hash), f) + 1]
  {
    HIncrByIs(hash, f);
    var n := Lookup(ScanCounts(hash), f);
    if n != MAX_INT64 { HSetRefines(hash, f, n + 1); }
  }

  function KeyOf(p: PollId): string { "poll:" + p }

  lemma KeysDiffer(p: PollId, q: PollId)
    ensures KeyOf(p) == KeyOf(q) <==> p == q
  {
    assert KeyOf(p)[5..] == p && KeyOf(q)[5..] == q;
  }

  function StringHash(hashes: map<string, Hash>, key: string): Hash {
    if key in hashes then hashes[key] else map[]
  }

  /** The fields a rebuild writes, whatever was there before. */
  function Rebuilt(snap: Counts, options: seq<PollOption>): Hash {
    map o | o in Ids(options) :: PrintInt(Lookup(snap, o))
  }

  /** One HSET per option onto `start`, of which those with their flag set get through. */
  function AfterSets(start: Hash, snap: Counts, options: seq<PollOption>, sent: seq<bool>): Hash
    requires |sent| == |options|
  {
    if options == [] then start else
      var n := |options| - 1;
      var before := AfterSets(start, snap, options[..n], sent[..n]);
      if sent[n] then before[options[n].id := PrintInt(Lookup(snap, options[n].id))] else before
  }

  lemma SetsPush(start: Hash, snap: Counts, options: seq<PollOption>, sent: seq<bool>, i: nat)
    requires |sent| == |options| && i < |options|
    ensures var before := AfterSets(start, snap, options[..i], sent[..i]);
      AfterSets(start, snap, options[..i + 1], sent[..i + 1]) ==
      if sent[i] then before[options[i].id := PrintInt(Lookup(snap, options[i].id))] else before
  {
    assert options[..i + 1][..i] == options[..i] && sent[..i + 1][..i] == sent[..i];
  }

  /** When all get through, an emptied hash ends up as the rebuilt one. */
  lemma {:induction false} AllSetsRebuild(snap: Counts, options: seq<PollOption>, sent: seq<bool>)
    requires |sent| == |options| && false !in sent
    ensures AfterSets(map[], snap, options, sent) == Rebuilt(snap, options)
    decreases |options|
  {
    if options != [] {
      var n := |options| - 1;
      assert options == options[..n] + [options[n]] && sent == sent[..n] + [sent[n]];
      AllSetsRebuild(snap, options[..n], sent[..n]);
      assert Ids(options) == Ids(options[..n]) + {options[n].id};
    }
  }

  /** A field that some delivered HSET names holds its printed count, and any other is what it was. */
  lemma {:induction false} FieldSet(start: Hash, snap: Counts, options: seq<PollOption>, sent: seq<bool>, f: string)
    requires |sent| == |options|
    ensures var now := AfterSets(start, snap, options, sent);
      if exists i :: 0 <= i < |options| && sent[i] && options[i].id == f
      then f in now && now[f] == PrintInt(Lookup(snap, f))
      else (f in now <==> f in start) && (f in now ==> now[f] == start[f])
    decreases |options|
  {
    if options != [] {
      var n := |options| - 1;
      FieldSet(start, snap, options[..n], sent[..n], f);
      if i :| 0 <= i < n && sent[..n][i] && options[..n][i].id == f {
        assert sent[i] && options[i].id == f;
      } else if sent[n] && options[n].id == f {
        assert 0 <= n < |options| && sent[n] && options[n].id == f;
      } else {
        assert forall i :: 0 <= i < n ==> sent[..n][i] == sent[i] && options[..n][i] == options[i];
      }
    }
  }
}
