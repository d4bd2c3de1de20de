/** The parts of std::string and decimal printing that the server relies on. */
module Text {
  import opened Basics

  predicate OccursAt(s: string, pat: string, i: int) {
    0 <= i && i + |pat| <= |s| && s[i..i + |pat|] == pat
  }

  /** std::string::find: the first occurrence at or after `from`. */
  function Find(s: string, pat: string, from: nat): (r: Option<nat>)
    ensures r.Some? ==> from <= r.value && OccursAt(s, pat, r.value)
    ensures r.Some? ==> forall i :: from <= i < r.value ==> !OccursAt(s, pat, i)
    ensures r.None? ==> forall i :: from <= i ==> !OccursAt(s, pat, i)
    decreases |s| - from
  {
    if from + |pat| > |s| then None
    else if s[from..from + |pat|] == pat then Some(from)
    else if from == |s| then None
    else Find(s, pat, from + 1)
  }

  predicate Contains(s: string, pat: string) {
    Find(s, pat, 0).Some?
  }

  lemma FindIs(s: string, pat: string, from: nat, at: nat)
    requires from <= at && OccursAt(s, pat, at)
    requires forall i :: from <= i < at ==> !OccursAt(s, pat, i)
    ensures Find(s, pat, from) == Some(at)
  {
  }

  lemma Mismatch(s: string, pat: string, i: int, k: nat)
    requires 0 <= i && i + |pat| <= |s| && k < |pat| && s[i + k] != pat[k]
    ensures !OccursAt(s, pat, i)
  {
    assert s[i..i + |pat|][k] == s[i + k];
  }

  lemma OccursInPrefix(pre: string, rest: string, pat: string, i: int)
    requires 0 <= i && i + |pat| <= |pre|
    ensures OccursAt(pre + rest, pat, i) <==> OccursAt(pre, pat, i)
  {
    assert (pre + rest)[i..i + |pat|] == pre[i..i + |pat|];
  }

  lemma OccursInSuffix(pre: string, rest: string, pat: string, i: int)
    requires 0 <= i
    ensures OccursAt(pre + rest, pat, |pre| + i) <==> OccursAt(rest, pat, i)
  {
    if i + |pat| <= |rest| {
      assert (pre + rest)[|pre| + i..|pre| + i + |pat|] == rest[i..i + |pat|];
    }
  }

  /** s.rfind(prefix, 0) == 0 */
  predicate StartsWith(s: string, prefix: string) {
    prefix <= s
  }

  // ---------- Decimal numbers ----------

  function Digit(n: nat): char
    requires n < 10
  {
    (n + '0' as int) as char
  }

  predicate IsDigit(c: char) {
    '0' <= c <= '9'
  }

  function Decimal(n: nat): (s: string)
    ensures s != "" && forall c <- s :: IsDigit(c)
  {
    if n < 10 then [Digit(n)] else Decimal(n / 10) + [Digit(n % 10)]
  }

  function SignedDecimal(n: int): (s: string)
    ensures s != "" && '\r' !in s
  {
    if n < 0 then "-" + Decimal(-n) else Decimal(n)
  }

  function ParseDecimal(s: string): Option<nat> {
    if s == "" || !IsDigit(s[|s| - 1]) then None
    else
      var low := s[|s| - 1] as int - '0' as int;
      if |s| == 1 then Some(low)
      else match ParseDecimal(s[..|s| - 1])
           case Some(high) => Some(10 * high + low)
           case None => None
  }

  lemma {:induction false} ParsePrinted(n: nat)
    ensures ParseDecimal(Decimal(n)) == Some(n)
  {
    if n >= 10 {
      ParsePrinted(n / 10);
      var s := Decimal(n);
      assert s[..|s| - 1] == Decimal(n / 10);
    }
  }
}
