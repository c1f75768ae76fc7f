/** research_team/curriculum/application/area_projection.py, the suffix search of `_to_area`:
    a slug nothing else in the projection has. */
module Slugs {
  import opened Sums

  function Digit(d: nat): char
    requires d < 10
  {
    "0123456789"[d]
  }

  /** `str(n)` */
  function Decimal(n: nat): (s: string)
    ensures s != ""
  {
    if n < 10 then [Digit(n)] else Decimal(n / 10) + [Digit(n % 10)]
  }

  /** What digits read as, the last one counting for least. */
  function Value(s: string): int {
    if s == "" then 0 else 10 * Value(s[..|s| - 1]) + (s[|s| - 1] as int - '0' as int)
  }

  /** Digits all the way, no zero in front, and read back they give the number. */
  lemma {:induction false} DecimalReads(n: nat)
    ensures Value(Decimal(n)) == n
    ensures forall k :: 0 <= k < |Decimal(n)| ==> '0' <= Decimal(n)[k] <= '9'
    ensures n > 0 ==> Decimal(n)[0] != '0'
  {
    if n >= 10 {
      DecimalReads(n / 10);
      assert Decimal(n)[..|Decimal(n)| - 1] == Decimal(n / 10);
    }
  }

  lemma DigitInjective(d: nat, e: nat)
    requires d < 10 && e < 10 && Digit(d) == Digit(e)
    ensures d == e
  {
  }

  lemma {:induction false} DecimalInjective(m: nat, n: nat)
    requires Decimal(m) == Decimal(n)
    ensures m == n
    decreases m + n
  {
    var s, t := Decimal(m), Decimal(n);
    assert s[|s| - 1] == Digit(m % 10) && t[|t| - 1] == Digit(n % 10);
    DigitInjective(m % 10, n % 10);
    assert (|s| == 1 <==> m < 10) && (|t| == 1 <==> n < 10);
    if m >= 10 && n >= 10 {
      assert Decimal(m / 10) == s[..|s| - 1] && Decimal(n / 10) == t[..|t| - 1];
      DecimalInjective(m / 10, n / 10);
    }
  }

  function Suffixed(base: string, suffix: nat): string {
    base + "-" + Decimal(suffix)
  }

  lemma SuffixedInjective(base: string, m: nat, n: nat)
    requires Suffixed(base, m) == Suffixed(base, n)
    ensures m == n
  {
    assert Decimal(m) == Suffixed(base, m)[|base| + 1..];
    assert Decimal(n) == Suffixed(base, n)[|base| + 1..];
    DecimalInjective(m, n);
  }

  /** The `k`-th slug the search looks at: the base itself, then suffixes from 2 up. */
  function Candidate(base: string, k: nat): string {
    if k == 0 then base else Suffixed(base, k + 1)
  }

  lemma CandidatesDistinct(base: string, j: nat, k: nat)
    requires Candidate(base, j) == Candidate(base, k)
    ensures j == k
  {
    if j == 0 || k == 0 {
      assert |Suffixed(base, j + 1)| > |base| && |Suffixed(base, k + 1)| > |base|;
    } else {
      SuffixedInjective(base, j + 1, k + 1);
    }
  }

  ghost function CandidatesTo(base: string, n: nat): set<string> {
    if n == 0 then {} else CandidatesTo(base, n - 1) + {Candidate(base, n - 1)}
  }

  lemma {:induction false} CandidateCount(base: string, n: nat)
    ensures |CandidatesTo(base, n)| == n
    ensures forall s :: s in CandidatesTo(base, n) ==> exists k :: 0 <= k < n && Candidate(base, k) == s
  {
    if n > 0 {
      CandidateCount(base, n - 1);
      if Candidate(base, n - 1) in CandidatesTo(base, n - 1) {
        var k :| 0 <= k < n - 1 && Candidate(base, k) == Candidate(base, n - 1);
        CandidatesDistinct(base, k, n - 1);
        assert false;
      }
    }
  }

  /** As many candidates taken, as many slugs taken at least. */
  lemma TriesBounded(base: string, taken: set<string>, n: nat)
    requires forall k :: 0 <= k < n ==> Candidate(base, k) in taken
    ensures n <= |taken|
  {
    CandidateCount(base, n);
    SubsetNoLarger(CandidatesTo(base, n), taken);
  }

  /** The first candidate nobody has taken. */
  ghost predicate FirstFree(base: string, taken: set<string>, slug: string) {
    exists tries: nat :: slug == Candidate(base, tries) && FreeAfter(base, taken, tries)
  }

  ghost predicate FreeAfter(base: string, taken: set<string>, tries: nat) {
    Candidate(base, tries) !in taken && forall k :: 0 <= k < tries ==> Candidate(base, k) in taken
  }

  lemma FirstFreeUnique(base: string, taken: set<string>, s: string, t: string)
    requires FirstFree(base, taken, s) && FirstFree(base, taken, t)
    ensures s == t
  {
    var j: nat :| s == Candidate(base, j) && FreeAfter(base, taken, j);
    var k: nat :| t == Candidate(base, k) && FreeAfter(base, taken, k);
    assert j == k;
  }

  /** Lines 242-251. The first candidate not taken; found before the candidates outnumber
      the slugs taken, however those came about. */
  method FreeSlug(base: string, taken: set<string>) returns (slug: string, ghost tries: nat)
    ensures FirstFree(base, taken, slug) && slug !in taken
    ensures slug == Candidate(base, tries) && tries <= |taken|
  {
    slug := base;
    tries := 0;
    var suffix := 2;
    while slug in taken
      invariant slug == Candidate(base, tries) && suffix == tries + 2
      invariant forall k :: 0 <= k < tries ==> Candidate(base, k) in taken
      decreases |taken| - tries
    {
      TriesBounded(base, taken, tries + 1);
      slug := Suffixed(base, suffix);
      suffix := suffix + 1;
      tries := tries + 1;
    }
    TriesBounded(base, taken, tries);
    assert FreeAfter(base, taken, tries);
  }

  /** The slug is the base itself unless that is taken, and then the base with the first suffix from
      two up that is free. */
  lemma SlugSays(base: string, taken: set<string>, slug: string)
    requires FirstFree(base, taken, slug)
    ensures slug !in taken
    ensures slug == base || (base in taken && exists n: nat :: Suffixes(base, taken, slug, n))
  {
    var tries: nat :| slug == Candidate(base, tries) && FreeAfter(base, taken, tries);
    if tries > 0 {
      assert Candidate(base, 0) in taken;
      forall k | 2 <= k < tries + 1
        ensures base + "-" + Decimal(k) in taken
      {
        assert Candidate(base, k - 1) in taken;
      }
      assert Suffixes(base, taken, slug, tries + 1);
    }
  }

  ghost predicate Suffixes(base: string, taken: set<string>, slug: string, n: nat) {
    && n >= 2 && slug == base + "-" + Decimal(n)
    && forall k :: 2 <= k < n ==> base + "-" + Decimal(k) in taken
  }
}
