/** Unique slugs: the base, then base-1, base-2, ... until one is free. */
module Slugs {
  import opened Common

  const DIGITS := "0123456789"

  /** The decimal numeral of n. */
  function Numeral(n: nat): (r: string)
    ensures r != [] && forall i :: 0 <= i < |r| ==> r[i] in DIGITS
  {
    if n < 10 then [DIGITS[n]] else Numeral(n / 10) + [DIGITS[n % 10]]
  }

  function DigitValue(c: char): (r: nat)
  {
    if '0' <= c <= '9' then (c - '0') as nat else 0
  }

  function NumeralValue(s: string): nat {
    if s == [] then 0 else 10 * NumeralValue(s[..|s| - 1]) + DigitValue(s[|s| - 1])
  }

  /** A numeral can be read back, so different numbers have different numerals. */
  lemma {:induction false} NumeralRoundTrip(n: nat)
    ensures NumeralValue(Numeral(n)) == n
    decreases n
  {
    assert forall d: nat :: d < 10 ==> DigitValue(DIGITS[d]) == d;
    if n < 10 {
      assert Numeral(n)[..0] == [];
    } else {
      NumeralRoundTrip(n / 10);
      assert Numeral(n)[..|Numeral(n)| - 1] == Numeral(n / 10);
    }
  }

  /** The slug tried in round k. */
  function Candidate(base: string, k: nat): string {
    if k == 0 then base else base + "-" + Numeral(k)
  }

  lemma {:induction false} CandidatesDiffer(base: string, j: nat, k: nat)
    requires j < k
    ensures Candidate(base, j) != Candidate(base, k)
  {
    if j == 0 {
      assert |Candidate(base, k)| > |base|;
    } else {
      NumeralRoundTrip(j);
      NumeralRoundTrip(k);
      assert Candidate(base, j)[|base| + 1..] == Numeral(j);
      assert Candidate(base, k)[|base| + 1..] == Numeral(k);
    }
  }

  function Candidates(base: string, n: nat): (r: set<string>)
    ensures forall x :: x in r <==> exists k :: 0 <= k < n && x == Candidate(base, k)
    decreases n
  {
    if n == 0 then {} else Candidates(base, n - 1) + {Candidate(base, n - 1)}
  }

  lemma {:induction false} CandidateIsNew(base: string, n: nat)
    ensures Candidate(base, n) !in Candidates(base, n)
  {
    forall k | 0 <= k < n ensures Candidate(base, k) != Candidate(base, n) {
      CandidatesDiffer(base, k, n);
    }
  }

  lemma {:induction false} CandidatesCount(base: string, n: nat)
    ensures |Candidates(base, n)| == n
    decreases n
  {
    if n > 0 {
      CandidatesCount(base, n - 1);
      CandidateIsNew(base, n - 1);
    }
  }

  /** If the first n slugs are all taken, at least n slugs are. */
  lemma {:induction false} Pigeonhole(base: string, n: nat, taken: set<string>)
    requires forall k :: 0 <= k < n ==> Candidate(base, k) in taken
    ensures n <= |taken|
  {
    CandidatesCount(base, n);
    SmallerSubset(Candidates(base, n), taken);
  }

  /** The slugs of the other rows. */
  function Taken(rows: map<nat, string>, self: Option<nat>): set<string> {
    set k | k in rows && self != Some(k) :: rows[k]
  }

  /** A row's own slug is no obstacle to it: only another row's is. */
  lemma {:induction false} OwnSlugIsFree(rows: map<nat, string>, self: nat, slug: string)
    ensures slug in Taken(rows, Some(self)) <==> exists k :: k in rows && k != self && rows[k] == slug
    ensures slug in Taken(rows, None) <==> exists k :: k in rows && rows[k] == slug
  {
  }

  lemma {:induction false} CandidateExamples()
    ensures Candidate("a", 0) == "a" && Candidate("a", 1) == "a-1" && Candidate("a", 12) == "a-12"
    ensures BaseOf("") == "content" && BaseOf("a") == "a"
  {
    assert Numeral(12) == Numeral(1) + [DIGITS[2]];
  }

  function BaseOf(slugified: string): string {
    if slugified == "" then "content" else slugified
  }

  /** A slug no other row has, with the least counter; found within one more probe than there are slugs. */
  method GenerateUniqueSlug(rows: map<nat, string>, self: Option<nat>, slugified: string)
    returns (slug: string, ghost probes: nat)
    ensures slug !in Taken(rows, self)
    ensures 1 <= probes <= |Taken(rows, self)| + 1
    ensures slug == Candidate(BaseOf(slugified), probes - 1)
    ensures forall k :: 0 <= k < probes - 1 ==> Candidate(BaseOf(slugified), k) in Taken(rows, self)
  {
    var base := BaseOf(slugified);
    var taken := Taken(rows, self);
    slug := base;
    var counter := 1;
    while slug in taken
      invariant 1 <= counter <= |taken| + 1 && slug == Candidate(base, counter - 1)
      invariant forall k :: 0 <= k < counter - 1 ==> Candidate(base, k) in taken
      decreases |taken| + 1 - counter
    {
      Pigeonhole(base, counter, taken);
      slug := base + "-" + Numeral(counter);
      counter := counter + 1;
    }
    probes := counter;
  }
}
