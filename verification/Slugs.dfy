/** Organization slugs (organizations/services.py lines 25-32). */
module Slugs {
  import opened Text

  /** base, base-2, base-3, ... */
  function Candidate(base: string, k: nat): string {
    if k == 0 then base else base + "-" + Digits(k + 1)
  }

  lemma CandidatesDiffer(base: string, j: nat, k: nat)
    requires j < k
    ensures Candidate(base, j) != Candidate(base, k)
  {
    var long := Candidate(base, k);
    assert |long| > |base|;
    if j > 0 && Candidate(base, j) == long {
      assert Digits(j + 1) == Candidate(base, j)[|base| + 1..];
      assert Digits(k + 1) == long[|base| + 1..];
      ParseDigits(j + 1);
      ParseDigits(k + 1);
      assert false;
    }
  }

  /**
   The first unused candidate. At most one candidate more than there are slugs is tried, because
   the candidates are all different.
   */
  method UniqueSlug(slugified: string, existing: set<string>) returns (slug: string, ghost tried: nat)
    ensures slug !in existing
    ensures tried <= |existing|
    ensures var base := if slugified == "" then "org" else slugified;
            && slug == Candidate(base, tried) == (if tried == 0 then base else base + "-" + Digits(tried + 1))
            && forall k | 0 <= k < tried :: Candidate(base, k) in existing
  {
    var base := if slugified == "" then "org" else slugified;
    slug := base;
    var i := 2;
    tried := 0;
    ghost var seen: set<string> := {};
    while slug in existing
      invariant i == tried + 2 && slug == Candidate(base, tried)
      invariant forall k | 0 <= k < tried :: Candidate(base, k) in existing
      invariant seen <= existing && |seen| == tried
      invariant forall s | s in seen :: exists k | 0 <= k < tried :: s == Candidate(base, k)
      decreases |existing| - tried
    {
      forall k | 0 <= k < tried ensures Candidate(base, k) != slug {
        CandidatesDiffer(base, k, tried);
      }
      ghost var grown := seen + {slug};
      assert slug !in seen;
      SubsetSize(grown, existing);
      seen := grown;
      tried := tried + 1;
      slug := base + "-" + Digits(i);
      i := i + 1;
    }
    SubsetSize(seen, existing);
  }

  lemma SubsetSize(a: set<string>, b: set<string>)
    requires a <= b
    ensures |a| <= |b|
  {
    assert b == a + (b - a);
    assert |b| == |a| + |b - a|;
  }
}
