/** The fixed set of supported platforms and the case-insensitive check against it. */
module Platforms {
  import opened Text

  /** `VALID_PLATFORMS`: the supported platform names, all lower case. */
  const ValidPlatforms: set<string> := {"twitter", "whatsapp", "instagram", "linkedin"}

  /** `platform.lower() in VALID_PLATFORMS`. */
  predicate IsValidPlatform(p: string)
  {
    Lower(p) in ValidPlatforms
  }

  lemma ValidPlatformsAreLower()
    ensures forall n :: n in ValidPlatforms ==> IsLower(n)
  {
    assert IsLower("twitter");
    assert IsLower("whatsapp");
    assert IsLower("instagram");
    assert IsLower("linkedin");
  }

  /**
   * A platform input is accepted exactly when it is one of the four names
   * written in any mix of upper and lower case, and what gets stored is
   * then that name itself.
   */
  lemma AcceptedIffCaseVariant(p: string)
    ensures IsValidPlatform(p) <==> exists n :: n in ValidPlatforms && EqualsIgnoreCase(p, n)
    ensures IsValidPlatform(p) ==> EqualsIgnoreCase(p, Lower(p)) && IsValidPlatform(Lower(p))
  {
    ValidPlatformsAreLower();
    if IsValidPlatform(p) {
      LowerEqualsIffIgnoreCase(p, Lower(p));
      LowerIsIdempotent(p);
    } else {
      forall n | n in ValidPlatforms
        ensures !EqualsIgnoreCase(p, n)
      {
        LowerEqualsIffIgnoreCase(p, n);
      }
    }
  }

}
