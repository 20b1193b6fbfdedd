/** The two fixed patterns both Shoptet detectors test URLs against. Neither is
    anchored and neither has a quantifier, so each is a substring search. */
module Patterns {
  import opened Text

  /** `/\.(shoptet\.cz|myshoptet\.com)/.test(url)` */
  predicate ShoptetDomain(url: string) {
    Contains(url, ".shoptet.cz") || Contains(url, ".myshoptet.com")
  }

  /** `/\/cache\//.test(url)` */
  predicate HasCachePath(url: string) {
    Contains(url, "/cache/")
  }

  /** A URL on a Shoptet server that bypasses the cache. */
  predicate MissesCache(url: string) {
    ShoptetDomain(url) && !HasCachePath(url)
  }

  /** A URL reaches a Shoptet domain exactly when one of the two host suffixes
      occurs in it at some position, and misses the cache exactly when, in
      addition, `/cache/` occurs nowhere. */
  lemma MissesCacheIff(url: string)
    ensures MissesCache(url) <==>
      ((exists i :: OccursAt(url, ".shoptet.cz", i)) || (exists i :: OccursAt(url, ".myshoptet.com", i))) &&
      !(exists i :: OccursAt(url, "/cache/", i))
  {
    ContainsIff(url, ".shoptet.cz");
    ContainsIff(url, ".myshoptet.com");
    ContainsIff(url, "/cache/");
  }

  /** A URL without a dot names no Shoptet domain (the pattern needs the dot
      before `shoptet`, so a bare `shoptet.cz` host is not matched either). */
  lemma NoDotNoDomain(url: string)
    requires '.' !in url
    ensures !ShoptetDomain(url) && !MissesCache(url)
  {
    MissingFirstChar(url, ".shoptet.cz");
    MissingFirstChar(url, ".myshoptet.com");
  }
}
