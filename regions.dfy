/**
 * The four regional storefronts and their URLs: the country-to-region table,
 * the region shown by a path (`getCurrentRegionFromURL`) and the URL of the
 * same page in another region (`getRegionalURL`).
 *
 * Regions are strings, as in the script: a cookie can hold any string and
 * `getRegionalURL` gives every string other than "NZ", "SG" and "HK" the
 * unprefixed (Australian) store.
 */
module Regions {
  import opened Text

  const BaseDomain := "https://drwoofapparel.com.au"

  /** The countries that have a storefront of their own. */
  predicate IsTargetCountry(code: string) {
    code == "NZ" || code == "SG" || code == "HK"
  }

  /** The region a detected country belongs to; every other country belongs to AU. */
  function ExpectedRegion(countryCode: string): (region: string)
    ensures IsTargetCountry(countryCode) ==> region == countryCode
    ensures !IsTargetCountry(countryCode) ==> region == "AU"
  {
    if countryCode == "NZ" then "NZ"
    else if countryCode == "SG" then "SG"
    else if countryCode == "HK" then "HK"
    else "AU"
  }

  /** The path prefix of a region's storefront; AU and unknown regions have none. */
  function RegionPrefix(region: string): (prefix: string)
    ensures prefix != "" <==> IsTargetCountry(region)
    ensures prefix != "" ==> |prefix| == 6 && StartsWith(prefix, "/en-")
  {
    if region == "NZ" then "/en-nz"
    else if region == "SG" then "/en-sg"
    else if region == "HK" then "/en-hk"
    else ""
  }

  /** `getCurrentRegionFromURL`: the storefront a path belongs to. */
  function CurrentRegion(path: string): (region: string)
    ensures region == "AU" || IsTargetCountry(region)
    ensures region != "AU" <==> exists r :: IsTargetCountry(r) && StartsWith(path, RegionPrefix(r))
  {
    if StartsWith(path, "/en-nz") then "NZ"
    else if StartsWith(path, "/en-sg") then "SG"
    else if StartsWith(path, "/en-hk") then "HK"
    else "AU"
  }

  /** `path.replace(/^\/(en-nz|en-sg|en-hk)/, '')`: removes one leading regional prefix. */
  function StripRegionPrefix(path: string): (rest: string)
    ensures |rest| <= |path| && rest == path[|path| - |rest|..]
    ensures rest == path <==> CurrentRegion(path) == "AU"
  {
    if StartsWith(path, "/en-nz") || StartsWith(path, "/en-sg") || StartsWith(path, "/en-hk")
    then path[6..]
    else path
  }

  /** The path with its regional prefix removed and a leading '/' forced. */
  function CleanPath(path: string): (clean: string)
    ensures StartsWith(clean, "/")
  {
    var stripped := StripRegionPrefix(path);
    if StartsWith(stripped, "/") then stripped else "/" + stripped
  }

  /** The path of the same page in the storefront of `region`. */
  function RegionalPath(region: string, path: string): string {
    RegionPrefix(region) + CleanPath(path)
  }

  /** `getRegionalURL`: an absolute URL on the fixed domain, keeping query string and fragment. */
  function RegionalURL(region: string, path: string, search: string, hash: string): (url: string)
    ensures StartsWith(url, BaseDomain + "/")
    ensures |search| + |hash| <= |url| && url[|url| - |search| - |hash|..] == search + hash
  {
    var page := RegionalPath(region, path);
    assert page[|RegionPrefix(region)|] == '/';
    BaseDomain + page + search + hash
  }

  /**
   * The prefix `getCurrentRegionFromURL` recognises is exactly the one
   * `getRegionalURL` strips: every path is its region's prefix followed by
   * the stripped path.
   */
  lemma PathSplitsAtRegionPrefix(path: string)
    ensures path == RegionPrefix(CurrentRegion(path)) + StripRegionPrefix(path)
  {
    if CurrentRegion(path) != "AU" {
      assert path == path[..6] + path[6..];
    }
  }

  /**
   * A page moved to a storefront of its own is seen in that region, and
   * stripping the new prefix gives back the cleaned path.
   */
  lemma RegionalPathShowsRegion(region: string, path: string)
    requires IsTargetCountry(region)
    ensures CurrentRegion(RegionalPath(region, path)) == region
    ensures StripRegionPrefix(RegionalPath(region, path)) == CleanPath(path)
    ensures CleanPath(RegionalPath(region, path)) == CleanPath(path)
  {
    var p := RegionalPath(region, path);
    assert p[..6] == RegionPrefix(region);
    assert p[6..] == CleanPath(path);
  }

  /** AU and every unknown region keep the cleaned path without a prefix. */
  lemma UnprefixedRegionKeepsPath(region: string, path: string)
    requires !IsTargetCountry(region)
    ensures RegionalPath(region, path) == CleanPath(path)
  {
  }

  /**
   * The tail of the path survives a move: an Australian path that starts with
   * '/' is kept as it is, and a regional path loses only its prefix.
   */
  lemma CleanPathKeepsTail(region: string, tail: string)
    requires StartsWith(tail, "/")
    ensures CurrentRegion(RegionPrefix(region) + tail) == "AU" ==> CleanPath(RegionPrefix(region) + tail) == tail
    ensures IsTargetCountry(region) ==> CleanPath(RegionPrefix(region) + tail) == tail
  {
    var p := RegionPrefix(region) + tail;
    if IsTargetCountry(region) {
      assert p[..6] == RegionPrefix(region);
      assert p[6..] == tail;
    } else {
      assert p == tail;
    }
  }
}
