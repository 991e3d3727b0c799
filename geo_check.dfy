/**
 * One page load of the redirect script: the two cookies, the per-load flag
 * `hasRedirected`, the cached country `geoCheckResult`, and the URLs
 * assigned to `window.location.href`.
 *
 * `Process` and `Check` give the effect of `processGeoData` and
 * `runGeoCheck` on a page state; the class `GeoRedirect` carries out the same
 * steps in place and is proved against them. The country lookup over the
 * network is not modelled: its outcome is the argument `resolved`.
 */
module GeoCheck {
  import opened Wrappers
  import opened Text
  import opened Cookies
  import opened Regions
  import opened RegionDecision

  const PreferenceCookie := "regionPreference"
  const LocationCookie := "lastDetectedCountry"
  /** Informational pages under this prefix are never redirected away from. */
  const ExcludedPrefix := "/pages/"

  /** `window.location`: `pathname`, `search` (with its '?') and `hash` (with its '#'). */
  datatype Location = Location(pathname: string, search: string, hash: string)

  datatype PageState = PageState(
    cookies: Jar,
    hasRedirected: bool,
    geoCheckResult: Option<string>,
    navigations: seq<string>)   // every URL assigned to window.location.href, in order

  /** The state when the script starts on a page. */
  function Fresh(cookies: Jar): PageState {
    PageState(cookies, false, None, [])
  }

  function ReadPreference(jar: Jar): string {
    CookieValue(Entries(jar), PreferenceCookie)
  }

  function ReadLastCountry(jar: Jar): string {
    CookieValue(Entries(jar), LocationCookie)
  }

  /** The decision taken from the cookies as they are before the call writes any. */
  function DecisionAt(s: PageState, loc: Location, countryCode: Option<string>): Decision {
    Decide(countryCode, ReadPreference(s.cookies), ReadLastCountry(s.cookies), CurrentRegion(loc.pathname))
  }

  /** The jar after a decision's writes: `lastDetectedCountry` first, then `regionPreference`. */
  function Written(jar: Jar, d: Decision): (r: Jar)
    ensures d.lastDetectedCountry.None? && d.regionPreference.None? ==> r == jar
    ensures d.regionPreference.Some? ==> Lookup(r, PreferenceCookie) == d.regionPreference.value
  {
    var withLocation := if d.lastDetectedCountry.Some? then Put(jar, LocationCookie, d.lastDetectedCountry.value) else jar;
    if d.regionPreference.Some? then Put(withLocation, PreferenceCookie, d.regionPreference.value) else withLocation
  }

  /** The effect of `processGeoData(countryCode)` on the page. */
  function Process(s: PageState, loc: Location, countryCode: Option<string>): (r: PageState)
    ensures r.geoCheckResult == s.geoCheckResult
    ensures || (r.navigations == s.navigations && r.hasRedirected == s.hasRedirected)
            || (r.hasRedirected && |r.navigations| == |s.navigations| + 1
                && r.navigations[..|s.navigations|] == s.navigations)
  {
    var d := DecisionAt(s, loc, countryCode);
    var cookies := Written(s.cookies, d);
    if d.redirectTo.Some? then
      PageState(cookies, true, s.geoCheckResult,
                s.navigations + [RegionalURL(d.redirectTo.value, loc.pathname, loc.search, loc.hash)])
    else
      s.(cookies := cookies)
  }

  predicate Excluded(loc: Location) {
    StartsWith(loc.pathname, ExcludedPrefix)
  }

  /**
   * The effect of `runGeoCheck(isSecondCheck)` when the country lookup, if it
   * is made, yields `resolved`.
   */
  function Check(s: PageState, loc: Location, isSecondCheck: bool, resolved: Option<string>): (r: PageState)
    // after a redirect, and on excluded pages, nothing happens
    ensures s.hasRedirected || Excluded(loc) ==> r == s
    // only the first check fills the cache
    ensures isSecondCheck ==> r.geoCheckResult == s.geoCheckResult
  {
    if s.hasRedirected || Excluded(loc) then s
    else if isSecondCheck && Truthy(s.geoCheckResult) then Process(s, loc, s.geoCheckResult)
    else Process(if isSecondCheck then s else s.(geoCheckResult := resolved), loc, resolved)
  }

  datatype CheckCall = CheckCall(isSecondCheck: bool, resolved: Option<string>)

  /** Checks run one after the other on the same page. */
  function RunChecks(s: PageState, loc: Location, calls: seq<CheckCall>): PageState
    decreases |calls|
  {
    if calls == [] then s
    else RunChecks(Check(s, loc, calls[0].isSecondCheck, calls[0].resolved), loc, calls[1..])
  }

  /** The page load as scheduled: an immediate first check and a delayed second one. */
  function PageLoad(cookies: Jar, loc: Location, first: Option<string>, second: Option<string>): (r: PageState)
    // the first lookup's result is what the page keeps cached, unless the page is excluded
    ensures r.geoCheckResult == if Excluded(loc) then None else first
  {
    var calls := [CheckCall(false, first), CheckCall(true, second)];
    var afterFirst := Check(Fresh(cookies), loc, false, first);
    assert calls[1..] == [CheckCall(true, second)] && calls[1..][1..] == [];
    assert RunChecks(Fresh(cookies), loc, calls) == RunChecks(afterFirst, loc, calls[1..]);
    assert RunChecks(afterFirst, loc, calls[1..]) == Check(afterFirst, loc, true, second);
    RunChecks(Fresh(cookies), loc, calls)
  }

  /** The page load is the first check followed by the second. */
  lemma PageLoadIsTwoChecks(cookies: Jar, loc: Location, first: Option<string>, second: Option<string>)
    ensures PageLoad(cookies, loc, first, second)
            == Check(Check(Fresh(cookies), loc, false, first), loc, true, second)
  {
    var calls := [CheckCall(false, first), CheckCall(true, second)];
    var afterFirst := Check(Fresh(cookies), loc, false, first);
    var afterSecond := Check(afterFirst, loc, true, second);
    assert calls[1..] == [CheckCall(true, second)];
    assert RunChecks(Fresh(cookies), loc, calls) == RunChecks(afterFirst, loc, calls[1..]);
    assert calls[1..][1..] == [];
    assert RunChecks(afterFirst, loc, calls[1..]) == RunChecks(afterSecond, loc, []);
  }

  class GeoRedirect {
    const location: Location
    var cookies: Jar
    var hasRedirected: bool
    var geoCheckResult: Option<string>
    var navigations: seq<string>

    function State(): PageState
      reads this
    {
      PageState(cookies, hasRedirected, geoCheckResult, navigations)
    }

    /** The script starting on a page: nothing redirected, nothing cached. */
    constructor (location: Location, cookies: Jar)
      ensures this.location == location && State() == Fresh(cookies)
    {
      this.location := location;
      this.cookies := cookies;
      hasRedirected := false;
      geoCheckResult := None;
      navigations := [];
    }

    /** `setCookie(name, value, 30)` */
    method SetCookie(name: string, value: string)
      modifies this
      ensures State() == old(State()).(cookies := Put(old(cookies), name, value))
    {
      cookies := Put(cookies, name, value);
    }

    /** `window.location.href = url` */
    method Navigate(url: string)
      modifies this
      ensures State() == old(State()).(navigations := old(navigations) + [url])
    {
      navigations := navigations + [url];
    }

    /** `processGeoData(countryCode)` */
    method ProcessGeoData(countryCode: Option<string>)
      modifies this
      ensures State() == Process(old(State()), location, countryCode)
    {
      ghost var before := State();
      ghost var d := DecisionAt(before, location, countryCode);
      if !Truthy(countryCode) {
        assert d == NoAction;
        return;
      }
      var code := countryCode.value;
      var expectedRegion := ExpectedRegion(code);
      if expectedRegion == "AU" {
        assert d == NoAction;
        return;
      }

      var savedPreference := GetCookie(Entries(cookies), PreferenceCookie);
      var lastDetectedCountry := GetCookie(Entries(cookies), LocationCookie);
      var currentRegion := CurrentRegion(location.pathname);
      var locationChanged := lastDetectedCountry != "" && lastDetectedCountry != code;
      assert savedPreference == ReadPreference(before.cookies);
      assert lastDetectedCountry == ReadLastCountry(before.cookies);
      assert d.lastDetectedCountry == Some(code);

      SetCookie(LocationCookie, code);

      if locationChanged {
        assert d == Decision(Some(code), Some(expectedRegion),
                             if currentRegion != expectedRegion then Some(expectedRegion) else None);
        SetCookie(PreferenceCookie, expectedRegion);
        assert cookies == Written(before.cookies, d);
        if currentRegion != expectedRegion {
          hasRedirected := true;
          Navigate(RegionalURL(expectedRegion, location.pathname, location.search, location.hash));
        }
        return;
      }

      if savedPreference == "" {
        assert d == Decision(Some(code), Some(expectedRegion),
                             if currentRegion != expectedRegion then Some(expectedRegion) else None);
        SetCookie(PreferenceCookie, expectedRegion);
        assert cookies == Written(before.cookies, d);
        if currentRegion != expectedRegion {
          hasRedirected := true;
          Navigate(RegionalURL(expectedRegion, location.pathname, location.search, location.hash));
        }
        return;
      }

      assert d == Decision(Some(code), None,
                           if savedPreference != "AU" && savedPreference != currentRegion
                           then Some(savedPreference) else None);
      assert cookies == Written(before.cookies, d);
      if savedPreference != "AU" && savedPreference != currentRegion {
        hasRedirected := true;
        Navigate(RegionalURL(savedPreference, location.pathname, location.search, location.hash));
      }
    }

    /** `runGeoCheck(isSecondCheck)`, where `resolved` is what `getCountryCode()` would yield. */
    method RunGeoCheck(isSecondCheck: bool, resolved: Option<string>)
      modifies this
      ensures State() == Check(old(State()), location, isSecondCheck, resolved)
    {
      if hasRedirected {
        return;
      }
      if StartsWith(location.pathname, ExcludedPrefix) {
        return;
      }
      if isSecondCheck && Truthy(geoCheckResult) {
        ProcessGeoData(geoCheckResult);
        return;
      }
      var countryCode := resolved;
      if !isSecondCheck {
        geoCheckResult := countryCode;
      }
      ProcessGeoData(countryCode);
    }
  }

  /** The script on one page load: the immediate check, then the delayed one. */
  method LoadPage(location: Location, cookies: Jar, first: Option<string>, second: Option<string>)
    returns (page: GeoRedirect)
    ensures fresh(page) && page.location == location
    ensures page.State() == PageLoad(cookies, location, first, second)
  {
    page := new GeoRedirect(location, cookies);
    page.RunGeoCheck(false, first);
    page.RunGeoCheck(true, second);
    PageLoadIsTwoChecks(cookies, location, first, second);
  }

  /** At most one URL has been navigated to, and only together with the flag. */
  predicate AtMostOneNavigation(s: PageState) {
    |s.navigations| <= 1 && (s.navigations != [] ==> s.hasRedirected)
  }

  /** However many checks run, a page navigates at most once. */
  lemma {:induction false} ChecksNavigateAtMostOnce(s: PageState, loc: Location, calls: seq<CheckCall>)
    requires AtMostOneNavigation(s)
    ensures AtMostOneNavigation(RunChecks(s, loc, calls))
    decreases |calls|
  {
    if calls != [] {
      ChecksNavigateAtMostOnce(Check(s, loc, calls[0].isSecondCheck, calls[0].resolved), loc, calls[1..]);
    }
  }

  lemma PageLoadNavigatesAtMostOnce(cookies: Jar, loc: Location, first: Option<string>, second: Option<string>)
    ensures |PageLoad(cookies, loc, first, second).navigations| <= 1
  {
    ChecksNavigateAtMostOnce(Fresh(cookies), loc, [CheckCall(false, first), CheckCall(true, second)]);
  }

  /** After a redirect, and on every page under /pages/, checks change nothing at all. */
  lemma {:induction false} FrozenPageIgnoresChecks(s: PageState, loc: Location, calls: seq<CheckCall>)
    requires s.hasRedirected || Excluded(loc)
    ensures RunChecks(s, loc, calls) == s
    decreases |calls|
  {
    if calls != [] {
      FrozenPageIgnoresChecks(s, loc, calls[1..]);
    }
  }

  /** A second check that finds a cached country does not look the country up again. */
  lemma CachedCheckIgnoresLookup(s: PageState, loc: Location, resolved: Option<string>, other: Option<string>)
    requires Truthy(s.geoCheckResult)
    ensures Check(s, loc, true, resolved) == Check(s, loc, true, other)
  {
  }

  /** The cookies a decision writes hold the written values; the others keep theirs. */
  lemma WrittenLookups(jar: Jar, d: Decision)
    ensures Lookup(Written(jar, d), LocationCookie)
            == if d.lastDetectedCountry.Some? then d.lastDetectedCountry.value else Lookup(jar, LocationCookie)
    ensures Lookup(Written(jar, d), PreferenceCookie)
            == if d.regionPreference.Some? then d.regionPreference.value else Lookup(jar, PreferenceCookie)
    ensures d.lastDetectedCountry.Some? ==> Has(Written(jar, d), LocationCookie)
    ensures forall c :: c in Written(jar, d) ==> c in jar || c.name == LocationCookie || c.name == PreferenceCookie
  {
    var withLocation := if d.lastDetectedCountry.Some? then Put(jar, LocationCookie, d.lastDetectedCountry.value) else jar;
    if d.lastDetectedCountry.Some? {
      PutKeepsOthers(jar, LocationCookie, d.lastDetectedCountry.value, PreferenceCookie);
      PutContents(jar, LocationCookie, d.lastDetectedCountry.value);
    }
    if d.regionPreference.Some? {
      PutKeepsOthers(withLocation, PreferenceCookie, d.regionPreference.value, LocationCookie);
      PutContents(withLocation, PreferenceCookie, d.regionPreference.value);
    }
  }

  /** The region codes the script writes carry no white space for `trim` to remove. */
  lemma TargetCodeUntrimmed(code: string)
    requires IsTargetCountry(code)
    ensures TrimEnd(code) == code
  {
  }

  /** What the script writes is read back by `getCookie`. */
  lemma ReadsAfterWrite(jar: Jar, d: Decision)
    requires WellFormed(jar)
    requires d.lastDetectedCountry.Some? ==> IsTargetCountry(d.lastDetectedCountry.value)
    requires d.regionPreference.Some? ==> IsTargetCountry(d.regionPreference.value)
    ensures WellFormed(Written(jar, d))
    ensures ReadLastCountry(Written(jar, d))
            == if d.lastDetectedCountry.Some? then d.lastDetectedCountry.value else ReadLastCountry(jar)
    ensures ReadPreference(Written(jar, d)) == PreferenceAfter(d, ReadPreference(jar))
  {
    var written := Written(jar, d);
    assert ValidName(LocationCookie) && ValidName(PreferenceCookie);
    WrittenLookups(jar, d);
    assert WellFormed(written);
    ReadJar(jar, LocationCookie);
    ReadJar(jar, PreferenceCookie);
    ReadJar(written, LocationCookie);
    ReadJar(written, PreferenceCookie);
    if d.lastDetectedCountry.Some? {
      TargetCodeUntrimmed(d.lastDetectedCountry.value);
    }
    if d.regionPreference.Some? {
      TargetCodeUntrimmed(d.regionPreference.value);
    }
  }

  /**
   * Running `processGeoData` again with the same country leaves the cookies
   * as the first run wrote them and makes the same redirect decision.
   */
  lemma ProcessTwice(s: PageState, loc: Location, countryCode: Option<string>)
    requires WellFormed(s.cookies)
    ensures var once := Process(s, loc, countryCode);
            && Written(once.cookies, DecisionAt(once, loc, countryCode)) == once.cookies
            && DecisionAt(once, loc, countryCode).redirectTo == DecisionAt(s, loc, countryCode).redirectTo
  {
    var d := DecisionAt(s, loc, countryCode);
    var once := Process(s, loc, countryCode);
    ReadsAfterWrite(s.cookies, d);
    WrittenLookups(s.cookies, d);
    DecideAgain(countryCode, ReadPreference(s.cookies), ReadLastCountry(s.cookies), CurrentRegion(loc.pathname));
    if d.lastDetectedCountry.Some? {
      PutExisting(once.cookies, LocationCookie, d.lastDetectedCountry.value);
    }
  }

  /**
   * When the first check found a country, the second check, which reuses
   * it, changes nothing: it redirects only if the first one did, and then it
   * does not run at all.
   */
  lemma SecondCheckRepeatsFirst(s: PageState, loc: Location, first: Option<string>, second: Option<string>)
    requires WellFormed(s.cookies) && Truthy(first)
    ensures var afterFirst := Check(s, loc, false, first);
            Check(afterFirst, loc, true, second) == afterFirst
  {
    if !s.hasRedirected && !Excluded(loc) {
      var cached := s.(geoCheckResult := first);
      ProcessTwice(cached, loc, first);
    }
  }

  /** A storefront path is never an informational page. */
  lemma RegionalPathNotExcluded(region: string, path: string)
    requires IsTargetCountry(region)
    ensures !StartsWith(RegionalPath(region, path), ExcludedPrefix)
  {
    var p := RegionalPath(region, path);
    assert p[..6] == RegionPrefix(region);
    assert p[1] != ExcludedPrefix[1];
  }

  /** On the page a redirect leads to, the same country decides to stay. */
  lemma LandingDecidesToStay(cookies: Jar, loc: Location, code: Option<string>)
    requires WellFormed(cookies) && ValidPreference(ReadPreference(cookies))
    requires DecisionAt(Fresh(cookies), loc, code).redirectTo.Some?
    ensures var d := DecisionAt(Fresh(cookies), loc, code);
            var next := Location(RegionalPath(d.redirectTo.value, loc.pathname), loc.search, loc.hash);
            var landed := Process(Fresh(cookies), loc, code).cookies;
            && WellFormed(landed)
            && !Excluded(next)
            && DecisionAt(Fresh(landed), next, code).redirectTo.None?
  {
    var d := DecisionAt(Fresh(cookies), loc, code);
    var target := d.redirectTo.value;
    assert Process(Fresh(cookies), loc, code).cookies == Written(cookies, d);
    ReadsAfterWrite(cookies, d);
    RegionalPathNotExcluded(target, loc.pathname);
    StaysAfterRedirect(code, ReadPreference(cookies), ReadLastCountry(cookies), CurrentRegion(loc.pathname),
                       loc.pathname);
  }

  /**
   * A redirect lands on a page where, for the same country, the next page
   * load does not redirect again (as long as the saved preference is one the
   * script could have written).
   */
  lemma RedirectLandsOnStableStore(cookies: Jar, loc: Location, code: Option<string>, second: Option<string>)
    requires WellFormed(cookies) && ValidPreference(ReadPreference(cookies))
    ensures var d := DecisionAt(Fresh(cookies), loc, code);
            d.redirectTo.Some? ==>
              var next := Location(RegionalPath(d.redirectTo.value, loc.pathname), loc.search, loc.hash);
              PageLoad(Process(Fresh(cookies), loc, code).cookies, next, code, second).navigations == []
  {
    var d := DecisionAt(Fresh(cookies), loc, code);
    if d.redirectTo.Some? {
      var next := Location(RegionalPath(d.redirectTo.value, loc.pathname), loc.search, loc.hash);
      var landed := Process(Fresh(cookies), loc, code).cookies;
      LandingDecidesToStay(cookies, loc, code);
      var afterFirst := Check(Fresh(landed), next, false, code);
      assert afterFirst == Process(Fresh(landed).(geoCheckResult := code), next, code);
      assert afterFirst.navigations == [];
      SecondCheckRepeatsFirst(Fresh(landed), next, code, second);
      PageLoadIsTwoChecks(landed, next, code, second);
    }
  }

  /**
   * A saved preference the script never writes (say "XX") sends an
   * Australian page to itself: the redirect target is the page's own path,
   * so each load navigates again.
   */
  lemma UnknownPreferenceRedirectsInPlace(cookies: Jar, loc: Location, code: string)
    requires IsTargetCountry(code) && ReadLastCountry(cookies) == code
    requires ReadPreference(cookies) != "" && !ValidPreference(ReadPreference(cookies))
    requires CurrentRegion(loc.pathname) == "AU" && StartsWith(loc.pathname, "/")
    ensures Process(Fresh(cookies), loc, Some(code)).navigations
            == [RegionalURL(ReadPreference(cookies), loc.pathname, loc.search, loc.hash)]
    ensures RegionalPath(ReadPreference(cookies), loc.pathname) == loc.pathname
  {
    var preference := ReadPreference(cookies);
    EstablishedPreferenceCase(code, preference, code, "AU");
    assert DecisionAt(Fresh(cookies), loc, Some(code)).redirectTo == Some(preference);
    UnprefixedRegionKeepsPath(preference, loc.pathname);
    CleanPathKeepsTail("AU", loc.pathname);
    assert RegionPrefix("AU") + loc.pathname == loc.pathname;
  }
}
