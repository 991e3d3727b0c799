/**
 * The decision `processGeoData` makes for one detected country code, as a
 * value: which of the two cookies to write and whether to redirect, and to
 * which region. The page state and the order of effects are in GeoCheck.
 */
module RegionDecision {
  import opened Wrappers
  import opened Regions

  /** A country code is "truthy" when present and non-empty; `null`, `undefined` and "" are not. */
  predicate Truthy(code: Option<string>) {
    code.Some? && code.value != ""
  }

  /** The writes of `lastDetectedCountry` and `regionPreference`, and the region redirected to. */
  datatype Decision = Decision(
    lastDetectedCountry: Option<string>,
    regionPreference: Option<string>,
    redirectTo: Option<string>)

  const NoAction := Decision(None, None, None)

  /** A country was recorded before and it is not the one detected now. */
  predicate LocationChanged(lastDetectedCountry: string, countryCode: string) {
    lastDetectedCountry != "" && lastDetectedCountry != countryCode
  }

  /** The region preference in force once the decision's writes are made. */
  function PreferenceAfter(d: Decision, savedPreference: string): string {
    if d.regionPreference.Some? then d.regionPreference.value else savedPreference
  }

  /** The values the script itself ever leaves in `regionPreference` (AU is honoured if set). */
  predicate ValidPreference(preference: string) {
    preference == "" || preference == "AU" || IsTargetCountry(preference)
  }

  /**
   * `processGeoData`'s decision from the detected code, the two cookie values
   * read before anything is written, and the region of the current path.
   * The three cases are tried in order: location changed, first visit,
   * established preference.
   */
  function Decide(countryCode: Option<string>, savedPreference: string, lastDetectedCountry: string,
                  currentRegion: string): (d: Decision)
    // only NZ, SG and HK visitors are acted upon, and their country is always recorded
    ensures d.lastDetectedCountry.Some? <==> Truthy(countryCode) && IsTargetCountry(countryCode.value)
    ensures d.lastDetectedCountry.None? ==> d == NoAction
    ensures d.lastDetectedCountry.Some? ==> d.lastDetectedCountry.value == countryCode.value
    // a preference is only ever set to the detected region
    ensures d.regionPreference.Some? ==> d.regionPreference == d.lastDetectedCountry
    // the redirect goes to the preference in force afterwards, when that names another non-AU store
    ensures d.lastDetectedCountry.Some? ==>
              var after := PreferenceAfter(d, savedPreference);
              after != "" && (d.redirectTo.Some? <==> after != "AU" && after != currentRegion)
    ensures d.redirectTo.Some? ==> d.redirectTo.value == PreferenceAfter(d, savedPreference)
    ensures d.redirectTo.Some? && ValidPreference(savedPreference) ==> IsTargetCountry(d.redirectTo.value)
  {
    if !Truthy(countryCode) then NoAction
    else
      var expectedRegion := ExpectedRegion(countryCode.value);
      if expectedRegion == "AU" then NoAction
      else
        var record := Some(countryCode.value);
        if LocationChanged(lastDetectedCountry, countryCode.value) then
          Decision(record, Some(expectedRegion),
                   if currentRegion != expectedRegion then Some(expectedRegion) else None)
        else if savedPreference == "" then
          Decision(record, Some(expectedRegion),
                   if currentRegion != expectedRegion then Some(expectedRegion) else None)
        else
          Decision(record, None,
                   if savedPreference != "AU" && savedPreference != currentRegion then Some(savedPreference) else None)
  }

  /** An absent or empty code, and any code other than NZ, SG or HK, changes nothing. */
  lemma NoActionOutsideTargetCountries(countryCode: Option<string>, savedPreference: string,
                                       lastDetectedCountry: string, currentRegion: string)
    requires !Truthy(countryCode) || ExpectedRegion(countryCode.value) == "AU"
    ensures Decide(countryCode, savedPreference, lastDetectedCountry, currentRegion) == NoAction
  {
  }

  /**
   * Location changed: the preference follows the new country, and the page
   * moves to the new country's store unless it is already there.
   */
  lemma LocationChangedCase(code: string, savedPreference: string, lastDetectedCountry: string,
                            currentRegion: string)
    requires IsTargetCountry(code) && LocationChanged(lastDetectedCountry, code)
    ensures var d := Decide(Some(code), savedPreference, lastDetectedCountry, currentRegion);
            && d.lastDetectedCountry == Some(code)
            && d.regionPreference == Some(code)
            && (d.redirectTo.Some? <==> currentRegion != code)
            && (d.redirectTo.Some? ==> d.redirectTo.value == code)
  {
  }

  /** First visit: the preference is set to the detected region, and the page moves there if needed. */
  lemma FirstVisitCase(code: string, lastDetectedCountry: string, currentRegion: string)
    requires IsTargetCountry(code) && !LocationChanged(lastDetectedCountry, code)
    ensures var d := Decide(Some(code), "", lastDetectedCountry, currentRegion);
            && d.lastDetectedCountry == Some(code)
            && d.regionPreference == Some(code)
            && (d.redirectTo.Some? <==> currentRegion != code)
            && (d.redirectTo.Some? ==> d.redirectTo.value == code)
  {
  }

  /**
   * Established preference: the preference is not written, and the page
   * moves to the SAVED region (not the detected one) when that is a store
   * other than AU and other than the current one.
   */
  lemma EstablishedPreferenceCase(code: string, savedPreference: string, lastDetectedCountry: string,
                                  currentRegion: string)
    requires IsTargetCountry(code) && !LocationChanged(lastDetectedCountry, code)
    requires savedPreference != ""
    ensures var d := Decide(Some(code), savedPreference, lastDetectedCountry, currentRegion);
            && d.lastDetectedCountry == Some(code)
            && d.regionPreference.None?
            && (d.redirectTo.Some? <==> savedPreference != "AU" && savedPreference != currentRegion)
            && (d.redirectTo.Some? ==> d.redirectTo.value == savedPreference)
  {
  }

  /**
   * Deciding again from the cookies the first decision wrote gives the same
   * redirect and writes no new preference.
   */
  lemma DecideAgain(countryCode: Option<string>, savedPreference: string, lastDetectedCountry: string,
                    currentRegion: string)
    ensures var d := Decide(countryCode, savedPreference, lastDetectedCountry, currentRegion);
            var recorded := if d.lastDetectedCountry.Some? then d.lastDetectedCountry.value else lastDetectedCountry;
            var again := Decide(countryCode, PreferenceAfter(d, savedPreference), recorded, currentRegion);
            && again.lastDetectedCountry == d.lastDetectedCountry
            && again.regionPreference.None?
            && again.redirectTo == d.redirectTo
  {
  }

  /**
   * On the page a redirect leads to, with the cookies the redirecting call
   * wrote and the same country, the decision is to stay.
   */
  lemma StaysAfterRedirect(countryCode: Option<string>, savedPreference: string, lastDetectedCountry: string,
                           currentRegion: string, path: string)
    requires ValidPreference(savedPreference)
    requires Decide(countryCode, savedPreference, lastDetectedCountry, currentRegion).redirectTo.Some?
    ensures var d := Decide(countryCode, savedPreference, lastDetectedCountry, currentRegion);
            var landing := CurrentRegion(RegionalPath(d.redirectTo.value, path));
            Decide(countryCode, PreferenceAfter(d, savedPreference), countryCode.value, landing).redirectTo.None?
  {
    var d := Decide(countryCode, savedPreference, lastDetectedCountry, currentRegion);
    RegionalPathShowsRegion(d.redirectTo.value, path);
  }

  /** The preference a decision leaves behind is again one the script can write. */
  lemma PreferenceStaysValid(countryCode: Option<string>, savedPreference: string, lastDetectedCountry: string,
                             currentRegion: string)
    requires ValidPreference(savedPreference)
    ensures ValidPreference(PreferenceAfter(Decide(countryCode, savedPreference, lastDetectedCountry, currentRegion),
                                            savedPreference))
  {
  }
}
