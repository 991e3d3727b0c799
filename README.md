# Region redirect of the storefront, modelled in Dafny

The storefront script `assets/georedirect.js` runs on every page load. It finds
the visitor's country, and for visitors from New Zealand, Singapore or Hong Kong
it may send the browser to that country's storefront (`/en-nz`, `/en-sg`,
`/en-hk` on one fixed domain; the Australian store has no prefix). It keeps two
cookies, `regionPreference` and `lastDetectedCountry`. Within one page load it
also keeps a flag `hasRedirected` and a cached country `geoCheckResult`. The
check runs twice per load, once immediately and once after a delay.

The model has six modules:

- `Wrappers` (wrappers.dfy): `Option`. `None` stands for `null`/`undefined`.
- `Text` (text.dfy): `startsWith` and JavaScript's `trim`. `trim` removes exactly
  the WhiteSpace and LineTerminator code points of ECMA-262.
- `Cookies` (cookies.dfy): the cookie jar in creation order. A write replaces the
  cookie of that name where it stands, or appends a new one. `Entries` is how
  `document.cookie` reads once split on `;`. `GetCookie` is the scan loop of
  `getCookie`, proved against the recursive `CookieValue`.
- `Regions` (regions.dfy): the country-to-region table, `getCurrentRegionFromURL`
  (`CurrentRegion`) and `getRegionalURL` (`RegionalURL`). Regions are strings,
  as in the script.
- `RegionDecision` (decision.dfy): the decision of `processGeoData` as a value.
  It says which cookies to write and which region, if any, to redirect to. The
  three cases come in the script's order: location changed, first visit,
  established preference.
- `GeoCheck` (geo_check.dfy): the page state and the spec functions `Process`
  (`processGeoData`) and `Check` (`runGeoCheck`). The class `GeoRedirect` holds
  the cookies, the two module-level variables and the list of URLs assigned to
  `window.location.href`. Its methods `ProcessGeoData` and `RunGeoCheck` follow
  the script step by step and are proved equal to `Process` and `Check`.
  `LoadPage` runs the two scheduled checks.

The main results:

- A page load navigates at most once, however many checks run.
- Pages under `/pages/` are never touched.
- When the first check found a country, the second check (which reuses it)
  changes nothing.
- A redirect lands on a page where the same country decides to stay. This holds
  as long as the saved preference is one the script itself writes.
- `getCookie` reads back what `setCookie` wrote.
- The path prefix `getCurrentRegionFromURL` recognises is exactly the one
  `getRegionalURL` strips.

The results about the second check, the landing page and reading cookies back
hold for jars in which every cookie has a non-empty name that contains no '='
and does not start with white space (`WellFormed`). A
nameless cookie reads in `document.cookie` as its bare value. So one whose value
is, say, `regionPreference=SG` hides the real `regionPreference` cookie from
`getCookie`, and these results need not hold.

One behaviour of the script is recorded as a lemma, not corrected:
`UnknownPreferenceRedirectsInPlace`. A saved preference the script never writes
(any non-empty value other than AU, NZ, SG or HK) sends an Australian page to
its own path on the fixed domain. So every load of that page redirects to
itself. Only a cookie written from outside the script can reach this state.

Two details of the code that the model keeps:

- The established-preference case redirects without rewriting `regionPreference`.
- `getRegionalURL` strips one leading regional prefix, so `/en-nz/en-sg/x`
  becomes `/en-sg/x`.

## Model

| member | source | states |
|---|---|---|
| `Text.TrimStart` | assets/georedirect.js:49 | `trim` drops leading white space only: the result is a suffix of the input, everything dropped is white space, and it starts with a visible character or is empty |
| `Text.TrimEnd` | assets/georedirect.js:49 | the same for trailing white space: the result is a prefix of the input |
| `Text.Trim` | assets/georedirect.js:49 | `trim()`: the result is no longer than the input and neither starts nor ends with white space; `TrimStart` and `TrimEnd` say which characters go |
| `Cookies.CookieValue` | assets/georedirect.js:44-55 | what `getCookie` returns over the split entries; `CookieValueIsFirstMatch` and `CookieValueAbsent` characterise it, and `GetCookie` is proved to compute it |
| `Cookies.GetCookie` | assets/georedirect.js:44-55 | the scan over the split cookie entries returns what `CookieValue` specifies |
| `Cookies.CookieValueIsFirstMatch` | assets/georedirect.js:47-52 | the value returned is the text after `name=` in the first trimmed entry that starts with `name=` |
| `Cookies.CookieValueAbsent` | assets/georedirect.js:54 | with no matching entry the result is "" |
| `Cookies.Put` | assets/georedirect.js:37-42 | after `setCookie(name, value)` the jar's cookie of that name holds `value` |
| `Cookies.PutKeepsOthers` | assets/georedirect.js:37-42 | a write leaves every other cookie's value unchanged |
| `Cookies.PutContents` | assets/georedirect.js:37-42 | a write adds or replaces only the written cookie and drops no other |
| `Cookies.PutExisting` | assets/georedirect.js:37-42 | writing the value a cookie already holds leaves the jar unchanged |
| `Cookies.EntryMatches` | assets/georedirect.js:49-51 | in a well-formed jar an entry matches `name=` exactly when its cookie has that name, and then the suffix is the stored value less trailing white space |
| `Cookies.ReadJar` | assets/georedirect.js:44-55 | `getCookie` on the jar's `document.cookie` gives the first stored value of that name less trailing white space, or "" when there is none |
| `Regions.ExpectedRegion` | assets/georedirect.js:103-111 | NZ, SG and HK map to themselves; every other code maps to AU |
| `Regions.RegionPrefix` | assets/georedirect.js:76-89 | the switch: a non-empty prefix exactly for NZ, SG and HK, always six characters starting with `/en-`; `RegionalPathShowsRegion` shows it is recognised as its own region |
| `Regions.StripRegionPrefix` | assets/georedirect.js:70 | the regex replace: what is left is a suffix of the path, and it differs from the path exactly when `CurrentRegion` is not AU |
| `Regions.CurrentRegion` | assets/georedirect.js:57-63 | the result is AU, NZ, SG or HK; it is not AU exactly when the path starts with a regional prefix |
| `Regions.CleanPath` | assets/georedirect.js:70-74 | the cleaned path always starts with '/' |
| `Regions.RegionalURL` | assets/georedirect.js:65-91 | the URL is absolute on the fixed domain with a path starting with '/', and ends with the query string and the fragment unchanged |
| `Regions.PathSplitsAtRegionPrefix` | assets/georedirect.js:57-70 | every path is the prefix of its `CurrentRegion` followed by what the `getRegionalURL` regex leaves |
| `Regions.RegionalPathShowsRegion` | assets/georedirect.js:57-91 | a path moved to NZ, SG or HK is recognised as that region, and stripping the new prefix gives back the cleaned path |
| `Regions.UnprefixedRegionKeepsPath` | assets/georedirect.js:76-91 | AU and unknown regions get the cleaned path with no prefix |
| `Regions.CleanPathKeepsTail` | assets/georedirect.js:70-74 | the tail of the path is kept: an Australian path starting with '/' is unchanged, and a regional path loses only its prefix |
| `RegionDecision.Truthy` | assets/georedirect.js:99 | JavaScript truthiness of a code that is a string, `null` or `undefined`: present and non-empty; the same test is used at lines 137 and 166 |
| `RegionDecision.LocationChanged` | assets/georedirect.js:121 | a country was recorded (truthy) and differs from the detected one; `LocationChangedCase` states its consequence |
| `RegionDecision.Decide` | assets/georedirect.js:94-151 | the country is recorded exactly for truthy NZ/SG/HK codes and otherwise nothing happens; a written preference is always the detected region; the redirect goes to the preference in force afterwards, exactly when that is non-AU and not the current region |
| `RegionDecision.NoActionOutsideTargetCountries` | assets/georedirect.js:99-116 | an absent or empty code, or any code other than NZ, SG and HK: no cookie write, no redirect |
| `RegionDecision.LocationChangedCase` | assets/georedirect.js:121-134 | location changed: both cookies are set to the new country; the redirect goes to it exactly when the current region differs |
| `RegionDecision.FirstVisitCase` | assets/georedirect.js:136-144 | no saved preference: both cookies are set; the redirect goes to the detected region exactly when the current region differs |
| `RegionDecision.EstablishedPreferenceCase` | assets/georedirect.js:146-150 | saved preference: it is not rewritten; the redirect goes to the saved region, not the detected one, exactly when it is not AU and not current |
| `RegionDecision.DecideAgain` | assets/georedirect.js:118-150 | deciding again from the cookies just written gives the same redirect and writes no preference |
| `RegionDecision.StaysAfterRedirect` | assets/georedirect.js:126-150 | on the page a redirect leads to, the same country with the written cookies decides to stay |
| `RegionDecision.PreferenceStaysValid` | assets/georedirect.js:128-138 | the preference left behind is again empty, AU, NZ, SG or HK |
| `GeoCheck.Process` | assets/georedirect.js:94-151 | a call leaves the cache alone, and either does not navigate or sets the flag and navigates exactly once more |
| `GeoCheck.Written` | assets/georedirect.js:124-138 | the cookie writes in the script's order, `lastDetectedCountry` then `regionPreference`: no write leaves the jar as it was, and a written preference is read back by `Lookup`; `WrittenLookups` and `ReadsAfterWrite` give the rest |
| `GeoCheck.Check` | assets/georedirect.js:153-185 | after a redirect or under `/pages/` nothing changes; a second check never writes the cache |
| `GeoCheck.PageLoad` | assets/georedirect.js:187-193 | the page load: afterwards the cached country is the first lookup's result, or none on an excluded page |
| `GeoCheck.PageLoadIsTwoChecks` | assets/georedirect.js:187-193 | a page load is the first check followed by the second |
| `GeoCheck.GeoRedirect.constructor` | assets/georedirect.js:3-4 | the page starts with `hasRedirected` false and no cached country |
| `GeoCheck.GeoRedirect.SetCookie` | assets/georedirect.js:37-42 | only the jar changes, by `Put` |
| `GeoCheck.GeoRedirect.Navigate` | assets/georedirect.js:131 | the URL is appended to the navigations and nothing else changes |
| `GeoCheck.GeoRedirect.ProcessGeoData` | assets/georedirect.js:94-151 | the in-place steps (reads before the `lastDetectedCountry` write, then the three cases) give the state `Process` specifies |
| `GeoCheck.GeoRedirect.RunGeoCheck` | assets/georedirect.js:153-185 | the guards, the cache and the lookup give the state `Check` specifies |
| `GeoCheck.LoadPage` | assets/georedirect.js:187-193 | the immediate and the delayed check give the state `PageLoad` specifies |
| `GeoCheck.ChecksNavigateAtMostOnce` | assets/georedirect.js:153-157 | after any sequence of checks at most one URL has been navigated to |
| `GeoCheck.PageLoadNavigatesAtMostOnce` | assets/georedirect.js:187-193 | a page load navigates at most once |
| `GeoCheck.FrozenPageIgnoresChecks` | assets/georedirect.js:155-162 | once redirected, or under `/pages/`, any sequence of checks changes nothing |
| `GeoCheck.CachedCheckIgnoresLookup` | assets/georedirect.js:166-169 | a second check with a truthy cache does not depend on a fresh lookup |
| `GeoCheck.WrittenLookups` | assets/georedirect.js:124-138 | the cookies a decision writes hold the written values; the other cookie keeps its value |
| `GeoCheck.ReadsAfterWrite` | assets/georedirect.js:118-138 | after the writes, `getCookie` reads the recorded country and the preference in force |
| `GeoCheck.ProcessTwice` | assets/georedirect.js:118-150 | processing the same country again writes back exactly the cookies already stored and decides the same redirect |
| `GeoCheck.SecondCheckRepeatsFirst` | assets/georedirect.js:164-179 | when the first check found a country, the second check leaves the page state unchanged |
| `GeoCheck.RegionalPathNotExcluded` | assets/georedirect.js:160 | a storefront path never starts with `/pages/` |
| `GeoCheck.LandingDecidesToStay` | assets/georedirect.js:126-150 | on the page a redirect leads to, with the written cookies, the decision is to stay |
| `GeoCheck.RedirectLandsOnStableStore` | assets/georedirect.js:126-150 | for the same country, the page load that follows a redirect does not redirect again |
| `GeoCheck.UnknownPreferenceRedirectsInPlace` | assets/georedirect.js:146-150 | when the saved preference is not empty, AU, NZ, SG or HK and the country has not changed, an Australian page navigates to its own path on the fixed domain, with the query string and fragment |

## Left out

- Country lookup (`fetchWithTimeout`, `getCountryCode`, lines 7-35): network calls raced against a 3000 ms timer, a fallback provider and JSON parsing. Its outcome is the `resolved` argument of `RunGeoCheck`; `None` is `null`.
- Scheduling (lines 187-193): the 2000 ms `setTimeout` is not modelled, and checks run one after the other. Two checks whose lookups overlap are not modelled. After the `await`, `processGeoData` does not test `hasRedirected` again, so overlapping checks could both navigate.
- `setCookie` details (lines 37-42): the 30-day expiry (`Date`, `toUTCString`) and the `path=/` attribute are left out. A write is modelled as an update of the jar by name. Cookie scoping by domain and path is not modelled either.
- Browser handling of cookie values (RFC 6265, section 5.2): the browser trims a stored value and cuts it at ';'. The model stores values as given. The script only ever writes NZ, SG and HK, which these rules leave unchanged.
- `decodeURIComponent` (line 46) is treated as the identity. Its `URIError` on a malformed escape is not modelled. The `catch` in `runGeoCheck` would swallow that error, with no cookie written and no redirect.
- `split(';')` (line 47): the entries are given already split. A value holding ';' (possible only through decoding `%3B`) is not modelled.
- Nameless cookies: a cookie with an empty name reads as its bare value, and one whose value starts with `regionPreference=` or `lastDetectedCountry=` hides the real cookie from `getCookie`. Such jars are outside `SecondCheckRepeatsFirst`, `ReadsAfterWrite`, `LandingDecidesToStay` and `RedirectLandsOnStableStore`, which assume `WellFormed` jars.
- `processGeoData`'s second parameter `isSecondCheck` is left out: the function never uses it.
- The currency selector handler (lines 195-211) is a DOM event, a POST and a reload. It is not part of this model.
- `console.log`/`console.error` and the `try`/`catch` around the check (lines 24, 31, 164, 181-184) are left out. Nothing else in the modelled code can throw.
