# National sites explorer: request cache, keys, sentinels and menu

This project models the core of a command-line explorer for U.S. National Park Service sites
(`proj2_nps.py`). The user picks a state, then one of that state's sites. The program then shows
places near the site, using a nearby-places web API. Every outbound request goes through one
persistent cache first. The model covers four parts:

- **Request key** (`fingerprint.dfy`, module `Fingerprint`). `construct_unique_key` starts from the
  base URL. It then appends `_name_value` for each query parameter, in iteration order, and skips
  the credential parameter `key`. The loop is the method `ConstructUniqueKey`. It is proved equal
  to the function `UniqueKey`. The lemmas state what the key is and what it depends on.
- **Request cache** (`cache.dfy`, module `Cache`). A class `RequestCache` holds the in-memory map.
  A ghost `durable` copy stands for the cache file. A ghost `requests` log records every network
  request. `GetOrFetchPage` models `make_url_request_using_cache`. `GetOrFetchApi` models
  `make_api_request_using_cache`. Both are tied to the pure get-or-fetch function `GetOrFetch`.
  Lemmas about `GetOrFetch` cover hits, misses and idempotence.
- **Sites and places** (`places.dfy`, module `Places`). These are the `NationalSite` record and its
  `info()` line, and the sentinel strings for missing fields. `SiteFromContact` covers the
  fields of a site page: no address, no zipcode, no phone. `OrSentinel` and `ResolvePlace` cover
  the fields of an API result: no city, no category, no address. `PlacesReport` gives the lines
  `list_places` prints.
- **Session** (`session.dfy`, module `Session`). The main loop's menu is the transition function
  `Step` over the modes `PickState | PickSite(sites) | Exit`. `Run` folds `Step` over a sequence of
  input lines. `RunSession` is the imperative loop: it drives the menu and issues each
  nearby-places request through the cache, via `GetNearbyPlaces` (`get_nearby_places`).

Two small support modules hold no model of their own: `Wrappers` (`wrappers.dfy`) defines `Option`, and `Sequences` (`sequences.dfy`) holds general facts about concatenation used by the proofs.

The network is modelled as function-valued parameters: `fetchPage` for page downloads and
`callApi` for API calls. The parsed cache file is a constructor argument. The state catalogue
scraped from the website is a `Catalog` value. The console input is a sequence of lines.

Where the code's documentation and its behaviour differ, the model follows the code:

- The docstring types `params` as a dict, but the key depends on the order in which the parameters
  are iterated (`Fingerprint.OrderMatters`).
- The docstring of `construct_unique_key` calls the key unique. A `_` inside a parameter name or
  value lets two different requests share a key (`Fingerprint.SeparatorCollision`). A key is unique
  only in a narrower sense: changing one non-credential value always changes the key
  (`Fingerprint.DistinctValueDistinctKey`).
- The API path checks whether the key is in its `cache` parameter, but reads and writes the global
  `CACHE` (proj2_nps.py:258-264). Its only caller passes `CACHE`, so the model has one store.

## Model

| member | source | states |
|---|---|---|
| `Fingerprint.ConstructUniqueKey` | proj2_nps.py:217-237 | the key the loop builds is `UniqueKey(baseurl, params)`: the base URL, then one contribution per parameter in order |
| `Fingerprint.UniqueKeyIsNonCredentialPieces` | proj2_nps.py:233-237 | the key is the base URL followed by `"_" + name + "_" + value` for exactly the parameters not named `key`, in iteration order |
| `Fingerprint.SuffixWithoutCredential` | proj2_nps.py:234-236 | when no parameter is named `key`, every parameter contributes its `_name_value` piece, in order |
| `Fingerprint.OnlyCredentialGivesBase` | proj2_nps.py:233-235 | when every parameter is named `key` (or there are none), the key is the base URL itself |
| `Fingerprint.SameKeyWithoutCredential` | proj2_nps.py:234-236 | two parameter lists that agree once credentials are dropped give the same key |
| `Fingerprint.CredentialIgnored` | proj2_nps.py:235 | adding or removing a `key` parameter anywhere in the list does not change the key |
| `Fingerprint.CredentialValueIgnored` | proj2_nps.py:235 | changing only the value of the `key` parameter does not change the key |
| `Fingerprint.DistinctValueDistinctKey` | proj2_nps.py:236 | two requests that differ only in the value of one non-credential parameter get different keys |
| `Fingerprint.OrderMatters` | proj2_nps.py:234 | the same two parameters in the other order give a different key |
| `Fingerprint.SeparatorCollision` | proj2_nps.py:218-236 | two different parameter lists, `a=b_c` and `a_b=c`, share one key, so the docstring's uniqueness does not hold in general |
| `Places.Info` | proj2_nps.py:42-43 | the summary line is the name, ` (`, the category, `): `, the address, a space and the zipcode, each part at its own offset, with the exact total length |
| `Places.Strip` | proj2_nps.py:94-98 | the stripped text is the contiguous part of the input that starts at its first non-whitespace character, with only whitespace before and after it; it neither starts nor ends with whitespace, and is empty exactly when the input is all whitespace |
| `Places.SiteFromContact` | proj2_nps.py:88-101 | a missing locality or region gives exactly "no address"; a missing postal code gives exactly "no zipcode"; a missing phone gives exactly "no phone"; a postal code or phone that is present becomes its stripped text, so "" exactly when it is blank |
| `Places.OrSentinel` | proj2_nps.py:309-317 | an absent or empty field becomes exactly the sentinel; a non-empty field passes through unchanged; with a non-empty sentinel the result is never empty |
| `Places.ResolvePlace` | proj2_nps.py:307-317 | city, category and address are each resolved with their own sentinel ("no city", "no category", "no address"); the name is kept |
| `Places.ResolvedFieldsNonEmpty` | proj2_nps.py:309-317 | a resolved place never shows an empty city, category or address; an absent or `""` field shows its sentinel; a non-empty city is shown as is |
| `Places.PlaceLine` | proj2_nps.py:318 | the bullet line is `- `, the name, ` (`, the category, `): `, the address, `, ` and the city, each part at its own offset, with the exact total length |
| `Places.PlacesReport` | proj2_nps.py:303-318 | the listing is the header "Places near in " + site name between two dash rules of the header's length, then one resolved line per result, in order |
| `Cache.GetOrFetch` | proj2_nps.py:205-214 | the network is consulted exactly when the key is absent; afterwards the key is stored and the returned value is what it maps to; the keys are the old ones plus this key; old entries never change; on a miss the value is the response |
| `Cache.HitLeavesStore` | proj2_nps.py:205-207 | on a hit the stored value is returned, the store is left exactly as it was, and nothing is fetched |
| `Cache.MissInsertsResponse` | proj2_nps.py:208-214 | on a miss the store becomes `store[key := response]`, the response is returned, and a fetch happens |
| `Cache.GetOrFetchIdempotent` | proj2_nps.py:205-214 | two consecutive get-or-fetches of one key fetch at most once and return identical values, whatever the network would answer the second time |
| `Cache.RequestCache.Load` | proj2_nps.py:162-169 | a file that opens and decodes to a JSON object gives that store; a missing file or content that does not decode gives an empty store |
| `Cache.RequestCache.Save` | proj2_nps.py:184-187 | the durable copy becomes the whole in-memory store |
| `Cache.RequestCache.GetOrFetchPage` | proj2_nps.py:190-214 | a cached URL returns its entry and changes nothing: no request and no write; an uncached URL is fetched once, stored under the URL, persisted so the durable copy equals the map, and returned |
| `Cache.RequestCache.GetOrFetchApi` | proj2_nps.py:240-264 | the same get-or-fetch under the request's `UniqueKey`; a miss issues one API call with all parameters, credential included, then stores and persists the result; other keys keep their entries |
| `Session.NearbyRequestKey` | proj2_nps.py:141-150 | the nearby-places request for a site is cached under the base URL, `_origin_` + its zipcode, and the fixed radius/maxMatches/ambiguities/outFormat text, whatever the API key |
| `Session.GetNearbyPlaces` | proj2_nps.py:128-151 | returns the cache's get-or-fetch of the nearby-places request under that key; at most one API call |
| `Session.Step` | proj2_nps.py:327-362 | a request is issued only from the site menu, only for a listed site with a usable zipcode, and the menu stays where it is; nothing leaves `Exit` |
| `Session.PickStateIgnoresCase` | proj2_nps.py:330 | in the state menu an input and its lower-cased form lead to the same transition |
| `Session.PickStateOutcomes` | proj2_nps.py:329-340 | in the state menu: "exit" in any case ends the session; an unknown name stays in the state menu; a known name lists that state's sites; no request is ever issued |
| `Session.PickSiteBackAndExit` | proj2_nps.py:343-347 | in the site menu "back" returns to the state menu and "exit" ends the session, with no request |
| `Session.PickSiteIsCaseSensitive` | proj2_nps.py:342-352 | the site menu does not lower-case its input: "EXIT" is rejected as an invalid choice and the menu stays |
| `Session.PickSiteOutcomes` | proj2_nps.py:348-359 | for any other input the menu stays in the site menu; a request is issued if and only if the input is all digits in 1..number of sites and that site's zipcode is neither "no zipcode" nor ""; the request is for that site |
| `Session.Run` | proj2_nps.py:327-362 | every site requested during a run has a usable zipcode; there are at most as many requests as input lines; an exited session does nothing more |
| `Session.OutOfRangeChoice` | proj2_nps.py:348-352 | with three sites listed, the choice "5" stays in the site menu and issues no request |
| `Session.MichiganScenario` | proj2_nps.py:329-360 | "Michigan" and then "1" on a state with one site of zipcode 49931 leave the session in that site menu, having requested exactly that site |
| `Session.MichiganRequestKey` | proj2_nps.py:141-150 | that request's key is the base URL, `_origin_49931` and the fixed query text, without the API key |
| `Session.ServeInput` | proj2_nps.py:341-360 | one line of input moves the menu as `Step` says; without a chosen site the cache, the request log and the durable copy are untouched; with one, the cache is the get-or-fetch of that site's nearby-places request: a cached key makes no network request and no write, an uncached one makes exactly that API call and persists the cache |
| `Session.RunSession` | proj2_nps.py:324-363 | the loop ends in the mode `Run` predicts; old cache entries are unchanged; the keys become the old keys plus the keys of the requested sites, and each new entry is the API result of the nearby-places request of one requested site, stored under that request's key; the number of network requests equals the number of new keys (none for a site already cached), and is at most the number of requested sites; the durable copy stays in step with the map |

## Left out

- HTML scraping (`build_state_url_dict`, `get_sites_for_state`, and the markup lookups of `get_site_instance`). These are library calls on parsed markup. The session receives their results as a `Catalog` value, and the page fetches they make through the cache are not part of `RunSession`. `SiteFromContact` models only the per-field sentinel substitution.
- The network (`requests.get`) is modelled as total function parameters. Network failures propagate uncaught in the source; the model has no failure path for them.
- File I/O and JSON. `RequestCache.Load` receives the already-parsed file, `None` when it is missing or does not decode. `Save` updates the ghost durable copy. No save/load round trip is stated. A file holding valid JSON that is not an object is not modelled: the source keeps that value and fails at its first lookup (proj2_nps.py:205).
- API responses are reduced to the fields `list_places` reads: name, address, city and category name. The `KeyError` the source raises for a record without `name` or `fields`, or a response without `searchResults`, is not modelled.
- `time.sleep(1)` before a page fetch, all `print` output except the place listing (`PlacesReport`), and `list_sites`, which prints the numbered site lines.
- Input comes as a finite sequence of lines; running out of lines ends the run. The `EOFError` that `input()` raises then is not modelled.
- `str.isdigit`, `str.lower` and `str.strip` are restricted to ASCII digits, letters and whitespace. Python's Unicode digits and whitespace are not modelled.
- Integer parameter values (`radius` and `maxMatches` are the number 10) are rendered as the text `"10"`, as the f-string in `construct_unique_key` renders them.
- The session keeps `list_of_sites` after "back"; the model drops the list when it leaves the site menu, since nothing reads it before it is replaced.
- Session.RunSession: counts the network requests (one per new key) instead of listing them in order, and does not print or return the payloads it fetches (what it stores is stated).
