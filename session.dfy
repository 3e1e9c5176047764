/** The interactive session: a two-state menu (pick a state, then pick a site of that state),
    the nearby-places request it issues for a chosen site, and the loop that drives it. */
module Session {
  import opened Wrappers
  import Fingerprint
  import Places
  import Cache
  import Sequences

  // ---------------------------------------------------------------------------
  // ASCII text helpers for the two checks the menu applies to its input.

  /** A letter's lower-case form; every other character is its own. */
  function LowerChar(c: char): (r: char)
    ensures !('A' <= r <= 'Z')
    ensures 'A' <= c <= 'Z' ==> r as int == c as int + 32
    ensures !('A' <= c <= 'Z') ==> r == c
  {
    if 'A' <= c <= 'Z' then (c as int + 32) as char else c
  }

  /** `s` in lower case, character by character. */
  function Lower(s: string): (r: string)
    ensures |r| == |s|
    ensures forall i :: 0 <= i < |s| ==> r[i] == LowerChar(s[i])
  {
    if s == [] then [] else [LowerChar(s[0])] + Lower(s[1..])
  }

  /** Lower-casing twice is lower-casing once. */
  lemma LowerIdempotent(s: string)
    ensures Lower(Lower(s)) == Lower(s)
  {
  }

  /** A non-empty string of decimal digits. */
  predicate IsDigits(s: string)
  {
    |s| > 0 && forall i :: 0 <= i < |s| ==> '0' <= s[i] <= '9'
  }

  /** The number a string of decimal digits denotes; leading zeros are allowed. */
  function DigitsValue(s: string): (n: nat)
    requires forall i :: 0 <= i < |s| ==> '0' <= s[i] <= '9'
    ensures s == [] ==> n == 0
  {
    if s == [] then 0
    else
      var m := DigitsValue(s[..|s| - 1]);
      10 * m + (s[|s| - 1] as int - '0' as int)
  }

  // ---------------------------------------------------------------------------
  // The nearby-places request of a site.

  const NearbyBase: string := "http://www.mapquestapi.com/search/v2/radius"

  /** The part of the nearby-places query that is the same for every site: ten matches within
      a radius of ten, ambiguous origins ignored, JSON output. */
  const FixedQuery: seq<Fingerprint.Param> :=
    [("radius", "10"), ("maxMatches", "10"), ("ambiguities", "ignore"), ("outFormat", "json")]

  /** The text `FixedQuery` contributes to a cache key, `_radius_10_maxMatches_10` followed by
      `_ambiguities_ignore_outFormat_json`. */
  const FixedQueryText: string := Fingerprint.Pieces(FixedQuery)

  /** The query of the nearby-places request for `site`, signed with `apiKey`. */
  function NearbyParams(site: Places.Site, apiKey: string): seq<Fingerprint.Param>
  {
    [(Fingerprint.CredentialName, apiKey), ("origin", site.zipcode)] + FixedQuery
  }

  /** The cache key of the nearby-places request for a postal code, written out. */
  function NearbyKey(zipcode: string): string
  {
    NearbyBase + "_origin_" + zipcode + FixedQueryText
  }

  /** None of the fixed parameters is the credential, so each contributes its piece. */
  lemma FixedQuerySuffix()
    ensures Fingerprint.Suffix(FixedQuery) == FixedQueryText
  {
    Fingerprint.SuffixWithoutCredential(FixedQuery);
  }

  /** The nearby-places request for a site is cached under the written-out key of its postal
      code, whatever the API key. */
  lemma NearbyRequestKey(site: Places.Site, apiKey: string)
    ensures Fingerprint.UniqueKey(NearbyBase, NearbyParams(site, apiKey)) == NearbyKey(site.zipcode)
  {
    var ps := NearbyParams(site, apiKey);
    var origin: Fingerprint.Param := ("origin", site.zipcode);
    FixedQuerySuffix();
    assert ps[1..] == [origin] + FixedQuery;
    assert ([origin] + FixedQuery)[1..] == FixedQuery;
    assert Fingerprint.Suffix(ps) == Fingerprint.Suffix([origin] + FixedQuery);
    assert Fingerprint.Suffix([origin] + FixedQuery) == ("_origin_" + site.zipcode) + FixedQueryText;
    Fingerprint.Regroup(NearbyBase, "_origin_", site.zipcode, FixedQueryText);
  }

  /** get_nearby_places: the cached result of the nearby-places request for `site`. */
  method GetNearbyPlaces(site: Places.Site, apiKey: string, cache: Cache.RequestCache,
                         callApi: (string, seq<Fingerprint.Param>) -> seq<Places.PlaceRecord>)
    returns (p: Cache.Payload)
    requires cache.Valid()
    modifies cache
    ensures cache.Valid()
    ensures var l := Cache.GetOrFetch(old(cache.entries), NearbyKey(site.zipcode),
                                      Cache.ApiResult(callApi(NearbyBase, NearbyParams(site, apiKey))));
            && p == l.value && cache.entries == l.store
            && cache.requests == old(cache.requests) + (if l.fetched then [Cache.ApiGet(NearbyBase, NearbyParams(site, apiKey))] else [])
            && cache.durable == (if l.fetched then Some(cache.entries) else old(cache.durable))
  {
    NearbyRequestKey(site, apiKey);
    p := cache.GetOrFetchApi(NearbyBase, NearbyParams(site, apiKey), callApi);
  }

  // ---------------------------------------------------------------------------
  // The menu.

  /** Where the session is: choosing a state, choosing one of the listed sites, or finished. */
  datatype Mode = PickState | PickSite(sites: seq<Places.Site>) | Exit

  /** What the session knows of the site catalogue: the URL of each state's page, keyed by the
      lower-cased state name, and the sites listed on a state page. */
  datatype Catalog = Catalog(stateUrls: map<string, string>, sitesFor: string -> seq<Places.Site>)

  /** One step of the menu: the next mode and, when a site was chosen, that site. */
  datatype Transition = Transition(next: Mode, request: Option<Places.Site>)

  /** A site whose postal code can be searched around. */
  predicate HasLocation(site: Places.Site)
  {
    site.zipcode != Places.NoZipcode && site.zipcode != ""
  }

  /** An input that chooses a site of a listing of `count` sites, counting from one. */
  predicate IsSelection(input: string, count: nat)
  {
    IsDigits(input) && 1 <= DigitsValue(input) <= count
  }

  /** The menu's response to one line of input. */
  function Step(mode: Mode, input: string, catalog: Catalog): (t: Transition)
    ensures t.request.Some? ==> mode.PickSite? && t.next == mode
                                && t.request.value in mode.sites && HasLocation(t.request.value)
    ensures mode.Exit? ==> t == Transition(Exit, None)
  {
    match mode
    case PickState =>
      var name := Lower(input);
      if name == "exit" then Transition(Exit, None)
      else if name !in catalog.stateUrls then Transition(PickState, None)
      else Transition(PickSite(catalog.sitesFor(catalog.stateUrls[name])), None)
    case PickSite(sites) =>
      if input == "exit" then Transition(Exit, None)
      else if input == "back" then Transition(PickState, None)
      else if !IsDigits(input) || DigitsValue(input) <= 0 || DigitsValue(input) > |sites| then
        Transition(mode, None)
      else
        var site := sites[DigitsValue(input) - 1];
        if site.zipcode == Places.NoZipcode || site.zipcode == "" then Transition(mode, None)
        else Transition(mode, Some(site))
    case Exit => Transition(Exit, None)
  }

  /** Choosing a state ignores the case of the input. */
  lemma PickStateIgnoresCase(input: string, catalog: Catalog)
    ensures Step(PickState, input, catalog) == Step(PickState, Lower(input), catalog)
  {
    LowerIdempotent(input);
  }

  /** In the state menu, "exit" in any case ends the session, an unknown state name keeps the
      menu where it is, and a known one lists that state's sites; no request is issued. */
  lemma PickStateOutcomes(input: string, catalog: Catalog)
    ensures Step(PickState, input, catalog).request == None
    ensures Lower(input) == "exit" ==> Step(PickState, input, catalog).next == Exit
    ensures Lower(input) != "exit" && Lower(input) !in catalog.stateUrls
            ==> Step(PickState, input, catalog).next == PickState
    ensures Lower(input) != "exit" && Lower(input) in catalog.stateUrls
            ==> Step(PickState, input, catalog).next == PickSite(catalog.sitesFor(catalog.stateUrls[Lower(input)]))
  {
  }

  /** In the site menu, "back" returns to the state menu and "exit" ends the session. */
  lemma PickSiteBackAndExit(sites: seq<Places.Site>, catalog: Catalog)
    ensures Step(PickSite(sites), "back", catalog) == Transition(PickState, None)
    ensures Step(PickSite(sites), "exit", catalog) == Transition(Exit, None)
  {
  }

  /** The site menu does not lower-case its input: "EXIT" is an invalid choice, not an exit. */
  lemma PickSiteIsCaseSensitive(sites: seq<Places.Site>, catalog: Catalog)
    ensures Step(PickSite(sites), "EXIT", catalog) == Transition(PickSite(sites), None)
  {
  }

  /** In the site menu, a request is issued exactly for an input that chooses a listed site
      with a usable postal code, and it is for that site; every other input other than "back"
      and "exit" keeps the menu where it is without a request. */
  lemma PickSiteOutcomes(sites: seq<Places.Site>, input: string, catalog: Catalog)
    requires input != "back" && input != "exit"
    ensures var t := Step(PickSite(sites), input, catalog);
            && t.next == PickSite(sites)
            && (t.request.Some? <==> IsSelection(input, |sites|) && HasLocation(sites[DigitsValue(input) - 1]))
            && (t.request.Some? ==> t.request.value == sites[DigitsValue(input) - 1])
  {
  }

  /** The outcome of a run of the menu: its final mode and the sites whose nearby places were
      requested, in order. */
  datatype Outcome = Outcome(final: Mode, requested: seq<Places.Site>)

  /** The menu run over a sequence of input lines, until it exits or the input runs out. */
  function Run(mode: Mode, inputs: seq<string>, catalog: Catalog): (o: Outcome)
    ensures forall i :: 0 <= i < |o.requested| ==> HasLocation(o.requested[i])
    ensures |o.requested| <= |inputs|
    ensures mode.Exit? ==> o == Outcome(Exit, [])
    decreases |inputs|
  {
    if mode.Exit? || inputs == [] then Outcome(mode, [])
    else
      var t := Step(mode, inputs[0], catalog);
      var rest := Run(t.next, inputs[1..], catalog);
      Outcome(rest.final, Chosen(t) + rest.requested)
  }

  /** With three sites listed, the choice "5" keeps the site menu and issues no request. */
  lemma OutOfRangeChoice(sites: seq<Places.Site>, catalog: Catalog)
    requires |sites| == 3
    ensures Step(PickSite(sites), "5", catalog) == Transition(PickSite(sites), None)
  {
  }

  /** Choosing Michigan and then its only site, whose postal code is 49931, issues exactly one
      request, for that site, and leaves the session in the site menu. */
  lemma MichiganScenario(catalog: Catalog, site: Places.Site)
    requires "michigan" in catalog.stateUrls
    requires catalog.sitesFor(catalog.stateUrls["michigan"]) == [site]
    requires site.zipcode == "49931"
    ensures Run(PickState, ["Michigan", "1"], catalog) == Outcome(PickSite([site]), [site])
  {
    LowerMichigan();
    assert DigitsValue("1") == 1 by { assert "1"[..0] == []; }
    assert Step(PickState, "Michigan", catalog) == Transition(PickSite([site]), None);
    assert Step(PickSite([site]), "1", catalog) == Transition(PickSite([site]), Some(site));
    assert ["Michigan", "1"][1..] == ["1"];
    assert ["1"][1..] == [];
  }

  /** Lower-casing "Michigan" gives the catalogue key "michigan". */
  lemma LowerMichigan()
    ensures Lower("Michigan") == "michigan"
  {
  }

  /** The one request of that scenario is cached under the base URL, the origin 49931 and the
      fixed query, with no trace of the API key. */
  lemma MichiganRequestKey(site: Places.Site, apiKey: string)
    requires site.zipcode == "49931"
    ensures Fingerprint.UniqueKey(NearbyBase, NearbyParams(site, apiKey))
            == NearbyBase + "_origin_" + "49931" + FixedQueryText
  {
    NearbyRequestKey(site, apiKey);
  }

  // ---------------------------------------------------------------------------
  // The session loop.

  /** One step of a run that has input left and has not exited. */
  lemma RunUnfold(mode: Mode, inputs: seq<string>, catalog: Catalog)
    requires !mode.Exit? && inputs != []
    ensures var t := Step(mode, inputs[0], catalog);
            var o := Run(t.next, inputs[1..], catalog);
            Run(mode, inputs, catalog) == Outcome(o.final, Chosen(t) + o.requested)
  {
  }

  /** The sites a transition requests: its chosen site, if any. */
  function Chosen(t: Transition): (sites: seq<Places.Site>)
    ensures t.request.None? ==> sites == []
    ensures t.request.Some? ==> sites == [t.request.value]
  {
    if t.request.Some? then [t.request.value] else []
  }

  /** One turn of the session loop in terms of `Run`: consuming input `i` in `mode` moves the
      rest of the run to the next mode and adds the chosen site to the requests so far. */
  lemma RunStep(whole: Outcome, mode: Mode, inputs: seq<string>, i: nat, done: seq<Places.Site>, catalog: Catalog)
    requires i < |inputs| && !mode.Exit?
    requires whole.final == Run(mode, inputs[i..], catalog).final
    requires whole.requested == done + Run(mode, inputs[i..], catalog).requested
    ensures var t := Step(mode, inputs[i], catalog);
            && whole.final == Run(t.next, inputs[i + 1..], catalog).final
            && whole.requested == (done + Chosen(t)) + Run(t.next, inputs[i + 1..], catalog).requested
  {
    var rest := inputs[i..];
    assert rest[0] == inputs[i] && rest[1..] == inputs[i + 1..];
    RunUnfold(mode, rest, catalog);
    var t := Step(mode, inputs[i], catalog);
    Sequences.Assoc(done, Chosen(t), Run(t.next, inputs[i + 1..], catalog).requested);
  }

  /** A run that has exited or has no input left does nothing more. */
  lemma RunStops(mode: Mode, inputs: seq<string>, catalog: Catalog)
    requires mode.Exit? || inputs == []
    ensures Run(mode, inputs, catalog) == Outcome(mode, [])
  {
  }

  /** Requesting one more site adds the key of that site. */
  lemma RequestedKeysSnoc(sites: seq<Places.Site>, site: Places.Site)
    ensures RequestedKeys(sites + [site]) == RequestedKeys(sites) + {NearbyKey(site.zipcode)}
  {
  }

  /** The cache keys of the nearby-places requests for `sites`. */
  function RequestedKeys(sites: seq<Places.Site>): set<string>
  {
    set s | s in sites :: NearbyKey(s.zipcode)
  }

  /** Every entry of `entries` that `start` lacks is the API result of the nearby-places
      request of one of `sites`, stored under that request's key. */
  predicate NewEntriesRequested(entries: map<string, Cache.Payload>, start: map<string, Cache.Payload>,
                                sites: seq<Places.Site>, apiKey: string,
                                callApi: (string, seq<Fingerprint.Param>) -> seq<Places.PlaceRecord>)
  {
    forall k :: k in entries && k !in start ==>
      exists s :: s in sites && k == NearbyKey(s.zipcode)
               && entries[k] == Cache.ApiResult(callApi(NearbyBase, NearbyParams(s, apiKey)))
  }

  /** A get-or-fetch of the nearby-places request of `site` keeps `NewEntriesRequested`, with
      `site` added to the requested sites. */
  lemma NewEntryRequested(before: map<string, Cache.Payload>, after: map<string, Cache.Payload>,
                          start: map<string, Cache.Payload>, done: seq<Places.Site>, site: Places.Site,
                          apiKey: string, callApi: (string, seq<Fingerprint.Param>) -> seq<Places.PlaceRecord>)
    requires NewEntriesRequested(before, start, done, apiKey, callApi)
    requires after == Cache.GetOrFetch(before, NearbyKey(site.zipcode),
                                       Cache.ApiResult(callApi(NearbyBase, NearbyParams(site, apiKey)))).store
    ensures NewEntriesRequested(after, start, done + [site], apiKey, callApi)
  {
    forall k | k in after && k !in start
      ensures exists s :: s in done + [site] && k == NearbyKey(s.zipcode)
                       && after[k] == Cache.ApiResult(callApi(NearbyBase, NearbyParams(s, apiKey)))
    {
      if k in before {
        var s :| s in done && k == NearbyKey(s.zipcode)
                 && before[k] == Cache.ApiResult(callApi(NearbyBase, NearbyParams(s, apiKey)));
        assert s in done + [site];
      } else {
        assert site in done + [site];
      }
    }
  }

  /** What the session loop knows of the cache after serving the requests for `done`: the
      entries of `start` are kept as they were, the new keys are exactly those of `done`, and
      each new entry is the result of one of those requests. */
  predicate ServedEntries(entries: map<string, Cache.Payload>, start: map<string, Cache.Payload>,
                          done: seq<Places.Site>, apiKey: string,
                          callApi: (string, seq<Fingerprint.Param>) -> seq<Places.PlaceRecord>)
  {
    && (forall k :: k in start ==> k in entries && entries[k] == start[k])
    && entries.Keys == start.Keys + RequestedKeys(done)
    && NewEntriesRequested(entries, start, done, apiKey, callApi)
  }

  /** A get-or-fetch for `site` keeps the entries of `start` and adds that site's key. */
  lemma KeptAndAdded(before: map<string, Cache.Payload>, after: map<string, Cache.Payload>,
                     start: map<string, Cache.Payload>, done: seq<Places.Site>, site: Places.Site,
                     response: Cache.Payload)
    requires forall k :: k in start ==> k in before && before[k] == start[k]
    requires before.Keys == start.Keys + RequestedKeys(done)
    requires after == Cache.GetOrFetch(before, NearbyKey(site.zipcode), response).store
    ensures forall k :: k in start ==> k in after && after[k] == start[k]
    ensures after.Keys == start.Keys + RequestedKeys(done + [site])
  {
    RequestedKeysSnoc(done, site);
  }

  /** Serving one transition keeps `ServedEntries`, with its requested site, if any, added. */
  lemma ServedStep(start: map<string, Cache.Payload>, before: map<string, Cache.Payload>,
                   after: map<string, Cache.Payload>, done: seq<Places.Site>, t: Transition,
                   apiKey: string, callApi: (string, seq<Fingerprint.Param>) -> seq<Places.PlaceRecord>)
    requires ServedEntries(before, start, done, apiKey, callApi)
    requires t.request.None? ==> after == before
    requires t.request.Some? ==>
               after == Cache.GetOrFetch(before, NearbyKey(t.request.value.zipcode),
                                         Cache.ApiResult(callApi(NearbyBase, NearbyParams(t.request.value, apiKey)))).store
    ensures ServedEntries(after, start, done + Chosen(t), apiKey, callApi)
  {
    if t.request.Some? {
      var site := t.request.value;
      NewEntryRequested(before, after, start, done, site, apiKey, callApi);
      KeptAndAdded(before, after, start, done, site, Cache.ApiResult(callApi(NearbyBase, NearbyParams(site, apiKey))));
    } else {
      assert done + [] == done;
    }
  }

  /** Answers one line of input: the menu's transition, and, when it chooses a site, that
      site's nearby-places request through `cache`. */
  method ServeInput(mode: Mode, input: string, catalog: Catalog, apiKey: string, cache: Cache.RequestCache,
                    callApi: (string, seq<Fingerprint.Param>) -> seq<Places.PlaceRecord>)
    returns (t: Transition)
    requires cache.Valid()
    modifies cache
    ensures cache.Valid()
    ensures t == Step(mode, input, catalog)
    ensures t.request.None? ==> cache.entries == old(cache.entries) && cache.requests == old(cache.requests)
                                && cache.durable == old(cache.durable)
    ensures t.request.Some? ==>
              var l := Cache.GetOrFetch(old(cache.entries), NearbyKey(t.request.value.zipcode),
                                        Cache.ApiResult(callApi(NearbyBase, NearbyParams(t.request.value, apiKey))));
              && cache.entries == l.store
              && cache.requests == old(cache.requests)
                                   + (if l.fetched then [Cache.ApiGet(NearbyBase, NearbyParams(t.request.value, apiKey))] else [])
              && cache.durable == (if l.fetched then Some(cache.entries) else old(cache.durable))
  {
    t := Step(mode, input, catalog);
    if t.request.Some? {
      var _ := GetNearbyPlaces(t.request.value, apiKey, cache, callApi);
    }
  }

  /** Runs the menu over `inputs`, issuing the nearby-places request of every chosen site
      through `cache`. Afterwards the cache keeps its old entries unchanged and its keys become
      the old keys plus the keys of the requested sites; each new entry is the API result of one
      of those requests, and exactly one network request was made per new key. */
  method RunSession(inputs: seq<string>, catalog: Catalog, apiKey: string, cache: Cache.RequestCache,
                    callApi: (string, seq<Fingerprint.Param>) -> seq<Places.PlaceRecord>)
    returns (mode: Mode)
    requires cache.Valid()
    modifies cache
    ensures cache.Valid()
    ensures mode == Run(PickState, inputs, catalog).final
    ensures forall k :: k in old(cache.entries) ==> k in cache.entries && cache.entries[k] == old(cache.entries)[k]
    ensures cache.entries.Keys == old(cache.entries.Keys) + RequestedKeys(Run(PickState, inputs, catalog).requested)
    ensures |cache.requests| <= |old(cache.requests)| + |Run(PickState, inputs, catalog).requested|
    ensures |cache.requests| - |old(cache.requests)| == |cache.entries| - |old(cache.entries)|
    ensures NewEntriesRequested(cache.entries, old(cache.entries), Run(PickState, inputs, catalog).requested, apiKey, callApi)
  {
    mode := PickState;
    var i := 0;
    ghost var done: seq<Places.Site> := [];
    while i < |inputs| && !mode.Exit?
      invariant 0 <= i <= |inputs|
      invariant cache.Valid()
      invariant Run(PickState, inputs, catalog).final == Run(mode, inputs[i..], catalog).final
      invariant Run(PickState, inputs, catalog).requested == done + Run(mode, inputs[i..], catalog).requested
      invariant |cache.requests| <= |old(cache.requests)| + |done|
      invariant |cache.requests| - |old(cache.requests)| == |cache.entries| - |old(cache.entries)|
      invariant ServedEntries(cache.entries, old(cache.entries), done, apiKey, callApi)
    {
      ghost var before := cache.entries;
      RunStep(Run(PickState, inputs, catalog), mode, inputs, i, done, catalog);
      var t := ServeInput(mode, inputs[i], catalog, apiKey, cache, callApi);
      ServedStep(old(cache.entries), before, cache.entries, done, t, apiKey, callApi);
      done := done + Chosen(t);
      mode := t.next;
      i := i + 1;
    }
    RunStops(mode, inputs[i..], catalog);
    assert done + [] == done;
  }
}
