/** The request cache: one in-memory map from request keys to response payloads, loaded once,
    written back to durable storage after every insertion, and consulted before every network
    request. Page requests are keyed by their URL, API requests by their `Fingerprint.UniqueKey`. */
module Cache {
  import opened Wrappers
  import Fingerprint
  import Places

  /** A cached response: the text of a fetched page, or the decoded result of an API call
      reduced to its list of result records. */
  datatype Payload = Page(html: string) | ApiResult(searchResults: seq<Places.PlaceRecord>)

  /** A network request, as recorded in the request log. */
  datatype Request = PageGet(url: string) | ApiGet(baseurl: string, params: seq<Fingerprint.Param>)

  /** What a get-or-fetch produces: the value returned, the store afterwards, and whether the
      network was consulted. */
  datatype Lookup = Lookup(value: Payload, store: map<string, Payload>, fetched: bool)

  /** Get-or-fetch over a store: `response` is what the network would answer, and is used only
      when `key` is not yet stored. */
  function GetOrFetch(store: map<string, Payload>, key: string, response: Payload): (r: Lookup)
    ensures r.fetched <==> key !in store
    ensures key in r.store && r.value == r.store[key]
    ensures r.store.Keys == store.Keys + {key}
    ensures forall k :: k in store ==> r.store[k] == store[k]
    ensures r.fetched ==> r.value == response
  {
    if key in store then Lookup(store[key], store, false)
    else Lookup(response, store[key := response], true)
  }

  /** A hit returns the stored value and leaves the store exactly as it was. */
  lemma HitLeavesStore(store: map<string, Payload>, key: string, response: Payload)
    requires key in store
    ensures GetOrFetch(store, key, response) == Lookup(store[key], store, false)
  {
  }

  /** A miss stores the response under the key and returns it; nothing else changes. */
  lemma MissInsertsResponse(store: map<string, Payload>, key: string, response: Payload)
    requires key !in store
    ensures GetOrFetch(store, key, response) == Lookup(response, store[key := response], true)
  {
  }

  /** Two consecutive get-or-fetches of one key consult the network at most once and return the
      same value, whatever the network would answer the second time. */
  lemma GetOrFetchIdempotent(store: map<string, Payload>, key: string, first: Payload, second: Payload)
    ensures var a := GetOrFetch(store, key, first);
            var b := GetOrFetch(a.store, key, second);
            !b.fetched && b.value == a.value && b.store == a.store
  {
  }

  /** The request cache of one process. */
  class RequestCache {
    /** The in-memory store. */
    var entries: map<string, Payload>
    /** The durable copy: `None` while the file is absent or unreadable. */
    ghost var durable: Option<map<string, Payload>>
    /** Every network request made through this cache, in order. */
    ghost var requests: seq<Request>

    /** The durable copy equals the in-memory store, except before the first insertion of a
        process that found no readable file, when the store is still empty. */
    ghost predicate Valid()
      reads this
    {
      durable == Some(entries) || (durable.None? && entries == map[])
    }

    /** Loads the store from durable storage; `stored` is the parsed file, or `None` when the
        file is missing or its content does not decode, in which case the store starts empty. */
    constructor Load(stored: Option<map<string, Payload>>)
      ensures Valid()
      ensures entries == stored.GetOr(map[])
      ensures durable == stored && requests == []
    {
      entries := stored.GetOr(map[]);
      durable := stored;
      requests := [];
    }

    /** Writes the whole store to durable storage. */
    method Save()
      modifies this`durable
      ensures durable == Some(entries)
    {
      durable := Some(entries);
    }

    /** Returns the payload cached under `url`, fetching the page with `fetchPage` and storing
        and persisting its text only when `url` is not cached yet. */
    method GetOrFetchPage(url: string, fetchPage: string -> string) returns (p: Payload)
      requires Valid()
      modifies this
      ensures Valid()
      ensures var l := GetOrFetch(old(entries), url, Page(fetchPage(url)));
              && p == l.value && entries == l.store
              && requests == old(requests) + (if l.fetched then [PageGet(url)] else [])
              && durable == (if l.fetched then Some(entries) else old(durable))
    {
      if url in entries {
        p := entries[url];
      } else {
        var body := fetchPage(url);
        requests := requests + [PageGet(url)];
        entries := entries[url := Page(body)];
        Save();
        p := entries[url];
      }
    }

    /** Returns the payload cached under the key of the API request `(baseurl, params)`, calling
        the API with `callApi` (with every parameter, the credential included) and storing and
        persisting the decoded result only when that key is not cached yet. */
    method GetOrFetchApi(baseurl: string, params: seq<Fingerprint.Param>,
                         callApi: (string, seq<Fingerprint.Param>) -> seq<Places.PlaceRecord>)
      returns (p: Payload)
      requires Valid()
      modifies this
      ensures Valid()
      ensures var key := Fingerprint.UniqueKey(baseurl, params);
              var l := GetOrFetch(old(entries), key, ApiResult(callApi(baseurl, params)));
              && p == l.value && entries == l.store
              && requests == old(requests) + (if l.fetched then [ApiGet(baseurl, params)] else [])
              && durable == (if l.fetched then Some(entries) else old(durable))
    {
      var uniqueKey := Fingerprint.ConstructUniqueKey(baseurl, params);
      if uniqueKey !in entries {
        var results := callApi(baseurl, params);
        requests := requests + [ApiGet(baseurl, params)];
        entries := entries[uniqueKey := ApiResult(results)];
        Save();
      }
      p := entries[uniqueKey];
    }
  }
}
