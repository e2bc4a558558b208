/** The request logic of pywhids/client.py: building API routes, deciding what a
    manager response means, and flattening the artifact listing. The HTTP
    session itself is a parameter: a method receives the response the manager
    sent back and returns the route and the query it asked for. */
module ApiClient {
  import opened Wrappers
  import opened Text
  import opened Artifacts

  /** `n` slashes. */
  function Slashes(n: nat): (s: string)
    ensures |s| == n && forall i :: 0 <= i < n ==> s[i] == '/'
  {
    seq(n, i => '/')
  }

  /** `Client._api_route` for the client's URL `url`. */
  function ApiRoute(url: string, path: string): (r: string)
    ensures var k := |RStrip(url, '/')|;
      && k < |r| && r[k] == '/'
      && StartsWith(url, r[..k]) && (forall i :: k <= i < |url| ==> url[i] == '/')
      && EndsWith(path, r[k + 1..]) && (forall i :: 0 <= i < |path| - (|r| - k - 1) ==> path[i] == '/')
      && (k + 1 < |r| ==> r[k + 1] != '/')
      && (k > 0 ==> r[k - 1] != '/')
  {
    var surl := RStrip(url, '/');
    var spath := LStrip(path, '/');
    var r := surl + "/" + spath;
    assert r[..|surl|] == surl && r[|surl| + 1..] == spath;
    assert url[..|surl|] == surl;
    assert path[|path| - |spath|..] == spath;
    r
  }

  lemma {:induction false} RStripSlashes(url: string, n: nat)
    ensures RStrip(url + Slashes(n), '/') == RStrip(url, '/')
  {
    if n > 0 {
      var s := url + Slashes(n);
      assert s[|s| - 1] == '/';
      assert s[..|s| - 1] == url + Slashes(n - 1);
      RStripSlashes(url, n - 1);
    } else {
      assert url + Slashes(n) == url;
    }
  }

  lemma {:induction false} LStripSlashes(path: string, n: nat)
    ensures LStrip(Slashes(n) + path, '/') == LStrip(path, '/')
  {
    if n > 0 {
      var s := Slashes(n) + path;
      assert s[0] == '/';
      assert s[1..] == Slashes(n - 1) + path;
      LStripSlashes(path, n - 1);
    } else {
      assert Slashes(n) + path == path;
    }
  }

  /** Extra trailing slashes on the URL and extra leading slashes on the path
      do not change the route. */
  lemma RouteIgnoresExtraSlashes(url: string, path: string, n: nat, m: nat)
    ensures ApiRoute(url + Slashes(n), Slashes(m) + path) == ApiRoute(url, path)
  {
    RStripSlashes(url, n);
    LStripSlashes(path, m);
  }

  /** A URL without a trailing slash and a path without a leading slash are
      joined unchanged. */
  lemma RouteOfCleanParts(url: string, path: string)
    requires url == [] || url[|url| - 1] != '/'
    requires path == [] || path[0] != '/'
    ensures ApiRoute(url, path) == url + "/" + path
  {
  }

  /** The JSON envelope of every manager reply: an `error` text and the `data`. */
  datatype Reply<T> = Reply(error: string, data: T)

  /** An HTTP response: its status code and its decoded body. */
  datatype Response<T> = Response(status: int, body: Reply<T>)

  /** Alternatives of `_request`: `APIError` with the reply's message, or
      `UnexpectedStatusError` with the status code. */
  datatype ClientError = ApiError(message: string) | UnexpectedStatus(code: int)

  /** `Client._request`: the decision taken on the response. */
  function Request<T>(resp: Response<T>): (r: Result<T, ClientError>)
    ensures r.Ok? <==> resp.status == 200 && resp.body.error == []
    ensures r.Ok? ==> r.value == resp.body.data
    ensures resp.status == 200 && resp.body.error != [] ==> r == Err(ApiError(resp.body.error))
    ensures resp.status != 200 ==> r == Err(UnexpectedStatus(resp.status))
  {
    if resp.status == 200 then
      if resp.body.error != "" then Err(ApiError(resp.body.error)) else Ok(resp.body.data)
    else Err(UnexpectedStatus(resp.status))
  }

  /** A `datetime` reduced to its `isoformat(timespec="seconds")` text. */
  datatype DateTime = DateTime(isoSeconds: string)

  /** The `since` argument of `Client.artifacts`: absent, a `datetime`, or any
      other value. */
  datatype Since = NoSince | SinceDate(t: DateTime) | SinceOther

  /** `api_timestamp`. */
  function ApiTimestamp(t: DateTime): (s: string)
    ensures |s| == |t.isoSeconds| + 1 && EndsWith(s, "Z") && StartsWith(s, t.isoSeconds)
  {
    ConcatEnds(t.isoSeconds, "Z");
    t.isoSeconds + "Z"
  }

  /** The query parameters `Client.artifacts` sends. */
  function SinceQuery(since: Since): (q: map<string, string>)
    ensures q.Keys <= {"since"}
    ensures "since" in q <==> since.SinceDate?
    ensures since.SinceDate? ==> q["since"] == ApiTimestamp(since.t)
  {
    if since.SinceDate? then map["since" := ApiTimestamp(since.t)] else map[]
  }

  /** One element of a uuid's list in the artifact listing. */
  datatype ArtifactData = ArtifactData(baseUrl: string, files: seq<FileEntry>)

  /** The `data` of the listing: each endpoint uuid with its list, in the
      order of the reply's keys. */
  type Listing = seq<(string, seq<ArtifactData>)>

  /** The records of one uuid, in list order. */
  function Group(uuid: string, xs: seq<ArtifactData>): (r: seq<EventArtifacts>)
    ensures |r| == |xs|
    ensures forall i :: 0 <= i < |xs| ==> r[i] == EventArtifacts(uuid, xs[i].baseUrl, xs[i].files)
  {
    seq(|xs|, i requires 0 <= i < |xs| => EventArtifacts(uuid, xs[i].baseUrl, xs[i].files))
  }

  /** Reference definition of `Client.artifacts`: the groups one after the other. */
  function Flattened(d: Listing): seq<EventArtifacts>
  {
    if d == [] then [] else Flattened(d[..|d| - 1]) + Group(d[|d| - 1].0, d[|d| - 1].1)
  }

  /** The number of records in the listing. */
  function Total(d: Listing): nat
  {
    if d == [] then 0 else Total(d[..|d| - 1]) + |d[|d| - 1].1|
  }

  /** Flattening a listing made of two parts puts the first part's records
      first. */
  lemma {:induction false} FlattenedAppend(d: Listing, e: Listing)
    ensures Flattened(d + e) == Flattened(d) + Flattened(e)
    decreases |e|
  {
    if e == [] {
      assert d + e == d;
    } else {
      var init, last := e[..|e| - 1], e[|e| - 1];
      assert (d + e)[..|d + e| - 1] == d + init;
      assert e[..|e| - 1] == init;
      FlattenedAppend(d, init);
    }
  }

  /** A one-key listing yields exactly that key's group. */
  lemma FlattenedSingle(uuid: string, xs: seq<ArtifactData>)
    ensures Flattened([(uuid, xs)]) == Group(uuid, xs)
  {
    var d := [(uuid, xs)];
    assert d[..0] == [];
  }

  /** One record per (uuid, entry) pair. */
  lemma {:induction false} FlattenedLength(d: Listing)
    ensures |Flattened(d)| == Total(d)
  {
    if d != [] {
      FlattenedLength(d[..|d| - 1]);
    }
  }

  /** A uuid absent from the listing owns no record. */
  lemma {:induction false} FlattenedUuids(d: Listing, uuid: string)
    requires forall k :: 0 <= k < |d| ==> d[k].0 != uuid
    ensures forall i :: 0 <= i < |Flattened(d)| ==> Flattened(d)[i].uuid != uuid
  {
    if d != [] {
      FlattenedUuids(d[..|d| - 1], uuid);
    }
  }

  /** The inner loop of `Client.artifacts`: one record per entry of a uuid's list. */
  method AppendGroup(out: seq<EventArtifacts>, uuid: string, entries: seq<ArtifactData>) returns (r: seq<EventArtifacts>)
    ensures r == out + Group(uuid, entries)
  {
    r := out;
    var j := 0;
    while j < |entries|
      invariant 0 <= j <= |entries|
      invariant r == out + Group(uuid, entries[..j])
    {
      r := r + [EventArtifacts(uuid, entries[j].baseUrl, entries[j].files)];
      j := j + 1;
    }
    assert entries[..j] == entries;
  }

  /** The outer loop of `Client.artifacts`: the groups of the listing, key by key. */
  method FlattenListing(listing: Listing) returns (out: seq<EventArtifacts>)
    ensures out == Flattened(listing)
  {
    out := [];
    var k := 0;
    while k < |listing|
      invariant 0 <= k <= |listing|
      invariant out == Flattened(listing[..k])
    {
      out := AppendGroup(out, listing[k].0, listing[k].1);
      assert listing[..k + 1][..k] == listing[..k];
      k := k + 1;
    }
    assert listing[..k] == listing;
  }

  /** The session state `Client.__init__` sets up. */
  class Client {
    const url: string
    const key: string
    const verify: bool
    const headers: map<string, string>

    constructor (url: string, key: string, verify: bool)
      ensures this.url == url && this.key == key && this.verify == verify
      ensures headers == map["X-Api-key" := key]
    {
      this.url := url;
      this.key := key;
      this.verify := verify;
      this.headers := map["X-Api-key" := key];
    }

    /** `Client.artifacts`: the route and query of the request it sends, and,
        for the manager's response `resp`, the records it yields. */
    method Artifacts(since: Since, resp: Response<Listing>)
      returns (route: string, query: map<string, string>, r: Result<seq<EventArtifacts>, ClientError>)
      ensures route == ApiRoute(url, "/endpoints/artifacts")
      ensures query == SinceQuery(since)
      ensures r.Err? <==> Request(resp).Err?
      ensures r.Err? ==> r.error == Request(resp).error
      ensures r.Ok? ==> r.value == Flattened(resp.body.data)
    {
      route := ApiRoute(url, "/endpoints/artifacts");
      query := map[];
      if since != NoSince {
        if since.SinceDate? {
          query := map["since" := ApiTimestamp(since.t)];
        }
      }
      var d := Request(resp);
      if d.Err? {
        return route, query, Err(d.error);
      }
      var out := FlattenListing(d.value);
      r := Ok(out);
    }
  }
}
