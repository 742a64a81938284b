/** The two structural checks that decide whether a downloaded or cached
    payload is usable, written with JavaScript's truthiness and `typeof`
    exactly as the app writes them. */
module Validators {
  import opened JsonValues

  /** A property that is truthy and of `typeof 'object'`: a plain object or
      an array. */
  predicate IsTruthyObject(v: Json) {
    Truthy(v) && IsObjectType(v)
  }

  /** `isValidTopoJson(data)`. */
  function IsValidTopoJson(data: Json): (r: bool)
    ensures r <==>
      data.JObj? && "objects" in data.fields
      && data.fields["objects"].JObj? && "kreise" in data.fields["objects"].fields
      && data.fields["objects"].fields["kreise"].JObj?
      && "geometries" in data.fields["objects"].fields["kreise"].fields
      && data.fields["objects"].fields["kreise"].fields["geometries"].JArr?
      && |data.fields["objects"].fields["kreise"].fields["geometries"].items| > 0
  {
    if !Truthy(data) || !IsObjectType(data) then false
    else
      var objects := Get(data, "objects");
      var kreise := Get(objects, "kreise");
      var geometries := Get(kreise, "geometries");
      IsTruthyObject(objects)
      && IsTruthyObject(kreise)
      && Truthy(geometries) && IsArray(geometries) && |geometries.items| > 0
  }

  /** `isValidIndex(data)`. */
  function IsValidIndex(data: Json): (r: bool)
    ensures r <==>
      data.JObj?
      && "dataVersion" in data.fields && data.fields["dataVersion"].JStr?
      && data.fields["dataVersion"].s != ""
      && "buildHash" in data.fields && data.fields["buildHash"].JStr?
      && data.fields["buildHash"].s != ""
      && "codeToIds" in data.fields
      && (data.fields["codeToIds"].JObj? || data.fields["codeToIds"].JArr?)
      && "features" in data.fields
      && (data.fields["features"].JObj? || data.fields["features"].JArr?)
  {
    if !Truthy(data) || !IsObjectType(data) then false
    else
      var dataVersion := Get(data, "dataVersion");
      var buildHash := Get(data, "buildHash");
      Truthy(dataVersion) && IsString(dataVersion)
      && Truthy(buildHash) && IsString(buildHash)
      && IsTruthyObject(Get(data, "codeToIds"))
      && IsTruthyObject(Get(data, "features"))
  }

  /** Neither check accepts anything but a plain object. */
  lemma ValidatorsRejectNonObjects(v: Json)
    requires !v.JObj?
    ensures !IsValidTopoJson(v) && !IsValidIndex(v)
  {
  }

  /** The top-level `type` of a TopoJSON payload is never looked at. */
  lemma TopoTypeIgnored(fields: map<string, Json>, t: Json)
    ensures IsValidTopoJson(JObj(fields["type" := t])) == IsValidTopoJson(JObj(fields))
  {
    var g := fields["type" := t];
    assert "objects" in g <==> "objects" in fields;
    assert "objects" in fields ==> g["objects"] == fields["objects"];
  }

  /** Only the kind of `codeToIds` and `features` matters, not what they
      hold: swapping in empty objects keeps the verdict. */
  lemma IndexContentsIgnored(fields: map<string, Json>, c: map<string, Json>, f: map<string, Json>)
    requires "codeToIds" in fields && fields["codeToIds"].JObj?
    requires "features" in fields && fields["features"].JObj?
    ensures IsValidIndex(JObj(fields["codeToIds" := JObj(c)]["features" := JObj(f)]))
         == IsValidIndex(JObj(fields))
  {
    var g := fields["codeToIds" := JObj(c)]["features" := JObj(f)];
    assert forall k :: k != "codeToIds" && k != "features" ==> (k in g <==> k in fields);
    assert forall k :: k != "codeToIds" && k != "features" && k in fields ==> g[k] == fields[k];
  }

  /** An empty geometry collection is no map. */
  lemma EmptyGeometriesRejected(rest: map<string, Json>)
    ensures !IsValidTopoJson(JObj(rest["objects" := JObj(map["kreise" := JObj(map["geometries" := JArr([])])])]))
  {
  }

  /** A `dataVersion` that is empty or not a string is rejected. */
  lemma IndexNeedsStringVersion(fields: map<string, Json>, v: Json)
    requires !(v.JStr? && v.s != "")
    ensures !IsValidIndex(JObj(fields["dataVersion" := v]))
  {
  }
}

/** The loaders that turn an HTTP response into a validated payload or a
    thrown `Error`. The network is the function `network` from request to
    outcome; what it returns for a given request is left open. */
module Loaders {
  import opened Wrappers
  import opened Text
  import opened JsonValues
  import opened Validators

  /** The `RequestInit` a caller may pass: each field is present or not. */
  datatype RequestOptions = RequestOptions(cache: Option<string>, headers: Option<map<string, Json>>)

  /** The request actually handed to `fetch`. */
  datatype Request = Request(url: string, cache: string, headers: Option<map<string, Json>>)

  datatype Response = Response(ok: bool, status: int, statusText: string, body: Result<Json, string>)

  /** A rejected `fetch` (network failure) or a response. `body` is the
      outcome of `response.json()`: a value or a parse failure. */
  datatype FetchOutcome =
    | Rejected(reason: string)
    | Responded(response: Response)

  /** A thrown `Error` and its message. */
  datatype Failure = Failure(message: string)

  type Network = Request -> FetchOutcome

  /** `{ cache: default, ...options }`: a `cache` the caller passes wins. */
  function MergeOptions(url: string, defaultCache: string, options: Option<RequestOptions>): (q: Request)
    ensures q.url == url
    ensures q.cache == (if options.Some? && options.value.cache.Some? then options.value.cache.value else defaultCache)
    ensures q.headers == (if options.Some? then options.value.headers else None)
  {
    match options
    case None => Request(url, defaultCache, None)
    case Some(o) => Request(url, o.cache.GetOr(defaultCache), o.headers)
  }

  function IndexRequest(url: string, options: Option<RequestOptions>): (q: Request)
    ensures q.url == url
    ensures options.None? || options.value.cache.None? ==> q.cache == "no-cache"
    ensures options.Some? && options.value.cache.Some? ==> q.cache == options.value.cache.value
    ensures options.Some? ==> q.headers == options.value.headers
  {
    MergeOptions(url, "no-cache", options)
  }

  function TopoRequest(url: string, options: Option<RequestOptions>): (q: Request)
    ensures q.url == url
    ensures options.None? || options.value.cache.None? ==> q.cache == "default"
    ensures options.Some? && options.value.cache.Some? ==> q.cache == options.value.cache.value
    ensures options.Some? ==> q.headers == options.value.headers
  {
    MergeOptions(url, "default", options)
  }

  /** Status check, then parse, then validate. */
  function LoadChecked(outcome: FetchOutcome, statusPrefix: string, valid: Json -> bool, invalidMessage: string)
    : (r: Result<Json, Failure>)
    ensures r.Ok? <==> outcome.Responded? && outcome.response.ok && outcome.response.body.Ok?
                         && valid(outcome.response.body.value)
    ensures r.Ok? ==> r.value == outcome.response.body.value
    ensures outcome.Rejected? ==> r == Err(Failure(outcome.reason))
    ensures outcome.Responded? && !outcome.response.ok ==>
      r == Err(Failure(statusPrefix + IntToString(outcome.response.status) + " " + outcome.response.statusText))
    ensures outcome.Responded? && outcome.response.ok && outcome.response.body.Err? ==>
      r == Err(Failure(outcome.response.body.error))
    ensures (outcome.Responded? && outcome.response.ok && outcome.response.body.Ok?
             && !valid(outcome.response.body.value)) ==> r == Err(Failure(invalidMessage))
  {
    match outcome
    case Rejected(reason) => Err(Failure(reason))
    case Responded(response) =>
      if !response.ok then
        Err(Failure(statusPrefix + IntToString(response.status) + " " + response.statusText))
      else
        match response.body
        case Err(e) => Err(Failure(e))
        case Ok(data) => if !valid(data) then Err(Failure(invalidMessage)) else Ok(data)
  }

  /** `loadIndexData(url, options)`. */
  function LoadIndexData(url: string, options: Option<RequestOptions>, network: Network)
    : (r: Result<Json, Failure>)
    ensures r.Ok? ==> IsValidIndex(r.value)
    ensures var o := network(IndexRequest(url, options));
      r.Ok? <==> o.Responded? && o.response.ok && o.response.body.Ok? && IsValidIndex(o.response.body.value)
    ensures var o := network(IndexRequest(url, options));
      r.Ok? ==> r.value == o.response.body.value
    ensures var o := network(IndexRequest(url, options));
      o.Rejected? ==> r == Err(Failure(o.reason))
    ensures var o := network(IndexRequest(url, options));
      o.Responded? && !o.response.ok ==>
        r == Err(Failure("Failed to fetch index: " + IntToString(o.response.status) + " " + o.response.statusText))
    ensures var o := network(IndexRequest(url, options));
      o.Responded? && o.response.ok && o.response.body.Err? ==> r == Err(Failure(o.response.body.error))
    ensures var o := network(IndexRequest(url, options));
      o.Responded? && o.response.ok && o.response.body.Ok? && !IsValidIndex(o.response.body.value) ==>
        r == Err(Failure("Invalid index data structure"))
  {
    LoadChecked(network(IndexRequest(url, options)), "Failed to fetch index: ", IsValidIndex,
      "Invalid index data structure")
  }

  /** `loadTopoData(url, options)`. */
  function LoadTopoData(url: string, options: Option<RequestOptions>, network: Network)
    : (r: Result<Json, Failure>)
    ensures r.Ok? ==> IsValidTopoJson(r.value)
    ensures var o := network(TopoRequest(url, options));
      r.Ok? <==> o.Responded? && o.response.ok && o.response.body.Ok? && IsValidTopoJson(o.response.body.value)
    ensures var o := network(TopoRequest(url, options));
      r.Ok? ==> r.value == o.response.body.value
    ensures var o := network(TopoRequest(url, options));
      o.Rejected? ==> r == Err(Failure(o.reason))
    ensures var o := network(TopoRequest(url, options));
      o.Responded? && !o.response.ok ==>
        r == Err(Failure("Failed to fetch TopoJSON: " + IntToString(o.response.status) + " " + o.response.statusText))
    ensures var o := network(TopoRequest(url, options));
      o.Responded? && o.response.ok && o.response.body.Err? ==> r == Err(Failure(o.response.body.error))
    ensures var o := network(TopoRequest(url, options));
      o.Responded? && o.response.ok && o.response.body.Ok? && !IsValidTopoJson(o.response.body.value) ==>
        r == Err(Failure("Invalid or empty TopoJSON data"))
  {
    LoadChecked(network(TopoRequest(url, options)), "Failed to fetch TopoJSON: ", IsValidTopoJson,
      "Invalid or empty TopoJSON data")
  }

  /** A 404 is reported with its status line, whatever the body. */
  lemma IndexNotFoundExample(url: string, body: Result<Json, string>, network: Network)
    requires network(IndexRequest(url, None)) == Responded(Response(false, 404, "Not Found", body))
    ensures LoadIndexData(url, None, network) == Err(Failure("Failed to fetch index: 404 Not Found"))
  {
    Status404();
    var outcome := network(IndexRequest(url, None));
    assert LoadIndexData(url, None, network)
        == Err(Failure("Failed to fetch index: " + IntToString(404) + " " + "Not Found"));
    assert "Failed to fetch index: " + "404" + " " + "Not Found" == "Failed to fetch index: 404 Not Found";
  }

  lemma Status404()
    ensures IntToString(404) == "404"
  {
    assert NatToString(4) == ['4'];
    assert NatToString(40) == ['4', '0'];
    assert NatToString(404) == ['4', '0', '4'];
  }

  /** A caller's `cache` overrides the default, and headers are passed on
      as given. */
  lemma CallerCacheWins(url: string, c: string, h: map<string, Json>)
    ensures IndexRequest(url, Some(RequestOptions(Some(c), Some(h)))) == Request(url, c, Some(h))
    ensures TopoRequest(url, Some(RequestOptions(Some(c), None))) == Request(url, c, None)
  {
  }
}
