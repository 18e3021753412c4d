/** The search client: credential checks at construction, the request URL,
    and the classification of what the HTTP exchange produced into a
    response or one of four errors. */
module Search {
  import opened Wrappers
  import Strings
  import Fmt

  newtype byte = b: int | 0 <= b < 256

  /** A response body as read from the wire. */
  type Bytes = seq<byte>

  /** An error produced inside net/http, io or encoding/json; the model only
      carries it along. */
  datatype Cause = Cause(message: string)

  // ---------------------------------------------------------------------
  // The searcher and its constructors
  // ---------------------------------------------------------------------

  /** A non-nil `*http.Client`: either the zero-valued client the plain
      constructor allocates, or one handed in by the caller. */
  datatype HttpClient = DefaultClient | Injected(handle: nat)

  /** The searcher value; its fields are set by a constructor and never
      written again. */
  datatype Searcher = Searcher(client: HttpClient, engineId: string, apiKey: string)
  {
    /** What every constructed searcher satisfies. */
    predicate Valid() {
      apiKey != "" && engineId != ""
    }
  }

  /** Why a constructor panicked. */
  datatype Panic = EmptyApiKey | EmptyEngineId | NilClient

  /** `NewSearcher`: panics on an empty key, then on an empty engine id;
      otherwise keeps both verbatim beside a fresh default client. */
  function NewSearcher(apiKey: string, engineId: string): (r: Result<Searcher, Panic>)
    ensures r.Failure? <==> apiKey == "" || engineId == ""
    ensures r.Failure? ==> r.error == (if apiKey == "" then EmptyApiKey else EmptyEngineId)
    ensures r.Success? ==> r.value.Valid()
    ensures r.Success? ==> r.value == Searcher(DefaultClient, engineId, apiKey)
  {
    if apiKey == "" then Failure(EmptyApiKey)
    else if engineId == "" then Failure(EmptyEngineId)
    else Success(Searcher(DefaultClient, engineId, apiKey))
  }

  /** `NewSearcherWithClient`: the same two checks, then a nil client panics;
      otherwise client, key and engine id are kept verbatim. */
  function NewSearcherWithClient(client: Option<HttpClient>, apiKey: string, engineId: string): (r: Result<Searcher, Panic>)
    ensures r.Failure? <==> apiKey == "" || engineId == "" || client.None?
    ensures r.Failure? ==> r.error == (if apiKey == "" then EmptyApiKey
                                       else if engineId == "" then EmptyEngineId
                                       else NilClient)
    ensures r.Success? ==> r.value.Valid()
    ensures r.Success? ==> r.value.client == client.value && r.value.apiKey == apiKey && r.value.engineId == engineId
  {
    if apiKey == "" then Failure(EmptyApiKey)
    else if engineId == "" then Failure(EmptyEngineId)
    else if client.None? then Failure(NilClient)
    else Success(Searcher(client.value, engineId, apiKey))
  }

  /** The plain constructor is the injecting one given the default client:
      same panics in the same order, same searcher otherwise. */
  lemma NewSearcherIsWithDefaultClient(apiKey: string, engineId: string)
    ensures NewSearcher(apiKey, engineId) == NewSearcherWithClient(Some(DefaultClient), apiKey, engineId)
  {
  }

  // ---------------------------------------------------------------------
  // Query canonicalisation
  // ---------------------------------------------------------------------

  /** `canonicalizeQuery`: each space becomes `+`; nothing is percent-encoded. */
  function CanonicalizeQuery(query: string): (r: string)
    ensures |r| == |query|
    ensures forall i :: 0 <= i < |query| ==> r[i] == (if query[i] == ' ' then '+' else query[i])
    ensures ' ' !in r
  {
    Strings.ReplaceAll(query, ' ', '+')
  }

  /** Canonicalising a canonical query changes nothing. */
  lemma CanonicalizeIdempotent(query: string)
    ensures CanonicalizeQuery(CanonicalizeQuery(query)) == CanonicalizeQuery(query)
  {
  }

  /** A query is returned unchanged exactly when it has no space; `""` is one. */
  lemma CanonicalizeFixedIff(query: string)
    ensures CanonicalizeQuery(query) == query <==> ' ' !in query
  {
  }

  /** Space and `+` are indistinguishable after canonicalisation. */
  predicate SameUpToSpace(x: char, y: char) {
    x == y || ((x == ' ' || x == '+') && (y == ' ' || y == '+'))
  }

  /** Two queries canonicalise alike exactly when they have the same length
      and differ only by spaces standing where the other has `+`. */
  lemma CanonicalizeCollidesIff(a: string, b: string)
    ensures CanonicalizeQuery(a) == CanonicalizeQuery(b) <==>
            |a| == |b| && forall i :: 0 <= i < |a| ==> SameUpToSpace(a[i], b[i])
  {
  }

  /** Worked cases: runs of spaces, a query without spaces, the empty query,
      and a space colliding with a literal `+`. */
  lemma CanonicalizeExamples()
    ensures CanonicalizeQuery("a b  c") == "a+b++c"
    ensures CanonicalizeQuery("no-spaces") == "no-spaces"
    ensures CanonicalizeQuery("") == ""
    ensures CanonicalizeQuery("a b") == CanonicalizeQuery("a+b") == "a+b"
  {
    assert CanonicalizeQuery("a b  c") == "a+b++c" by {
      var q, r := "a b  c", CanonicalizeQuery("a b  c");
      forall i | 0 <= i < 6 ensures r[i] == "a+b++c"[i] {
        assert r[i] == (if q[i] == ' ' then '+' else q[i]);
      }
    }
    assert CanonicalizeQuery("no-spaces") == "no-spaces" by {
      CanonicalizeFixedIff("no-spaces");
    }
    assert CanonicalizeQuery("a+b") == "a+b" by {
      CanonicalizeFixedIff("a+b");
    }
    assert CanonicalizeQuery("a b") == "a+b" by {
      CanonicalizeCollidesIff("a b", "a+b");
      assert SameUpToSpace(' ', '+');
    }
  }

  /** A server that reads `+` back as a space (form decoding) recovers the
      query exactly when the query had no literal `+` of its own. */
  lemma PlusDecodingRecoversIff(query: string)
    ensures Strings.ReplaceAll(CanonicalizeQuery(query), '+', ' ') == query <==> '+' !in query
  {
  }

  // ---------------------------------------------------------------------
  // The request URL
  // ---------------------------------------------------------------------

  /** The endpoint `https://customsearch.googleapis.com/customsearch/v1`: the
      pieces below concatenate to exactly that literal, and are kept short so
      that the verifier can see, character by character, that none is `%`. */
  const Endpoint: string := "https://" + "customsearch" + ".googleapis" + ".com/" + "customsearch" + "/v1"

  /** The format string handed to `fmt.Sprintf`,
      `https://customsearch.googleapis.com/customsearch/v1?key=%s&cx=%s&q=%s`,
      as its literal runs and its three verbs. */
  const UrlTemplate: string := Endpoint + "?key=" + "%s" + "&cx=" + "%s" + "&q=" + "%s"

  /** The URL `Search` requests: the key, the engine id and the canonical
      query substituted into the template, none of them escaped. */
  function RequestUrl(s: Searcher, query: string): (url: string)
    ensures url == Endpoint + "?key=" + s.apiKey + "&cx=" + s.engineId + "&q=" + CanonicalizeQuery(query)
  {
    assert '%' !in "?key=" && '%' !in "&cx=" && '%' !in "&q=";
    UrlLayout(Endpoint + "?key=", "&cx=", "&q=", s.apiKey, s.engineId, CanonicalizeQuery(query));
    Fmt.Sprintf(UrlTemplate, [s.apiKey, s.engineId, CanonicalizeQuery(query)])
  }

  /** Substituting three arguments into a template of three `%`-free runs,
      each followed by a `%s` verb: each argument lands, verbatim, after its run. */
  lemma UrlLayout(head: string, cxPart: string, qPart: string, key: string, cx: string, q: string)
    requires '%' !in head && '%' !in cxPart && '%' !in qPart
    ensures Fmt.Sprintf(head + "%s" + cxPart + "%s" + qPart + "%s", [key, cx, q])
         == head + key + cxPart + cx + qPart + q
  {
    var afterCx := qPart + ("%s" + []);
    var afterKey := cxPart + ("%s" + afterCx);
    calc {
      Fmt.Sprintf(head + "%s" + cxPart + "%s" + qPart + "%s", [key, cx, q]);
      { TemplateShape(head, cxPart, qPart);
        assert [key, cx, q] == [key] + [cx, q]; }
      Fmt.Sprintf(head + ("%s" + afterKey), [key] + [cx, q]);
      { Fmt.SprintfLiteralThenVerb(head, key, afterKey, [cx, q]);
        assert [cx, q] == [cx] + [q]; }
      head + key + Fmt.Sprintf(afterKey, [cx] + [q]);
      { Fmt.SprintfLiteralThenVerb(cxPart, cx, afterCx, [q]);
        assert [q] == [q] + []; }
      head + key + (cxPart + cx + Fmt.Sprintf(afterCx, [q] + []));
      { Fmt.SprintfLiteralThenVerb(qPart, q, [], []); }
      head + key + (cxPart + cx + (qPart + q + Fmt.Sprintf([], [])));
      head + key + cxPart + cx + qPart + q;
    }
  }

  /** The URL template, regrouped as run, verb, then the rest. */
  lemma TemplateShape(head: string, cxPart: string, qPart: string)
    ensures head + "%s" + cxPart + "%s" + qPart + "%s"
         == head + ("%s" + (cxPart + ("%s" + (qPart + ("%s" + [])))))
  {
  }

  /** The query string `Search` sends, split at every `&`: three pieces plus
      one per `&` inside the key, the engine id or the canonical query. */
  lemma {:induction false} QueryStringCount(key: string, cx: string, q: string)
    ensures |Strings.Split("key=" + key + "&cx=" + cx + "&q=" + q, '&')|
         == 3 + Strings.Occurrences(key, '&') + Strings.Occurrences(cx, '&') + Strings.Occurrences(q, '&')
  {
    var a, b, c := "key=" + key, "cx=" + cx, "q=" + q;
    assert "key=" + key + "&cx=" + cx + "&q=" + q == a + ['&'] + (b + ['&'] + c);
    Strings.OccurrencesAppend(a + ['&'], b + ['&'] + c, '&');
    Strings.OccurrencesAppend(a, ['&'], '&');
    Strings.OccurrencesAppend(b + ['&'], c, '&');
    Strings.OccurrencesAppend(b, ['&'], '&');
    Strings.OccurrencesAppend("key=", key, '&');
    Strings.OccurrencesAppend("cx=", cx, '&');
    Strings.OccurrencesAppend("q=", q, '&');
  }

  /** With no `&` inside the key, the engine id or the canonical query, the
      query string splits at `&` into exactly `key=`, `cx=` and `q=` followed
      by the three values. */
  lemma {:induction false} QueryStringPieces(key: string, cx: string, q: string)
    ensures '&' !in key && '&' !in cx && '&' !in q ==>
              Strings.Split("key=" + key + "&cx=" + cx + "&q=" + q, '&') == ["key=" + key, "cx=" + cx, "q=" + q]
  {
    if '&' !in key && '&' !in cx && '&' !in q {
      var a, b, c := "key=" + key, "cx=" + cx, "q=" + q;
      assert "key=" + key + "&cx=" + cx + "&q=" + q == a + ['&'] + (b + ['&'] + c);
      assert '&' !in a && '&' !in b && '&' !in c;
      Strings.SplitAt(a, b + ['&'] + c, '&');
      Strings.SplitAt(b, c, '&');
      Strings.SplitWhole(c, '&');
    }
  }

  /** The request URL is the endpoint, `?`, and a query string that splits at
      `&` into exactly the three parameters when none of the key, the engine
      id and the query holds a `&`; otherwise into more than three. */
  lemma RequestUrlParameters(s: Searcher, query: string)
    ensures RequestUrl(s, query)[..|Endpoint| + 1] == Endpoint + "?"
    ensures var params := Strings.Split(RequestUrl(s, query)[|Endpoint| + 1..], '&');
            && |params| == 3 + Strings.Occurrences(s.apiKey, '&') + Strings.Occurrences(s.engineId, '&')
                             + Strings.Occurrences(query, '&')
            && ('&' !in s.apiKey && '&' !in s.engineId && '&' !in query ==>
                  params == ["key=" + s.apiKey, "cx=" + s.engineId, "q=" + CanonicalizeQuery(query)])
  {
    var q := CanonicalizeQuery(query);
    QueryStringFollows(Endpoint, s.apiKey, s.engineId, q);
    Strings.ReplaceAllKeepsOthers(query, ' ', '+', '&');
    QueryStringCount(s.apiKey, s.engineId, q);
    QueryStringPieces(s.apiKey, s.engineId, q);
  }

  /** The URL splits after the endpoint into `?` and the query string. */
  lemma QueryStringFollows(endpoint: string, key: string, cx: string, q: string)
    ensures var url := endpoint + "?key=" + key + "&cx=" + cx + "&q=" + q;
            && url[..|endpoint| + 1] == endpoint + "?"
            && url[|endpoint| + 1..] == "key=" + key + "&cx=" + cx + "&q=" + q
  {
  }

  /** Nothing is escaped: a key that itself contains `&cx=` yields the same
      URL as a different key and engine id. */
  lemma RequestUrlAmbiguous(query: string)
    ensures RequestUrl(Searcher(DefaultClient, "e", "k&cx=x"), query)
         == RequestUrl(Searcher(DefaultClient, "x&cx=e", "k"), query)
  {
  }

  // ---------------------------------------------------------------------
  // The response schema (decoded by encoding/json, not modelled)
  // ---------------------------------------------------------------------

  datatype UrlInfo = UrlInfo(kind: string, template: string)

  datatype Query = Query(
    title: string, totalResults: string, searchTerms: string, count: int, startIndex: int,
    inputEncoding: string, outputEncoding: string, safe: string, cx: string)

  datatype Queries = Queries(request: seq<Query>, nextPage: seq<Query>)

  datatype SearchContext = SearchContext(title: string)

  /** Search statistics; the floating-point search time is not modelled. */
  datatype SearchInfo = SearchInfo(formattedSearchTime: string, totalResults: string, formattedTotalResults: string)

  /** One pagemap record; an absent field is the empty string. */
  datatype PagemapItem = PagemapItem(
    src: string, width: string, height: string,
    ogImage: string, ogType: string, ogTitle: string, ogDescription: string, ogUrl: string,
    twitterCard: string, twitterTitle: string, twitterDescription: string, twitterImage: string,
    viewport: string)

  datatype SearchItem = SearchItem(
    kind: string, title: string, htmlTitle: string, link: string, displayLink: string,
    snippet: string, htmlSnippet: string, formattedUrl: string, htmlFormattedUrl: string,
    pagemap: map<string, seq<PagemapItem>>, mime: string, fileFormat: string)

  /** A decoded response; `items` keeps the upstream rank order. */
  datatype SearchResponse = SearchResponse(
    kind: string, url: UrlInfo, queries: Queries, context: SearchContext,
    searchInfo: SearchInfo, items: seq<SearchItem>)

  // ---------------------------------------------------------------------
  // The exchange and its outcome
  // ---------------------------------------------------------------------

  /** What `io.ReadAll` returns: the bytes read before it stopped, and the
      error that stopped it, if any (end of stream is not an error). */
  datatype ReadAll = ReadAll(data: Bytes, err: Option<Cause>)

  /** What `client.Get` produced: no response at all, or a status line, the
      advertised content length (-1 when unknown) and what reading the body
      would give. */
  datatype HttpOutcome =
    | TransportFailed(cause: Cause)
    | Responded(status: int, contentLength: int, body: ReadAll)

  /** What `json.Unmarshal` made of a body. */
  datatype DecodeResult = Decoded(response: SearchResponse) | DecodeFailed(cause: Cause)

  /** The four ways a search fails, each with the context the error message
      carries. */
  datatype SearchError =
    | TransportError(cause: Cause)
    | UpstreamError(status: int, body: Bytes)
    | ReadError(contentLength: int, status: int, cause: Cause)
    | DecodeError(body: Bytes, cause: Cause)

  /** The guarded early returns of `Search` after the request was sent. */
  function Respond(resp: HttpOutcome, unmarshal: Bytes -> DecodeResult): (r: Result<SearchResponse, SearchError>)
    // No response: the transport error is passed on and nothing else is consulted.
    ensures (r.Failure? && r.error.TransportError?) <==> resp.TransportFailed?
    ensures resp.TransportFailed? ==> r.error.cause == resp.cause
    // Any status but exactly 200: the status and whatever bytes were read,
    // even if the read failed part way.
    ensures (r.Failure? && r.error.UpstreamError?) <==> resp.Responded? && resp.status != 200
    ensures resp.Responded? && resp.status != 200 ==> r.error.status == resp.status && r.error.body == resp.body.data
    // Status 200, the read failed: content length, status and cause.
    ensures (r.Failure? && r.error.ReadError?) <==> resp.Responded? && resp.status == 200 && resp.body.err.Some?
    ensures (r.Failure? && r.error.ReadError?) ==>
              r.error.status == 200 && r.error.contentLength == resp.contentLength && r.error.cause == resp.body.err.value
    // Status 200, read in full, not decodable: the raw body and the decoder's cause.
    ensures (r.Failure? && r.error.DecodeError?) <==>
              resp.Responded? && resp.status == 200 && resp.body.err.None? && unmarshal(resp.body.data).DecodeFailed?
    ensures (r.Failure? && r.error.DecodeError?) ==>
              r.error.body == resp.body.data && r.error.cause == unmarshal(resp.body.data).cause
    // Otherwise the decoded response, untouched.
    ensures r.Success? <==>
              resp.Responded? && resp.status == 200 && resp.body.err.None? && unmarshal(resp.body.data).Decoded?
    ensures r.Success? ==> r.value == unmarshal(resp.body.data).response
  {
    match resp
    case TransportFailed(cause) => Failure(TransportError(cause))
    case Responded(status, contentLength, body) =>
      if status != 200 then Failure(UpstreamError(status, body.data))
      else if body.err.Some? then Failure(ReadError(contentLength, status, body.err.value))
      else match unmarshal(body.data)
        case DecodeFailed(cause) => Failure(DecodeError(body.data, cause))
        case Decoded(response) => Success(response)
  }

  /** On a non-200 response the read error is dropped: the error carries the
      bytes read before the failure, exactly as if the read had succeeded, and
      an empty body only when nothing was read. */
  lemma NonOkReadFailureKeepsPrefix(status: int, contentLength: int, data: Bytes, err: Option<Cause>,
                                    unmarshal: Bytes -> DecodeResult)
    requires status != 200
    ensures Respond(Responded(status, contentLength, ReadAll(data, err)), unmarshal)
         == Respond(Responded(status, contentLength, ReadAll(data, None)), unmarshal)
         == Failure(UpstreamError(status, data))
  {
  }

  /** The decoder is consulted only for a 200 response read in full. */
  lemma UnmarshalOnlyOnCleanOk(resp: HttpOutcome, u1: Bytes -> DecodeResult, u2: Bytes -> DecodeResult)
    requires !(resp.Responded? && resp.status == 200 && resp.body.err.None?)
    ensures Respond(resp, u1) == Respond(resp, u2)
  {
  }

  /** Success is not conditional on finding anything: a decoded response with
      no items is returned as it is. */
  lemma NoItemsIsSuccess(contentLength: int, data: Bytes, unmarshal: Bytes -> DecodeResult)
    requires unmarshal(data).Decoded? && unmarshal(data).response.items == []
    ensures Respond(Responded(200, contentLength, ReadAll(data, None)), unmarshal) == Success(unmarshal(data).response)
  {
  }

  /** The side effects of a search, in order. */
  datatype Step = Get(url: string) | ReadBody | CloseBody

  /** One call of `Search`: the effects it performed and what it returned. */
  datatype Exchange = Exchange(steps: seq<Step>, result: Result<SearchResponse, SearchError>)

  /** `Search`: one GET of the request URL through the searcher's own client;
      unless the GET itself failed, the body is read once and closed
      (deferred) on every path out. What a client answers for a URL and what
      the JSON decoder makes of a body are the parameters `get` and
      `unmarshal`. */
  function Search(s: Searcher, query: string, get: (HttpClient, string) -> HttpOutcome,
                  unmarshal: Bytes -> DecodeResult): (x: Exchange)
    ensures x.result == Respond(get(s.client, RequestUrl(s, query)), unmarshal)
    ensures get(s.client, RequestUrl(s, query)).TransportFailed? ==> x.steps == [Get(RequestUrl(s, query))]
    ensures get(s.client, RequestUrl(s, query)).Responded? ==>
              x.steps == [Get(RequestUrl(s, query)), ReadBody, CloseBody]
  {
    var url := RequestUrl(s, query);
    var resp := get(s.client, url);
    var steps := if resp.TransportFailed? then [Get(url)] else [Get(url), ReadBody, CloseBody];
    Exchange(steps, Respond(resp, unmarshal))
  }

  /** The client a searcher was built with is the one that carries the
      request: searchers that differ only in their client send the same URL,
      and their results differ only as far as the two clients answer it
      differently. */
  lemma SearchUsesOwnClient(s: Searcher, c: HttpClient, query: string, get: (HttpClient, string) -> HttpOutcome,
                            unmarshal: Bytes -> DecodeResult)
    ensures var t := Searcher(c, s.engineId, s.apiKey);
            && Search(t, query, get, unmarshal).steps[0] == Search(s, query, get, unmarshal).steps[0]
            && (get(c, RequestUrl(s, query)) == get(s.client, RequestUrl(s, query)) ==>
                  Search(t, query, get, unmarshal) == Search(s, query, get, unmarshal))
            && Search(t, query, get, unmarshal).result == Respond(get(c, RequestUrl(s, query)), unmarshal)
  {
  }
}
