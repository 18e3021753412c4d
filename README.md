# Search client model

A Dafny model of the core of the `search` package of a small Go client for
Google's Custom Search JSON API. The package builds a `Searcher` from an API
key and a search-engine id (the `cx`), turns a free-text query into a request
URL, sends one HTTP GET and classifies what comes back into a decoded
`SearchResponse` or one of four errors.

The model is purely functional, like the code it follows: `Searcher` is an
immutable value whose fields are set once by a constructor.

- `wrappers.dfy`: `Option` and `Result`, used for Go's nil pointers and
  `(value, error)` returns.
- `strings.dfy`: `strings.ReplaceAll`, the one `strings` function the client
  calls, specialised to one-character patterns. Beside it, `Split` and
  `Occurrences` form a reference reader that cuts a query string at `&`.
- `fmt.dfy`: `fmt.Sprintf` restricted to the `%s` verb with string arguments.
- `search.dfy`: the client. It holds the constructors, `canonicalizeQuery`,
  the request URL and the outcome dispatch of `Search`. It also declares the
  response schema as plain datatypes.

The constructors panic on bad input. Here they return
`Result<Searcher, Panic>`, so that "fails if and only if" can be stated. The
checks run in the source's order: key, then engine id, then client.

`Search` depends on two libraries that are not modelled. The HTTP client
becomes the parameter `get: (HttpClient, string) -> HttpOutcome`. It ties the
response to the searcher's own client and to the URL actually requested. `json.Unmarshal` becomes the parameter
`unmarshal: Bytes -> DecodeResult`. The outcome of `io.ReadAll` is part of
`HttpOutcome`. It is the bytes read before the read stopped, plus an optional
error, which is what Go's `io.ReadAll` returns.

On a non-200 response `Search` discards the read error but keeps the bytes
`io.ReadAll` returned, which are the bytes read before the failure.
`Respond` therefore puts `resp.body.data` into `UpstreamError` whether or not
the read failed. The body is empty only when nothing was read
(`NonOkReadFailureKeepsPrefix`).

## Model

| member | source | states |
|---|---|---|
| `Search.NewSearcher` | search/search.go:17-30 | fails iff the key or the engine id is empty; reports an empty key before an empty engine id; otherwise a valid searcher holding the default client and both strings verbatim |
| `Search.NewSearcherWithClient` | search/search.go:32-47 | fails iff the key or engine id is empty or the client is nil, checked in that order; otherwise a valid searcher holding exactly the given client, key and engine id |
| `Search.NewSearcherIsWithDefaultClient` | search/search.go:17-47 | the plain constructor behaves as the injecting one given the default client, panics included |
| `Strings.ReplaceAll` | search/search.go:87 | one-character `strings.ReplaceAll`: same length; each `from` becomes `to`, every other character is kept in place |
| `Search.CanonicalizeQuery` | search/search.go:83-88 | same length as the query; a space becomes `+`, every other character is unchanged; the result has no space |
| `Search.CanonicalizeIdempotent` | search/search.go:86-88 | canonicalising twice is the same as canonicalising once |
| `Search.CanonicalizeFixedIff` | search/search.go:83-88 | a query comes back unchanged iff it contains no space (so `""` comes back unchanged) |
| `Search.CanonicalizeCollidesIff` | search/search.go:86-88 | two queries canonicalise alike iff they have equal length and differ only where one has a space and the other a `+` |
| `Search.CanonicalizeExamples` | search/search.go:86-88 | `"a b  c"` gives `"a+b++c"`; `"no-spaces"` and `""` are unchanged; `"a b"` and `"a+b"` both give `"a+b"` |
| `Search.PlusDecodingRecoversIff` | search/search.go:86-88 | a reader that turns `+` back into a space recovers the query iff the query had no `+` of its own |
| `Fmt.SprintfLiteral` | search/search.go:51-54 | literal text in front of the rest of the template is copied to the output unchanged |
| `Fmt.SprintfVerb` | search/search.go:51-54 | a `%s` verb is replaced by the next argument, verbatim, and the rest of the template is formatted with the remaining arguments |
| `Fmt.SprintfLiteralThenVerb` | search/search.go:51-54 | a run of `%`-free text followed by `%s` becomes that text followed by the next argument |
| `Search.UrlLayout` | search/search.go:51-54 | substituting three arguments into a template of three `%`-free runs each followed by `%s` (the URL template's shape) puts each argument, verbatim, after its run |
| `Search.RequestUrl` | search/search.go:50-54 | the request URL is the endpoint, `?key=`, the key, `&cx=`, the engine id, `&q=` and the canonical query, all verbatim |
| `Search.QueryStringCount` | search/search.go:52 | splitting the query string at `&` gives three pieces plus one per `&` inside the key, engine id or query |
| `Search.QueryStringPieces` | search/search.go:52 | with no `&` inside the key, engine id or query, splitting the query string at `&` gives exactly `key=`, `cx=` and `q=` followed by the values substituted |
| `Search.RequestUrlParameters` | search/search.go:50-54 | the URL starts with the endpoint and `?`; splitting the rest at `&` gives three pieces plus one per `&` inside the key, engine id or query, and exactly `key=`, `cx=` and `q=` followed by the values substituted when there is none |
| `Search.RequestUrlAmbiguous` | search/search.go:51-54 | the key and engine id are not escaped: two different pairs of credentials can yield the same URL |
| `Search.Respond` | search/search.go:56-80 | a transport failure is a TransportError carrying its cause; a status other than exactly 200 is an UpstreamError carrying the status and the bytes read, even if the read failed; at 200, a read failure is a ReadError carrying the content length, the status 200 and the cause; otherwise a decode failure is a DecodeError carrying the raw body and the cause; otherwise the decoded response is returned unchanged. Each case holds iff its condition does |
| `Search.NonOkReadFailureKeepsPrefix` | search/search.go:62-65 | on a non-200 response the read error is dropped: the UpstreamError carries the status and the bytes read before the failure, as if the read had succeeded; so a read that failed before any byte gives an empty body |
| `Search.UnmarshalOnlyOnCleanOk` | search/search.go:62-76 | the decoder's verdict matters only for a 200 response whose body was read in full |
| `Search.NoItemsIsSuccess` | search/search.go:76-80 | a decoded response with no items is a success, returned as decoded |
| `Search.Search` | search/search.go:49-81 | the result is `Respond` applied to what the searcher's own client answers for `RequestUrl`; after a transport failure the steps are exactly the one GET of that URL; otherwise exactly the GET, one body read and one close, the close last, on every path out |
| `Search.SearchUsesOwnClient` | search/search.go:56 | the request goes through the client stored in the searcher: swapping the client keeps the URL and changes the result only through what the new client answers |

## Left out

- The network. `client.Get` is the parameter `get`. Timeouts, redirects and connection reuse belong to `net/http`.
- Stream I/O. `io.ReadAll` is an input value. `resp.Body.Close` appears only as the `CloseBody` step, and its own error is ignored, as in the source.
- JSON decoding. `json.Unmarshal` and the struct tags are the parameter `unmarshal`. The schema types only have their fields listed. An absent `omitempty` field is the empty string.
- `SearchInfo.SearchTime`: a `float64` field with no logic; the datatype omits it.
- Error message text. `fmt.Errorf` formatting and `%w` wrapping are left out. Each error is a `SearchError` variant carrying the values its message prints.
- Panic message text. `Panic` names which check failed, not the message.
- Search.Search: takes any `Searcher` value, and `HttpClient` has no nil. Go's zero-value `Searcher{}`, whose nil client panics at `schr.client.Get`, cannot be written in the model; only the constructors' searchers, which are never nil-client, are covered.
- URL parsing. The `&`-splitting lemmas describe the URL string only, not what a server reads. `client.Get` parses the URL inside `get`: an unescaped `#` in the key, engine id or query starts a fragment that is never sent, and a `%` starts an escape the server decodes. The model does not capture either.
- Client identity. Each `NewSearcher` call allocates a new zero-valued `http.Client`. The model has a single value, `DefaultClient`, for all of them.
- `Fmt.Sprintf`: only the `%s` verb is modelled, because the URL template uses no other. Other `%` sequences are copied as literal text, which Go does not do. Surplus arguments are ignored, whereas Go would append `%!(EXTRA ...)`.
- Go strings are byte sequences; the model uses `seq<char>`. Space and `+` are single ASCII bytes that never occur inside a multi-byte UTF-8 sequence. So replacing characters gives the same result as replacing bytes.
- Concurrency. Sharing one searcher between goroutines is safe because a `Searcher` is never written after construction. That guarantee comes from the Go runtime and `http.Client`, not from this code.
- `main.go` is not part of this model. It loads `.env` files, reads a line from stdin and prints results.
