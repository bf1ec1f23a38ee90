/** The catalog client: the two requests of `services/api.ts` and the status
    rule they share. The network is a parameter: `server(url)` is what
    `fetch(url)` settles to. */
module Api {
  import opened Wrappers
  import opened StringSplit
  import opened Numbers
  import opened SearchParams

  const API_BASE_URL := "https://pokeapi.co/api/v2"
  const DEFAULT_LIMIT := Int(100)
  const DEFAULT_OFFSET := Int(0)
  const HTTP_ERROR_PREFIX := "HTTP error! status: "

  /** One entry of the catalog. */
  datatype PokemonListItem = PokemonListItem(name: string, url: string)

  /** One page of the listing endpoint; `next` is the cursor of the page after
      it, or null on the last page. */
  datatype PokemonListResponse = PokemonListResponse(
    count: int,
    next: Option<string>,
    previous: Option<string>,
    results: seq<PokemonListItem>)

  /** A thrown JavaScript error; the client only ever reads its message. */
  datatype Error = Error(message: string)

  /** A response: `ok`, `status`, and what `response.json()` settles to. */
  datatype Response<T> = Response(ok: bool, status: int, json: Result<T, Error>)

  /** What `fetch` settles to: a response, or a rejection such as a network
      failure. */
  datatype Reply<T> = Answered(response: Response<T>) | Rejected(error: Error)

  /** The request URL of `fetchPokemonList(limit, offset)`. */
  function ListUrl(limit: Number, offset: Number): (url: string)
    ensures API_BASE_URL + "/pokemon?limit=" <= url
  {
    API_BASE_URL + "/pokemon?limit=" + ToString(limit) + "&offset=" + ToString(offset)
  }

  /** The request URL when either argument may be omitted (`undefined`), which
      selects the default. */
  function RequestUrl(limit: Option<Number>, offset: Option<Number>): (url: string)
    ensures limit.Some? && offset.Some? ==> url == ListUrl(limit.value, offset.value)
    ensures limit.None? && offset.None? ==> url == ListUrl(Int(100), Int(0))
    ensures limit.Some? && offset.None? ==> url == ListUrl(limit.value, Int(0))
    ensures limit.None? && offset.Some? ==> url == ListUrl(Int(100), offset.value)
  {
    ListUrl(limit.GetOr(DEFAULT_LIMIT), offset.GetOr(DEFAULT_OFFSET))
  }

  /** The query part of the list URL. */
  function ListQuery(limit: Number, offset: Number): string
  {
    "limit=" + ToString(limit) + "&offset=" + ToString(offset)
  }

  /** The list URL is the listing endpoint, one `?`, and the query. */
  lemma ListUrlSplit(limit: Number, offset: Number)
    ensures Split(ListUrl(limit, offset), '?') == [API_BASE_URL + "/pokemon", ListQuery(limit, offset)]
  {
    var path := API_BASE_URL + "/pokemon";
    var query := ListQuery(limit, offset);
    ListUrlShape(limit, offset);
    ListQueryHasNoQuestionMark(limit, offset);
    ListPathHasNoQuestionMark();
    SplitAppend(path, query, '?');
    SplitOfSeparatorFree(path, '?');
    SplitOfSeparatorFree(query, '?');
  }

  lemma ListUrlShape(limit: Number, offset: Number)
    ensures ListUrl(limit, offset) == API_BASE_URL + "/pokemon" + ['?'] + ListQuery(limit, offset)
  {
    ListUrlText(ToString(limit), ToString(offset));
  }

  lemma ListUrlText(l: string, o: string)
    ensures API_BASE_URL + "/pokemon?limit=" + l + "&offset=" + o ==
      API_BASE_URL + "/pokemon" + ['?'] + ("limit=" + l + "&offset=" + o)
  {
    assert "/pokemon?limit=" == "/pokemon" + ['?'] + "limit=";
  }

  lemma ListPathHasNoQuestionMark()
    ensures '?' !in API_BASE_URL + "/pokemon"
  {
  }

  lemma ListQueryHasNoQuestionMark(limit: Number, offset: Number)
    ensures '?' !in ListQuery(limit, offset)
  {
    ToStringAlphabet(limit);
    ToStringAlphabet(offset);
  }

  /** The query holds exactly two pairs, `limit` then `offset`, carrying the
      two numbers as written. */
  lemma ListQueryPairs(limit: Number, offset: Number)
    ensures Parse(ListQuery(limit, offset)) ==
      [("limit", ToString(limit)), ("offset", ToString(offset))]
  {
    var l, o := ToString(limit), ToString(offset);
    ToStringAlphabet(limit);
    ToStringAlphabet(offset);
    ListQueryShape(l, o);
    ParseTwoPairs("limit", l, "offset", o);
  }

  lemma ListQueryShape(l: string, o: string)
    ensures "limit=" + l + "&offset=" + o == "limit" + "=" + l + "&" + "offset" + "=" + o
  {
    assert "limit=" == "limit" + "=";
    assert "&offset=" == "&" + "offset" + "=";
  }

  /** With both arguments omitted the list request asks for 100 entries from
      offset 0. */
  lemma DefaultRequestUrl()
    ensures RequestUrl(None, None) == "https://pokeapi.co/api/v2/pokemon?limit=100&offset=0"
  {
    assert RequestUrl(None, None) == ListUrl(Int(100), Int(0));
    DefaultDecimals();
    DefaultRequestText();
  }

  lemma DefaultDecimals()
    ensures ToString(Int(100)) == "100" && ToString(Int(0)) == "0"
  {
    assert NatToDecimal(1) == "1";
    assert NatToDecimal(10) == "10";
    assert NatToDecimal(100) == NatToDecimal(10) + "0";
  }

  lemma DefaultRequestText()
    ensures API_BASE_URL + "/pokemon?limit=" + "100" + "&offset=" + "0" ==
      "https://pokeapi.co/api/v2/pokemon?limit=100&offset=0"
  {
  }

  /** The message of the error thrown for a response that is not ok. */
  function HttpErrorMessage(status: int): (m: string)
    ensures |m| > |HTTP_ERROR_PREFIX| && m[..|HTTP_ERROR_PREFIX|] == HTTP_ERROR_PREFIX
    ensures ParseInt(m[|HTTP_ERROR_PREFIX|..]) == Int(status)
  {
    var m := HTTP_ERROR_PREFIX + ToString(Int(status));
    ToStringAlphabet(Int(status));
    ParseIntOfToString(Int(status));
    assert m[|HTTP_ERROR_PREFIX|..] == ToString(Int(status));
    m
  }

  /** The status rule: a rejected `fetch` is re-thrown unchanged, a response
      that is not ok throws an HTTP error carrying its status, and an ok
      response yields the parsed body (or re-throws the parse error). */
  function HandleResponse<T>(reply: Reply<T>): (r: Result<T, Error>)
    ensures r.Success? ==> reply.Answered? && reply.response.ok
    ensures reply.Rejected? ==> r == Failure(reply.error)
    ensures reply.Answered? && !reply.response.ok ==>
      r == Failure(Error(HttpErrorMessage(reply.response.status)))
    ensures reply.Answered? && reply.response.ok ==> r == reply.response.json
  {
    match reply
    case Rejected(e) => Failure(e)
    case Answered(response) =>
      if !response.ok then Failure(Error(HttpErrorMessage(response.status)))
      else response.json
  }

  /** Distinct statuses give distinct error messages, so the status of a
      failed request is never lost. */
  lemma HttpErrorMessageInjective(a: int, b: int)
    requires HttpErrorMessage(a) == HttpErrorMessage(b)
    ensures a == b
  {
    var n := |HTTP_ERROR_PREFIX|;
    assert HttpErrorMessage(a)[n..] == HttpErrorMessage(b)[n..];
  }

  /** `fetchPokemonList(limit, offset)`: one request to the list URL, answered
      by the status rule. */
  function FetchPokemonList(limit: Option<Number>, offset: Option<Number>,
                            server: string -> Reply<PokemonListResponse>)
    : (r: Result<PokemonListResponse, Error>)
    ensures r.Success? <==>
      server(RequestUrl(limit, offset)).Answered? &&
      server(RequestUrl(limit, offset)).response.ok &&
      server(RequestUrl(limit, offset)).response.json.Success?
    ensures r.Success? ==> r.value == server(RequestUrl(limit, offset)).response.json.value
  {
    HandleResponse(server(RequestUrl(limit, offset)))
  }

  /** `fetchPokemonDetails(url)`: one request to exactly the given URL,
      answered by the status rule. */
  function FetchPokemonDetails<T>(url: string, server: string -> Reply<T>): (r: Result<T, Error>)
    ensures r.Success? <==>
      server(url).Answered? && server(url).response.ok && server(url).response.json.Success?
    ensures r.Success? ==> r.value == server(url).response.json.value
  {
    HandleResponse(server(url))
  }
}
