/** The paginated list screen: the cursor parser, and the screen's state
    (`pokemonList`, `loading`, `error`, `nextUrl`) as a class whose methods
    follow the start / try / catch / finally order of `loadPokemon`. */
module PokemonListScreen {
  import opened Wrappers
  import opened StringSplit
  import opened Numbers
  import opened SearchParams
  import opened Api

  /** The number of entries the screen asks for per page. */
  const PAGE_SIZE := Int(20)

  /** JavaScript truthiness of an optional string: null, undefined and the
      empty string are false. */
  predicate Truthy(s: Option<string>): (b: bool)
    ensures !b <==> s == None || s == Some("")
  {
    s.Some? && s.value != []
  }

  /** The search parameters of a URL: those of the text between its first and
      second `?`, none when it has no `?`. */
  function QueryPairs(url: string): (pairs: seq<(string, string)>)
    ensures '?' !in url ==> pairs == []
  {
    if '?' !in url then SplitOfSeparatorFree(url, '?'); [] else
    var parts := Split(url, '?');
    if |parts| >= 2 then Parse(parts[1]) else []
  }

  /** `getOffsetFromUrl`: the `offset` parameter of the URL read by `parseInt`,
      with 0 for a missing URL, a missing parameter or an empty value. */
  function GetOffsetFromUrl(url: Option<string>): (offset: Number)
    ensures !Truthy(url) ==> offset == Int(0)
  {
    if !Truthy(url) then Int(0)
    else
      var value := Get(QueryPairs(url.value), "offset");
      ParseInt(if value.Some? && value.value != [] then value.value else "0")
  }

  /** A URL with no query, or whose query has no non-empty `offset`, reads as
      offset 0. */
  lemma OffsetDefaultsToZero(url: string)
    requires '?' !in url || Get(QueryPairs(url), "offset") in {None, Some("")}
    ensures GetOffsetFromUrl(Some(url)) == Int(0)
  {
    if '?' !in url {
      SplitOfSeparatorFree(url, '?');
    }
    ParseIntOfToString(Int(0));
    assert ToString(Int(0)) == "0";
  }

  /** Round trip across the two files: the offset the list request writes
      into its URL is the offset read back from that URL. */
  lemma OffsetOfListUrl(limit: Number, offset: Number)
    ensures GetOffsetFromUrl(Some(ListUrl(limit, offset))) == offset
  {
    var url := ListUrl(limit, offset);
    var o := ToString(offset);
    QueryPairsOfListUrl(limit, offset);
    assert Get(QueryPairs(url), "offset") == Some(o) by {
      var pairs := [("limit", ToString(limit)), ("offset", o)];
      assert pairs[0].0 != "offset";
      assert Get(pairs, "offset") == Get(pairs[1..], "offset");
    }
    ToStringAlphabet(offset);
    ParseIntOfToString(offset);
    assert url != [] by {
      assert |url| >= |API_BASE_URL|;
    }
  }

  /** The search parameters of a list URL are its `limit` and `offset`. */
  lemma QueryPairsOfListUrl(limit: Number, offset: Number)
    ensures QueryPairs(ListUrl(limit, offset)) ==
      [("limit", ToString(limit)), ("offset", ToString(offset))]
  {
    ListUrlSplit(limit, offset);
    ListQueryPairs(limit, offset);
  }

  /** The offset `loadPokemon(url)` asks for: that of the URL when one is
      given, 0 otherwise. */
  function OffsetFor(url: Option<string>): (offset: Number)
    ensures offset == GetOffsetFromUrl(url)
  {
    if Truthy(url) then GetOffsetFromUrl(url) else Int(0)
  }

  /** The URL of the page request `loadPokemon(url)` makes. */
  function PageRequestUrl(url: Option<string>): (request: string)
    ensures request == ListUrl(PAGE_SIZE, GetOffsetFromUrl(url))
  {
    RequestUrl(Some(PAGE_SIZE), Some(OffsetFor(url)))
  }

  /** The outcome of the page request of `loadPokemon(url)`. */
  function PageOutcome(url: Option<string>, server: string -> Reply<PokemonListResponse>)
    : (outcome: Result<PokemonListResponse, Error>)
    ensures outcome.Success? <==>
      server(PageRequestUrl(url)).Answered? &&
      server(PageRequestUrl(url)).response.ok &&
      server(PageRequestUrl(url)).response.json.Success?
    ensures outcome.Success? ==> outcome.value == server(PageRequestUrl(url)).response.json.value
  {
    FetchPokemonList(Some(PAGE_SIZE), Some(OffsetFor(url)), server)
  }

  /** The first load, made without a URL, asks for 20 entries from offset 0. */
  lemma FirstPageRequest()
    ensures PageRequestUrl(None) == "https://pokeapi.co/api/v2/pokemon?limit=20&offset=0"
  {
    assert PageRequestUrl(None) == ListUrl(Int(20), Int(0));
    SmallDecimals();
    FirstPageText();
  }

  lemma SmallDecimals()
    ensures ToString(Int(20)) == "20" && ToString(Int(0)) == "0"
  {
    assert NatToDecimal(2) == "2";
    assert NatToDecimal(20) == NatToDecimal(2) + "0";
  }

  lemma FirstPageText()
    ensures API_BASE_URL + "/pokemon?limit=" + "20" + "&offset=" + "0" ==
      "https://pokeapi.co/api/v2/pokemon?limit=20&offset=0"
  {
  }

  /** Loading from a cursor written by the list request asks for the next 20
      entries from the cursor's own offset. */
  lemma NextPageRequest(limit: Number, offset: Number)
    ensures PageRequestUrl(Some(ListUrl(limit, offset))) == ListUrl(PAGE_SIZE, offset)
  {
    OffsetOfListUrl(limit, offset);
    assert ListUrl(limit, offset) != [];
  }

  /** For any cursor `path?query` whose first `offset` parameter holds the
      text of a number, the offset read back is that number; this covers the
      server's own `next` links as well as the URLs the client writes. */
  lemma OffsetOfQuery(path: string, query: string, offset: Number)
    requires '?' !in path && '?' !in query
    requires Get(Parse(query), "offset") == Some(ToString(offset))
    ensures GetOffsetFromUrl(Some(path + "?" + query)) == offset
  {
    var url := path + "?" + query;
    QueryPairsOf(path, query);
    assert url[|path|] == '?';
    ToStringAlphabet(offset);
    ParseIntOfToString(offset);
  }

  /** The parameters of `path?query` are those of `query`. */
  lemma QueryPairsOf(path: string, query: string)
    requires '?' !in path && '?' !in query
    ensures QueryPairs(path + "?" + query) == Parse(query)
  {
    assert path + "?" + query == path + ['?'] + query;
    SplitAppend(path, query, '?');
    SplitOfSeparatorFree(path, '?');
    SplitOfSeparatorFree(query, '?');
  }

  /** Text after a second `?` is not part of the parameters. */
  lemma QueryPairsBeforeSecondQuestionMark(path: string, query: string, rest: string)
    requires '?' !in path && '?' !in query
    ensures QueryPairs(path + "?" + query + "?" + rest) == Parse(query)
  {
    var tail := query + ['?'] + rest;
    assert path + "?" + query + "?" + rest == path + ['?'] + tail;
    SplitAppend(path, tail, '?');
    SplitAppend(query, rest, '?');
    SplitOfSeparatorFree(path, '?');
    SplitOfSeparatorFree(query, '?');
  }

  /** A cursor in the server's order, `path?offset=<o>&limit=<l>`, reads as
      offset `o`, so loading from it asks for 20 entries at `o`. */
  lemma NextPageRequestFromServerCursor(path: string, limit: Number, offset: Number)
    requires '?' !in path
    ensures GetOffsetFromUrl(Some(path + "?" + ServerQuery(limit, offset))) == offset
    ensures PageRequestUrl(Some(path + "?" + ServerQuery(limit, offset))) == ListUrl(PAGE_SIZE, offset)
  {
    var query := ServerQuery(limit, offset);
    ServerQueryOffset(limit, offset);
    OffsetOfQuery(path, query, offset);
  }

  /** The server's query has no `?` and its `offset` parameter holds the
      offset's text. */
  lemma ServerQueryOffset(limit: Number, offset: Number)
    ensures '?' !in ServerQuery(limit, offset)
    ensures Get(Parse(ServerQuery(limit, offset)), "offset") == Some(ToString(offset))
  {
    var l, o := ToString(limit), ToString(offset);
    ToStringAlphabet(limit);
    ToStringAlphabet(offset);
    ServerQueryText(l, o);
    ServerQueryShape(l, o);
    ParseTwoPairs("offset", o, "limit", l);
  }

  lemma ServerQueryText(l: string, o: string)
    requires '?' !in l && '?' !in o
    ensures '?' !in "offset=" + o + "&limit=" + l
  {
    assert '?' !in "offset=" && '?' !in "&limit=";
  }

  /** The query of the server's `next` links: `offset` first, then `limit`. */
  function ServerQuery(limit: Number, offset: Number): string
  {
    "offset=" + ToString(offset) + "&limit=" + ToString(limit)
  }

  lemma ServerQueryShape(l: string, o: string)
    ensures "offset=" + o + "&limit=" + l == "offset" + "=" + o + "&" + "limit" + "=" + l
  {
    assert "offset=" == "offset" + "=";
    assert "&limit=" == "&" + "limit" + "=";
  }

  /** The list after a load completes: on success the page is appended when a
      URL was given and replaces the list otherwise; on failure the list is
      kept. */
  function ListAfter(list: seq<PokemonListItem>, url: Option<string>,
                     outcome: Result<PokemonListResponse, Error>): (after: seq<PokemonListItem>)
    ensures outcome.Failure? ==> after == list
    ensures outcome.Success? && Truthy(url) ==>
      |after| == |list| + |outcome.value.results| &&
      after[..|list|] == list && after[|list|..] == outcome.value.results
    ensures outcome.Success? && !Truthy(url) ==> after == outcome.value.results
  {
    match outcome
    case Failure(_) => list
    case Success(data) => if Truthy(url) then list + data.results else data.results
  }

  /** The cursor after a load completes: the response's `next` on success,
      the old cursor on failure. */
  function CursorAfter(cursor: Option<string>, outcome: Result<PokemonListResponse, Error>)
    : (after: Option<string>)
    ensures outcome.Success? ==> after == outcome.value.next
    ensures outcome.Failure? ==> after == cursor
  {
    match outcome
    case Failure(_) => cursor
    case Success(data) => data.next
  }

  /** The error after a load completes: cleared at the start, so null on
      success, and the thrown error's message on failure. */
  function ErrorAfter(outcome: Result<PokemonListResponse, Error>): (after: Option<string>)
    ensures after.None? <==> outcome.Success?
    ensures outcome.Failure? ==> after == Some(outcome.error.message)
  {
    match outcome
    case Failure(e) => Some(e.message)
    case Success(_) => None
  }

  /** The pages in order, one after the other. */
  function Concat(pages: seq<seq<PokemonListItem>>): seq<PokemonListItem>
  {
    if pages == [] then [] else Concat(pages[..|pages| - 1]) + pages[|pages| - 1]
  }

  /** The pages loaded since the last first-page load, after a load
      completes: a load from a URL adds its page at the end, a load without
      one starts over with its page, and a failed load adds nothing. */
  function PagesAfter(pages: seq<seq<PokemonListItem>>, url: Option<string>,
                      outcome: Result<PokemonListResponse, Error>)
    : (after: seq<seq<PokemonListItem>>)
    ensures Concat(after) == ListAfter(Concat(pages), url, outcome)
    ensures outcome.Success? ==> |after| >= 1 && after[|after| - 1] == outcome.value.results
    ensures outcome.Failure? ==> after == pages
  {
    match outcome
    case Failure(_) => pages
    case Success(data) =>
      if Truthy(url) then
        assert (pages + [data.results])[..|pages|] == pages;
        pages + [data.results]
      else
        assert Concat([data.results]) == Concat([]) + data.results;
        [data.results]
  }

  /** Each loaded page sits in the list as one block, after the blocks of all
      pages loaded before it and before the blocks of all pages loaded after
      it. */
  lemma {:induction false} ConcatContainsPages(pages: seq<seq<PokemonListItem>>, k: nat)
    requires k < |pages|
    ensures Concat(pages) == Concat(pages[..k]) + pages[k] + Concat(pages[k + 1..])
    decreases |pages|
  {
    var n := |pages|;
    if k == n - 1 {
      assert pages[k + 1..] == [];
      assert pages[..n - 1] == pages[..k];
    } else {
      var front := pages[..n - 1];
      ConcatContainsPages(front, k);
      assert front[..k] == pages[..k] && front[k] == pages[k];
      var later := pages[k + 1..];
      assert later[..|later| - 1] == front[k + 1..];
      assert later[|later| - 1] == pages[n - 1];
    }
  }

  /** The state of the list screen. */
  class ListScreen {
    var pokemonList: seq<PokemonListItem>
    var loading: bool
    var error: Option<string>
    var nextUrl: Option<string>
    /** The pages loaded since the last load made without a URL. */
    ghost var pages: seq<seq<PokemonListItem>>

    /** The list is always the pages loaded since the last first-page load,
        in the order they arrived. */
    ghost predicate Valid()
      reads this
    {
      pokemonList == Concat(pages)
    }

    /** The state of the first render: an empty list, loading, no error and
        no cursor. */
    constructor ()
      ensures Valid()
      ensures pokemonList == [] && loading && error == None && nextUrl == None
      ensures pages == []
    {
      pokemonList := [];
      loading := true;
      error := None;
      nextUrl := None;
      pages := [];
    }

    /** The start of every load: the spinner is shown and the error cleared. */
    method BeginLoad()
      requires Valid()
      modifies this
      ensures Valid()
      ensures loading && error == None
      ensures pokemonList == old(pokemonList) && nextUrl == old(nextUrl) && pages == old(pages)
    {
      loading := true;
      error := None;
    }

    /** The completion of a load with the outcome of its page request: the
        list and cursor on success, the error message on failure, and
        `loading` cleared in every case. */
    method CompleteLoad(url: Option<string>, outcome: Result<PokemonListResponse, Error>)
      requires Valid()
      modifies this
      ensures Valid() && !loading
      ensures pokemonList == ListAfter(old(pokemonList), url, outcome)
      ensures nextUrl == CursorAfter(old(nextUrl), outcome)
      ensures error == if outcome.Success? then old(error) else ErrorAfter(outcome)
      ensures pages == PagesAfter(old(pages), url, outcome)
    {
      pages := PagesAfter(pages, url, outcome);
      match outcome {
        case Success(data) =>
          if Truthy(url) {
            pokemonList := pokemonList + data.results;
          } else {
            pokemonList := data.results;
          }
          nextUrl := data.next;
        case Failure(e) =>
          error := Some(e.message);
      }
      loading := false;
    }

    /** `loadPokemon(url)`: start, request the page, complete. */
    method LoadPokemon(url: Option<string>, server: string -> Reply<PokemonListResponse>)
      requires Valid()
      modifies this
      ensures Valid() && !loading
      ensures pokemonList == ListAfter(old(pokemonList), url, PageOutcome(url, server))
      ensures nextUrl == CursorAfter(old(nextUrl), PageOutcome(url, server))
      ensures error == ErrorAfter(PageOutcome(url, server))
      ensures pages == PagesAfter(old(pages), url, PageOutcome(url, server))
    {
      BeginLoad();
      var offset := OffsetFor(url);
      var outcome := FetchPokemonList(Some(PAGE_SIZE), Some(offset), server);
      CompleteLoad(url, outcome);
    }

    /** The effect that runs once after the first render: a load without a
        URL, which replaces the list with the first page. */
    method Mount(server: string -> Reply<PokemonListResponse>)
      requires Valid()
      modifies this
      ensures Valid() && !loading
      ensures pokemonList == ListAfter(old(pokemonList), None, PageOutcome(None, server))
      ensures nextUrl == CursorAfter(old(nextUrl), PageOutcome(None, server))
      ensures error == ErrorAfter(PageOutcome(None, server))
      ensures pages == PagesAfter(old(pages), None, PageOutcome(None, server))
    {
      LoadPokemon(None, server);
    }

    /** `handleLoadMore`: nothing without a cursor; otherwise a load from the
        cursor URL, which appends the next page. */
    method HandleLoadMore(server: string -> Reply<PokemonListResponse>)
      requires Valid()
      modifies this
      ensures Valid()
      ensures !Truthy(old(nextUrl)) ==> unchanged(this)
      ensures Truthy(old(nextUrl)) ==>
        !loading &&
        pokemonList == ListAfter(old(pokemonList), old(nextUrl), PageOutcome(old(nextUrl), server)) &&
        nextUrl == CursorAfter(old(nextUrl), PageOutcome(old(nextUrl), server)) &&
        error == ErrorAfter(PageOutcome(old(nextUrl), server)) &&
        pages == PagesAfter(old(pages), old(nextUrl), PageOutcome(old(nextUrl), server))
    {
      if Truthy(nextUrl) {
        LoadPokemon(nextUrl, server);
      }
    }
  }
}
