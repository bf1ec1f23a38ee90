# Pokémon catalog client — a Dafny model of its paginated list

This project models the sequential logic of a small React Native client for
the public PokéAPI catalog:

- the **catalog client** (`services/api.ts`): the list request URL with its
  defaults, and the rule that turns a response into the parsed body or an
  `HTTP error! status: <n>` error;
- the **list screen** (`components/PokemonListScreen.tsx`): the cursor parser
  `getOffsetFromUrl`, and the screen state (`pokemonList`, `loading`, `error`,
  `nextUrl`) changed by `loadPokemon` in its start / try / catch / finally
  order and by `handleLoadMore`;
- the **catalog row** (`components/PokemonCard.tsx`): the id taken from an
  entry URL, the sprite URL built from it, and the capitalised name.

The network is a parameter: `server: string -> Reply<T>` says what `fetch(url)`
settles to (a response with `ok`, `status` and the outcome of `json()`, or a
rejection). JavaScript built-ins the code relies on are modelled in their own
modules: `String.prototype.split` (`StringSplit`), the decimal text of a number
in a template literal and `parseInt(s, 10)` (`Numbers`, with a number being an
integer or `NaN`), and `URLSearchParams` parsing and `get` (`SearchParams`).

Files: `wrappers.dfy` (Option, Result), `string_split.dfy`, `numbers.dfy`,
`search_params.dfy`, `api.dfy`, `pokemon_card.dfy`, `pokemon_list_screen.dfy`
(the class `ListScreen`).

The central cross-file fact is `PokemonListScreen.OffsetOfListUrl`: the offset
`getOffsetFromUrl` reads from a URL built by the list request is exactly the
offset written into it, for every modelled number: integers, and `NaN`. The
numbers are written as plain decimal text (see "## Left out" on exponent
notation). With it, `NextPageRequest` shows that loading from such a cursor
asks for the page at the cursor's own offset. `OffsetOfQuery` and
`NextPageRequestFromServerCursor` show the same for cursors in the server's
own parameter order.

This screen's `handleLoadMore` has no in-flight, selection or search guard,
and `loadPokemon` asks for 20 entries per page (the request's own default is
100). The guarded screen with search, debounce, a name index and a detail
overlay is app/(tabs)/index.tsx and is not part of this model.

## Model

| member | source | states |
|---|---|---|
| `StringSplit.Split` | components/PokemonCard.tsx:13 | `split` on one character: one piece more than there are separators, and no piece contains the separator |
| `StringSplit.JoinOfSplit` | components/PokemonCard.tsx:13 | joining the pieces with the separator gives back the original string |
| `StringSplit.SplitOfJoin` | components/PokemonCard.tsx:13 | splitting a join of separator-free pieces gives back exactly those pieces |
| `StringSplit.SplitAppend` | components/PokemonCard.tsx:13 | splitting `a + sep + b` splits `a` and `b` independently and concatenates the pieces |
| `StringSplit.SplitOfSeparatorFree` | components/PokemonCard.tsx:13 | a string without the separator is a single piece |
| `Numbers.NatToDecimal` | services/api.ts:17 | the decimal text of a number is non-empty, digits only, with no leading zero except for "0" |
| `Numbers.DecimalRoundTrip` | services/api.ts:17 | the value of the decimal text is the number it was written from |
| `Numbers.ToStringAlphabet` | services/api.ts:17 | the text of a number never contains `&`, `=`, `?` or `/` |
| `Numbers.ParseIntOfToString` | components/PokemonListScreen.tsx:39 | `parseInt` of a number's modelled text gives back that number, for every integer and for `NaN` |
| `Numbers.ParseIntIgnoresTrailing` | components/PokemonListScreen.tsx:39 | `parseInt` reads the leading digit run and ignores text after it |
| `Numbers.IntToDecimal` | services/api.ts:17 | `${i}` for an integer: non-empty, digits only for a non-negative integer, a minus sign before digits for a negative one |
| `Numbers.ToString` | services/api.ts:22 | `${x}` for a number: never empty, and "NaN" exactly for `NaN` |
| `Numbers.TrimStart` | components/PokemonListScreen.tsx:39 | the leading-white-space step of `parseInt`: a suffix of the input that does not start with white space, everything removed before it is white space, and the input itself when it starts with none |
| `Numbers.DigitRun` | components/PokemonListScreen.tsx:39 | the digit-run step of `parseInt`: the longest prefix made of digits, the whole input when it is all digits |
| `Numbers.LeadingDigits` | components/PokemonListScreen.tsx:39 | the digit-run step of `parseInt`: `NaN` exactly when the text does not start with a digit, otherwise a non-negative value |
| `Numbers.LeadingDigitsOfDigits` | components/PokemonListScreen.tsx:39 | a digit run followed by a non-digit reads as the value of the digits |
| `Numbers.ParseInt` | components/PokemonListScreen.tsx:39 | `parseInt(s, 10)`: `NaN` for the empty text, and the value of the digits for text made only of digits (leading white space, the signs and trailing text are stated by `ParseIntSkipsWhite`, `ParseIntOfPlusDigits`, `ParseIntOfNegativeDigits` and `ParseIntIgnoresTrailing`) |
| `Numbers.ParseIntSkipsWhite` | components/PokemonListScreen.tsx:39 | white space in front of any text does not change what `parseInt` reads |
| `Numbers.ParseIntOfPlusDigits` | components/PokemonListScreen.tsx:39 | a plus sign before a digit run is accepted: the result is the value of the digits |
| `Numbers.ParseIntOfNegativeDigits` | components/PokemonListScreen.tsx:39 | a minus sign before a digit run gives the negated value |
| `Numbers.IntToDecimalInjective` | services/api.ts:17 | distinct integers are written as distinct texts |
| `SearchParams.ParsePair` | components/PokemonListScreen.tsx:37 | a `name=value` piece: the name is the text before the first `=`, the value the rest; without `=` the value is empty |
| `SearchParams.ParsePairOfWritten` | components/PokemonListScreen.tsx:37 | a written `name=value` with an `=`-free name parses back to exactly that pair |
| `SearchParams.ParsePieces` | components/PokemonListScreen.tsx:37 | the pairs of the non-empty `&`-pieces: never more pairs than pieces, and when no piece is empty, pair i is piece i read as a pair |
| `SearchParams.Parse` | components/PokemonListScreen.tsx:37 | `new URLSearchParams(query)`: never more pairs than `&`-separated pieces, and when no piece is empty, pair i is the i-th `&`-piece read as a pair |
| `SearchParams.Get` | components/PokemonListScreen.tsx:38 | `get` is null exactly when no pair has the name, and otherwise the value of the first pair with it |
| `SearchParams.ParseTwoPairs` | components/PokemonListScreen.tsx:37 | a query `a=x&b=y` with separator-free parts parses into exactly the two pairs, in order |
| `Api.ListUrl` | services/api.ts:17 | the request URL starts with the list endpoint and its `limit` parameter (the whole shape is stated by `ListUrlSplit` and `ListQueryPairs`) |
| `Api.RequestUrl` | services/api.ts:16 | each argument takes its default on its own: a given argument is used as is, an omitted limit is 100 and an omitted offset is 0, in all four combinations |
| `Api.ListUrlSplit` | services/api.ts:17 | the list URL is the listing endpoint, one `?`, and the query |
| `Api.ListQueryPairs` | services/api.ts:17 | the query of the list URL parses into exactly `limit` then `offset`, carrying the numbers as written |
| `Api.DefaultRequestUrl` | services/api.ts:16-17 | with both arguments omitted the request is `https://pokeapi.co/api/v2/pokemon?limit=100&offset=0` |
| `Api.HttpErrorMessage` | services/api.ts:22 | the error message starts with `HTTP error! status: ` and the rest reads back as the status |
| `Api.HttpErrorMessageInjective` | services/api.ts:22 | distinct statuses give distinct error messages |
| `Api.HandleResponse` | services/api.ts:19-29 | a non-ok response throws the HTTP error and never yields data; an ok response yields the parsed body unchanged; a rejected fetch is re-thrown unchanged |
| `Api.FetchPokemonList` | services/api.ts:16-30 | succeeds exactly when the reply to the list URL is ok and its body parsed, and then returns that body |
| `Api.FetchPokemonDetails` | services/api.ts:32-44 | the request goes to exactly the given URL; succeeds exactly when that reply is ok and parsed, and returns its body |
| `PokemonCard.GetPokemonIdFromUrl` | components/PokemonCard.tsx:12-15 | a non-null id is non-empty and contains no `/` |
| `PokemonCard.NoIdWithoutSlash` | components/PokemonCard.tsx:14 | a URL with fewer than two `/`-separated pieces has a null id |
| `PokemonCard.IdOfSegment` | components/PokemonCard.tsx:12-14 | the id of `p + id + "/" + tail` (with `p` empty or ending in `/`, no `/` in `id` or `tail`, `id` non-empty) is `id`; so `.../pokemon/25/` gives "25" |
| `PokemonCard.SegmentOfId` | components/PokemonCard.tsx:12-14 | conversely, whenever the id is non-null the URL has the shape `p + id + "/" + tail`, with `p` empty or ending in `/` and no `/` in `tail` |
| `PokemonCard.ImageUrl` | components/PokemonCard.tsx:17-18 | the image URL is present exactly when the id is |
| `PokemonCard.ImageFileName` | components/PokemonCard.tsx:18 | the image URL lies in the sprite directory and its file name is the id followed by `.png` |
| `PokemonCard.EntryUrlImage` | components/PokemonCard.tsx:12-18 | for an entry URL `.../pokemon/<n>/` the id is the text of `n` and the image is the sprite prefix + that text + `.png` |
| `PokemonCard.ToUpper` | components/PokemonCard.tsx:33 | ASCII lower-case letters map to their capitals; every other character is unchanged |
| `PokemonCard.DisplayName` | components/PokemonCard.tsx:33 | the shown name keeps the length, capitalises the first character and keeps the rest; an empty name gives the empty string |
| `PokemonCard.DisplayNameIdempotent` | components/PokemonCard.tsx:33 | capitalising twice equals capitalising once; a name not starting with a lower-case letter is shown unchanged |
| `PokemonListScreen.Truthy` | components/PokemonListScreen.tsx:21 | JavaScript truthiness of an optional URL, as tested at lines 21, 34 and 43: null and the empty string are false |
| `PokemonListScreen.QueryPairs` | components/PokemonListScreen.tsx:37 | the parameters of the text after the first `?` and before any second one; a URL without `?` has none (the other cases are stated by `QueryPairsOf` and `QueryPairsBeforeSecondQuestionMark`) |
| `PokemonListScreen.QueryPairsOf` | components/PokemonListScreen.tsx:37 | the parameters of `path?query` are exactly those of `query` |
| `PokemonListScreen.QueryPairsBeforeSecondQuestionMark` | components/PokemonListScreen.tsx:37 | text after a second `?` is not part of the parameters: `path?query?rest` has the parameters of `query` |
| `PokemonListScreen.GetOffsetFromUrl` | components/PokemonListScreen.tsx:33-36 | a missing or empty URL reads as offset 0 |
| `PokemonListScreen.OffsetDefaultsToZero` | components/PokemonListScreen.tsx:37-39 | a URL without `?`, or whose query has no non-empty `offset`, reads as offset 0 |
| `PokemonListScreen.QueryPairsOfListUrl` | components/PokemonListScreen.tsx:37 | the search parameters of a list-request URL are exactly its `limit` and `offset` |
| `PokemonListScreen.OffsetOfListUrl` | components/PokemonListScreen.tsx:33-40 | round trip with the URL built at services/api.ts:17: the offset read back is the offset written, for every integer and for `NaN` |
| `PokemonListScreen.OffsetOfQuery` | components/PokemonListScreen.tsx:37-39 | any cursor `path?query` whose first `offset` parameter holds the text of a number reads as that number |
| `PokemonListScreen.NextPageRequestFromServerCursor` | components/PokemonListScreen.tsx:21-22 | a cursor in the server's order `path?offset=<o>&limit=<l>` reads as offset `o`, and loading from it asks for 20 entries at `o` |
| `PokemonListScreen.OffsetFor` | components/PokemonListScreen.tsx:21 | the offset a load asks for is `getOffsetFromUrl` of its URL: the truthiness test at line 21 yields 0 exactly where the parser would |
| `PokemonListScreen.PageRequestUrl` | components/PokemonListScreen.tsx:22 | a load asks for 20 entries at the offset read from its URL |
| `PokemonListScreen.PageOutcome` | components/PokemonListScreen.tsx:22 | a load succeeds exactly when the server answers the page request with an ok response whose body parses, and then yields that body |
| `PokemonListScreen.FirstPageRequest` | components/PokemonListScreen.tsx:21-22 | a load without a URL requests `.../pokemon?limit=20&offset=0` |
| `PokemonListScreen.NextPageRequest` | components/PokemonListScreen.tsx:21-22 | a load from a cursor written by the list request asks for 20 entries at the cursor's offset |
| `PokemonListScreen.ListAfter` | components/PokemonListScreen.tsx:24 | on success with a URL the old list is an unchanged prefix followed by the page, the length adding up; without a URL the list is exactly the page; on failure the list is kept |
| `PokemonListScreen.CursorAfter` | components/PokemonListScreen.tsx:25 | after success the cursor is the response's `next`; after failure it is unchanged |
| `PokemonListScreen.ErrorAfter` | components/PokemonListScreen.tsx:26-27 | after a load the error is null exactly on success, and the thrown message on failure |
| `PokemonListScreen.PagesAfter` | components/PokemonListScreen.tsx:24 | the loaded pages after a load stay in step with the list, the page just loaded coming last; a failed load keeps them |
| `PokemonListScreen.ConcatContainsPages` | components/PokemonListScreen.tsx:24 | each page loaded since the last first-page load is one block of the list, after the blocks of all earlier pages and before those of all later ones |
| `PokemonListScreen.ListScreen.constructor` | components/PokemonListScreen.tsx:8-11 | the first render: empty list, loading, no error, no cursor |
| `PokemonListScreen.ListScreen.BeginLoad` | components/PokemonListScreen.tsx:18-19 | every load starts by setting `loading` and clearing the error, leaving list and cursor alone |
| `PokemonListScreen.ListScreen.CompleteLoad` | components/PokemonListScreen.tsx:24-29 | the completion applies list, cursor or error by the outcome, clears `loading` in every case, and keeps the list equal to the pages loaded since the last first-page load |
| `PokemonListScreen.ListScreen.LoadPokemon` | components/PokemonListScreen.tsx:17-31 | the whole load: new list, cursor and error as functions of the old state and the reply to the page request, `loading` false whatever the outcome, and the list still the pages loaded since the last first-page load |
| `PokemonListScreen.ListScreen.Mount` | components/PokemonListScreen.tsx:13-15 | the mount effect is a load without a URL, so the list becomes the first page |
| `PokemonListScreen.ListScreen.HandleLoadMore` | components/PokemonListScreen.tsx:42-46 | nothing changes when the cursor is null or empty; otherwise it is a load from the cursor URL, which adds its page as the last block of the list |

## Left out

- `fetch`, `response.json()` parsing and every `console.log` / `console.error` call: I/O and logging. The reply is a parameter (`server`), and a failed parse is the `json` field of the response.
- Rendering: the spinner and error views, `FlatList`, `onEndReachedThreshold`, `StyleSheet`, `TouchableOpacity` and `Image`. These are view-only.
- Overlapping asynchronous loads. `handleLoadMore` has no in-flight guard, so two loads can interleave. Each load is modelled as a start (`BeginLoad`) followed by its completion (`CompleteLoad`). `LoadPokemon` runs the two back to back, so no other load can come between them.
- The mount effect is modelled as one call to `Mount`. React's guarantee that it runs only once is not modelled.
- `Numbers.NatToDecimal` models `${n}` only below 1e21. From there JavaScript writes exponent notation ("1e+21"), which `parseInt` reads back as 1, so in the program the offset round trip fails for offsets of 1e21 or more.
- Numbers are integers or `NaN`. Fractional numbers, infinities, `-0` and the precision limit of doubles are not modelled (`parseInt` of a very long digit run is exact here).
- `Numbers.ParseInt`: only ASCII white space is skipped. The other Unicode space characters that `parseInt` also skips are not.
- `SearchParams.Parse`: names and values are taken verbatim. Percent-decoding and `+` as a space are not modelled.
- `PokemonCard.ToUpper`: only ASCII letters are mapped. The rest of Unicode case mapping, including mappings that change the length, is not modelled.
- Thrown values other than `Error` objects: every error carries a message, which is the only part the screen reads.
