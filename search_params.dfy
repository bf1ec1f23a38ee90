/** The part of `URLSearchParams` the client relies on: parsing a query string
    into name/value pairs and `get`, which returns the first value of a name. */
module SearchParams {
  import opened Wrappers
  import opened StringSplit

  /** The position of the first `c` in `s`. */
  function IndexOf(s: string, c: char): (i: nat)
    requires c in s
    ensures i < |s| && s[i] == c && c !in s[..i]
    decreases |s|
  {
    if s[0] == c then 0
    else
      assert c in s[1..] by { assert s == [s[0]] + s[1..]; }
      var j := IndexOf(s[1..], c);
      assert s[..j + 1] == [s[0]] + s[1..][..j];
      j + 1
  }

  /** One `name=value` piece: the name runs up to the first `=` and the value
      is everything after it; a piece without `=` is a name with an empty
      value. */
  function ParsePair(piece: string): (p: (string, string))
    ensures '=' !in p.0
    ensures '=' in piece ==> piece == p.0 + "=" + p.1
    ensures '=' !in piece ==> p == (piece, "")
  {
    if '=' in piece then
      var i := IndexOf(piece, '=');
      assert piece == piece[..i] + "=" + piece[i + 1..];
      (piece[..i], piece[i + 1..])
    else (piece, "")
  }

  /** A pair written as `name=value` with a name free of `=` is read back as
      that pair, whatever the value holds. */
  lemma ParsePairOfWritten(name: string, value: string)
    requires '=' !in name
    ensures ParsePair(name + "=" + value) == (name, value)
  {
    var piece := name + "=" + value;
    var i := IndexOf(piece, '=');
    assert piece[|name|] == '=';
    assert piece[..i] == name;
    assert piece[i + 1..] == value;
  }

  /** The pairs of the non-empty pieces, in order. */
  function ParsePieces(pieces: seq<string>): (pairs: seq<(string, string)>)
    ensures |pairs| <= |pieces|
    ensures (forall i :: 0 <= i < |pieces| ==> pieces[i] != []) ==>
      |pairs| == |pieces| && forall i :: 0 <= i < |pairs| ==> pairs[i] == ParsePair(pieces[i])
    decreases |pieces|
  {
    if pieces == [] then []
    else if pieces[0] == [] then ParsePieces(pieces[1..])
    else [ParsePair(pieces[0])] + ParsePieces(pieces[1..])
  }

  /** `new URLSearchParams(query)`: the query split at `&`, empty pieces
      skipped, each remaining piece read as a pair. */
  function Parse(query: string): (pairs: seq<(string, string)>)
    ensures |pairs| <= Count(query, '&') + 1
    ensures var pieces := Split(query, '&');
      (forall i :: 0 <= i < |pieces| ==> pieces[i] != []) ==>
        |pairs| == |pieces| && forall i :: 0 <= i < |pairs| ==> pairs[i] == ParsePair(pieces[i])
  {
    ParsePieces(Split(query, '&'))
  }

  /** `params.get(name)`: the value of the first pair with that name, or null
      when there is none. */
  function Get(pairs: seq<(string, string)>, name: string): (r: Option<string>)
    ensures r.None? <==> forall i :: 0 <= i < |pairs| ==> pairs[i].0 != name
    ensures r.Some? ==> exists i :: 0 <= i < |pairs| && pairs[i] == (name, r.value) &&
                                    forall j :: 0 <= j < i ==> pairs[j].0 != name
    decreases |pairs|
  {
    if pairs == [] then None
    else if pairs[0].0 == name then Some(pairs[0].1)
    else
      var r := Get(pairs[1..], name);
      assert forall i :: 1 <= i < |pairs| ==> pairs[i] == pairs[1..][i - 1];
      r
  }

  /** A query written as `a=x&b=y` with separator-free names and values parses
      into exactly those two pairs. */
  lemma ParseTwoPairs(a: string, x: string, b: string, y: string)
    requires a != [] && b != []
    requires '=' !in a && '=' !in b
    requires '&' !in a && '&' !in x && '&' !in b && '&' !in y
    ensures Parse(a + "=" + x + "&" + b + "=" + y) == [(a, x), (b, y)]
  {
    var first := a + "=" + x;
    var second := b + "=" + y;
    assert a + "=" + x + "&" + b + "=" + y == first + ['&'] + second;
    assert '&' !in first && '&' !in second;
    SplitAppend(first, second, '&');
    SplitOfSeparatorFree(first, '&');
    SplitOfSeparatorFree(second, '&');
    ParsePairOfWritten(a, x);
    ParsePairOfWritten(b, y);
    assert Split(first + ['&'] + second, '&') == [first, second];
    assert first != [] && second != [];
    assert ParsePieces([second]) == [ParsePair(second)] by {
      assert [second][1..] == [];
    }
    assert ParsePieces([first, second]) == [ParsePair(first)] + ParsePieces([second]) by {
      assert [first, second][1..] == [second];
    }
  }
}
