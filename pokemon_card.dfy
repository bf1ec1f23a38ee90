/** The pure parts of one catalog row: the entry's numeric id taken from its
    URL, the sprite URL built from that id, and the capitalised name shown. */
module PokemonCard {
  import opened Wrappers
  import opened StringSplit
  import opened Numbers
  import Api

  const SPRITE_PREFIX := "https://raw.githubusercontent.com/PokeAPI/sprites/master/sprites/pokemon/"

  /** `getPokemonIdFromUrl`: the second-to-last `/`-separated piece of the URL,
      or null when there are fewer than two pieces or that piece is empty. */
  function GetPokemonIdFromUrl(url: string): (id: Option<string>)
    ensures id.Some? ==> id.value != [] && '/' !in id.value
  {
    var parts := Split(url, '/');
    if |parts| >= 2 && parts[|parts| - 2] != [] then Some(parts[|parts| - 2]) else None
  }

  /** A URL without a slash is a single piece, so it has no id. */
  lemma NoIdWithoutSlash(url: string)
    requires '/' !in url
    ensures GetPokemonIdFromUrl(url) == None
  {
    SplitOfSeparatorFree(url, '/');
  }

  /** The piece between the last two slashes of `p + id + "/" + tail` is `id`,
      when `p` is empty or ends with a slash and neither `id` nor `tail` holds
      one; so `.../pokemon/25/` gives "25" because the trailing slash leaves
      an empty last piece. */
  lemma IdOfSegment(p: string, id: string, tail: string)
    requires p == [] || p[|p| - 1] == '/'
    requires id != [] && '/' !in id && '/' !in tail
    ensures GetPokemonIdFromUrl(p + id + "/" + tail) == Some(id)
  {
    SplitOfSeparatorFree(id, '/');
    SplitOfSeparatorFree(tail, '/');
    SplitAppend(id, tail, '/');
    if p == [] {
      assert p + id + "/" + tail == id + ['/'] + tail;
    } else {
      var q := p[..|p| - 1];
      assert p + id + "/" + tail == q + ['/'] + (id + ['/'] + tail);
      SplitAppend(q, id + ['/'] + tail, '/');
    }
  }

  /** Conversely, a non-null id is always such a piece of the URL. */
  lemma SegmentOfId(url: string) returns (p: string, tail: string)
    requires GetPokemonIdFromUrl(url).Some?
    ensures url == p + GetPokemonIdFromUrl(url).value + "/" + tail
    ensures p == [] || p[|p| - 1] == '/'
    ensures '/' !in tail
  {
    var parts := Split(url, '/');
    var n := |parts|;
    var id := parts[n - 2];
    tail := parts[n - 1];
    JoinOfSplit(url, '/');
    assert parts == parts[..n - 1] + [tail];
    JoinSnoc(parts[..n - 1], tail, '/');
    if n == 2 {
      p := [];
      assert parts[..n - 1] == [id];
    } else {
      p := Join(parts[..n - 2], '/') + "/";
      assert parts[..n - 1] == parts[..n - 2] + [id];
      JoinSnoc(parts[..n - 2], id, '/');
    }
  }

  /** The URL of the sprite image: present exactly when the id is. */
  function ImageUrl(url: string): (image: Option<string>)
    ensures image.Some? <==> GetPokemonIdFromUrl(url).Some?
  {
    match GetPokemonIdFromUrl(url)
    case Some(id) => Some(SPRITE_PREFIX + id + ".png")
    case None => None
  }

  /** The image URL lies in the sprite directory and its file name is the id
      followed by ".png". */
  lemma ImageFileName(url: string)
    requires ImageUrl(url).Some?
    ensures var parts := Split(ImageUrl(url).value, '/');
      parts[|parts| - 1] == GetPokemonIdFromUrl(url).value + ".png" &&
      parts[..|parts| - 1] == Split(SPRITE_PREFIX[..|SPRITE_PREFIX| - 1], '/')
  {
    var id := GetPokemonIdFromUrl(url).value;
    var dir := SPRITE_PREFIX[..|SPRITE_PREFIX| - 1];
    var file := id + ".png";
    assert '/' !in ".png";
    assert '/' !in file;
    assert SPRITE_PREFIX + id + ".png" == dir + ['/'] + file;
    SplitAppend(dir, file, '/');
    SplitOfSeparatorFree(file, '/');
  }

  /** For an entry URL in the catalog's own format, `.../pokemon/<n>/`, the id
      is the decimal text of `n` and the image is that number's sprite. */
  lemma EntryUrlImage(n: nat)
    ensures GetPokemonIdFromUrl(Api.API_BASE_URL + "/pokemon/" + NatToDecimal(n) + "/") ==
      Some(NatToDecimal(n))
    ensures ImageUrl(Api.API_BASE_URL + "/pokemon/" + NatToDecimal(n) + "/") ==
      Some(SPRITE_PREFIX + NatToDecimal(n) + ".png")
  {
    var d := NatToDecimal(n);
    ToStringAlphabet(Int(n));
    var p := Api.API_BASE_URL + "/pokemon/";
    assert p[|p| - 1] == '/';
    IdOfSegment(p, d, []);
    assert p + d + "/" + [] == Api.API_BASE_URL + "/pokemon/" + d + "/";
  }

  /** `toUpperCase` of one character, restricted to ASCII letters. */
  function ToUpper(c: char): (u: char)
    ensures 'a' <= c <= 'z' ==> 'A' <= u <= 'Z' && u as int == c as int - 32
    ensures !('a' <= c <= 'z') ==> u == c
  {
    if 'a' <= c <= 'z' then (c as int - 32) as char else c
  }

  /** The name as shown: `name.charAt(0).toUpperCase() + name.slice(1)`. */
  function DisplayName(name: string): (shown: string)
    ensures |shown| == |name|
    ensures name != [] ==> shown[0] == ToUpper(name[0]) && shown[1..] == name[1..]
  {
    if name == [] then "" else [ToUpper(name[0])] + name[1..]
  }

  /** Capitalising twice is capitalising once, and names that already start
      with a capital (or with no letter) are shown as they are. */
  lemma DisplayNameIdempotent(name: string)
    ensures DisplayName(DisplayName(name)) == DisplayName(name)
    ensures name != [] && !('a' <= name[0] <= 'z') ==> DisplayName(name) == name
  {
    if name != [] {
      assert [name[0]] + name[1..] == name;
    }
  }
}
