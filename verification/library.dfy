/** The library catalogue: the three kinds of library item with their
    call-number formats and copy counts, and the catalogue's search and
    loading. */
module Library {
  import opened Wrappers
  import opened Text

  /** The fields every `LibraryItem` holds. */
  datatype Base = Base(title: string, callNumber: string, numCopies: int)

  datatype Item =
    | Manga(base: Base, artist: string, volumeNum: int)
    | Game(base: Base, devStudio: string, platform: string, numPlayers: int)
    | Movie(base: Base, genre: string, releaseYear: string)

  datatype Kind = MangaKind | GameKind | MovieKind

  datatype ItemError =
    | BadCallNumber(kind: Kind)
    | NegativeCopies

  // ----- Call numbers -----

  /** `(\.[0-9]{3}){3}` matched against the whole of `g`: three groups, each
      a dot and three digits. */
  predicate DotGroups(g: string) {
    && |g| == 12
    && g[0] == '.' && IsDigitsOfLength(g[1..4], 3)
    && g[4] == '.' && IsDigitsOfLength(g[5..8], 3)
    && g[8] == '.' && IsDigitsOfLength(g[9..12], 3)
  }

  /** The letters each kind's call number starts with. */
  function Prefix(k: Kind): string {
    match k
    case MangaKind => "MG"
    case GameKind => "G"
    case MovieKind => "M"
  }

  /** `re.search('^<prefix>(\.[0-9]{3}){3}$', s)` for the kind's prefix,
      read as a match of the whole string. */
  predicate ValidCallNumber(k: Kind, s: string) {
    var p := Prefix(k);
    |s| == |p| + 12 && s[..|p|] == p && DotGroups(s[|p|..])
  }

  /** A call number is the kind's letters followed by the dot groups, and
      nothing else. */
  lemma CallNumberConcat(k: Kind, g: string)
    ensures ValidCallNumber(k, Prefix(k) + g) <==> DotGroups(g)
  {
    var s := Prefix(k) + g;
    assert s[..|Prefix(k)|] == Prefix(k) && s[|Prefix(k)|..] == g;
  }

  /** The first two characters of a call number of kind `k`. */
  lemma CallNumberHead(k: Kind, s: string)
    requires ValidCallNumber(k, s)
    ensures s[0] == Prefix(k)[0]
    ensures s[1] == if k == MangaKind then 'G' else '.'
  {
    assert s[0] == s[..|Prefix(k)|][0];
    if k == MangaKind {
      assert s[1] == s[..2][1];
    } else {
      assert s[1] == s[1..][0];
    }
  }

  /** No string is a call number of two kinds: "MG" and "M." differ in the
      second character and "G" differs from both in the first. */
  lemma CallNumbersDisjoint(s: string, k1: Kind, k2: Kind)
    requires ValidCallNumber(k1, s) && ValidCallNumber(k2, s)
    ensures k1 == k2
  {
    CallNumberHead(k1, s);
    CallNumberHead(k2, s);
  }

  /** The three-digit, zero-padded decimal form of `n`. */
  function Pad3(n: nat): (r: string)
    requires n < 1000
    ensures IsDigitsOfLength(r, 3)
  {
    [Digit(n / 100), Digit(n / 10 % 10), Digit(n % 10)]
  }

  function Digit(d: nat): (c: char)
    requires d < 10
    ensures IsDigit(c)
  {
    ('0' as int + d) as char
  }

  /** The call number of kind `k` with section numbers `a`, `b` and `c`. */
  function FormatCallNumber(k: Kind, a: nat, b: nat, c: nat): string
    requires a < 1000 && b < 1000 && c < 1000
  {
    Prefix(k) + "." + Pad3(a) + "." + Pad3(b) + "." + Pad3(c)
  }

  /** Every formatted call number passes its kind's check, and only its
      kind's. */
  lemma FormattedIsValid(k: Kind, a: nat, b: nat, c: nat, other: Kind)
    requires a < 1000 && b < 1000 && c < 1000
    ensures ValidCallNumber(k, FormatCallNumber(k, a, b, c))
    ensures ValidCallNumber(other, FormatCallNumber(k, a, b, c)) <==> other == k
  {
    var g := "." + Pad3(a) + "." + Pad3(b) + "." + Pad3(c);
    assert FormatCallNumber(k, a, b, c) == Prefix(k) + g;
    assert g[1..4] == Pad3(a) && g[5..8] == Pad3(b) && g[9..12] == Pad3(c);
    CallNumberConcat(k, g);
    if ValidCallNumber(other, FormatCallNumber(k, a, b, c)) {
      CallNumbersDisjoint(FormatCallNumber(k, a, b, c), k, other);
    }
  }

  // ----- Constructors -----

  /** `LibraryItem.__init__`: a negative number of copies raises; zero is
      accepted, and an omitted count means one copy. */
  function NewBase(title: string, callNum: string, numCopies: Option<int>): (r: Result<Base, ItemError>)
    ensures r.Ok? <==> numCopies.GetOr(1) >= 0
    ensures r.Err? ==> r.error == NegativeCopies
    ensures r.Ok? ==> && r.value.title == title && r.value.callNumber == callNum
                      && r.value.numCopies == numCopies.GetOr(1)
    ensures numCopies.None? ==> r == Ok(Base(title, callNum, 1))
  {
    var copies := numCopies.GetOr(1);
    if copies < 0 then Err(NegativeCopies) else Ok(Base(title, callNum, copies))
  }

  /** `Manga.__init__`: the call-number format is checked before the base
      class sees the copy count. */
  function NewManga(artist: string, volumeNum: int, title: string, callNum: string, numCopies: Option<int>)
    : (r: Result<Item, ItemError>)
    ensures r.Ok? <==> ValidCallNumber(MangaKind, callNum) && numCopies.GetOr(1) >= 0
    ensures !ValidCallNumber(MangaKind, callNum) ==> r == Err(BadCallNumber(MangaKind))
    ensures r.Ok? ==> && r.value.Manga? && r.value.artist == artist && r.value.volumeNum == volumeNum
                      && r.value.base == Base(title, callNum, numCopies.GetOr(1))
  {
    if !ValidCallNumber(MangaKind, callNum) then Err(BadCallNumber(MangaKind))
    else
      var base :- NewBase(title, callNum, numCopies);
      Ok(Manga(base, artist, volumeNum))
  }

  /** `Game.__init__`: the platform defaults to "PC" and the number of
      players to one; the call-number format is checked first. */
  function NewGame(devStudio: string, platform: Option<string>, numPlayers: Option<int>,
                   title: string, callNum: string, numCopies: Option<int>)
    : (r: Result<Item, ItemError>)
    ensures r.Ok? <==> ValidCallNumber(GameKind, callNum) && numCopies.GetOr(1) >= 0
    ensures !ValidCallNumber(GameKind, callNum) ==> r == Err(BadCallNumber(GameKind))
    ensures r.Ok? ==> && r.value.Game? && r.value.devStudio == devStudio
                      && r.value.base == Base(title, callNum, numCopies.GetOr(1))
    ensures r.Ok? && platform.None? ==> r.value.platform == "PC"
    ensures r.Ok? && platform.Some? ==> r.value.platform == platform.value
    ensures r.Ok? && numPlayers.None? ==> r.value.numPlayers == 1
    ensures r.Ok? && numPlayers.Some? ==> r.value.numPlayers == numPlayers.value
  {
    if !ValidCallNumber(GameKind, callNum) then Err(BadCallNumber(GameKind))
    else
      var base :- NewBase(title, callNum, numCopies);
      Ok(Game(base, devStudio, platform.GetOr("PC"), numPlayers.GetOr(1)))
  }

  /** `Movie.__init__`: the call-number format is checked first. */
  function NewMovie(genre: string, releaseYear: string, title: string, callNum: string, numCopies: Option<int>)
    : (r: Result<Item, ItemError>)
    ensures r.Ok? <==> ValidCallNumber(MovieKind, callNum) && numCopies.GetOr(1) >= 0
    ensures !ValidCallNumber(MovieKind, callNum) ==> r == Err(BadCallNumber(MovieKind))
    ensures r.Ok? ==> && r.value.Movie? && r.value.genre == genre && r.value.releaseYear == releaseYear
                      && r.value.base == Base(title, callNum, numCopies.GetOr(1))
  {
    if !ValidCallNumber(MovieKind, callNum) then Err(BadCallNumber(MovieKind))
    else
      var base :- NewBase(title, callNum, numCopies);
      Ok(Movie(base, genre, releaseYear))
  }

  function KindOf(it: Item): Kind {
    match it
    case Manga(_, _, _) => MangaKind
    case Game(_, _, _, _) => GameKind
    case Movie(_, _, _) => MovieKind
  }

  /** Every constructed item has a non-negative copy count and a call number
      of its own kind, so its kind can be read back from the call number. */
  predicate WellFormed(it: Item) {
    it.base.numCopies >= 0 && ValidCallNumber(KindOf(it), it.base.callNumber)
  }

  lemma KindFromCallNumber(it: Item, k: Kind)
    requires WellFormed(it) && ValidCallNumber(k, it.base.callNumber)
    ensures KindOf(it) == k
  {
    CallNumbersDisjoint(it.base.callNumber, KindOf(it), k);
  }

  /** What the constructors build is well formed. */
  lemma ConstructorsWellFormed(artist: string, n: int, title: string, callNum: string, copies: Option<int>,
                               platform: Option<string>, players: Option<int>, year: string)
    ensures NewManga(artist, n, title, callNum, copies).Ok? ==> WellFormed(NewManga(artist, n, title, callNum, copies).value)
    ensures NewGame(artist, platform, players, title, callNum, copies).Ok? ==>
              WellFormed(NewGame(artist, platform, players, title, callNum, copies).value)
    ensures NewMovie(artist, year, title, callNum, copies).Ok? ==> WellFormed(NewMovie(artist, year, title, callNum, copies).value)
  {
  }

  // ----- Catalogue -----

  type Catalogue = seq<Item>

  /** `LibraryCatalogue.__init__`: no list and an empty list both give an
      empty catalogue; a non-empty list is taken as it is. */
  function NewCatalogue(itemList: Option<seq<Item>>): (r: Catalogue)
    ensures itemList.None? ==> r == []
    ensures itemList.Some? ==> r == itemList.value
  {
    if itemList.None? || |itemList.value| == 0 then [] else itemList.value
  }

  predicate Matches(it: Item, query: string) {
    query == it.base.title || query == it.base.callNumber
  }

  /** `find_items`: the items whose title or call number equals the query,
      in catalogue order. The catalogue is a value, so it is unchanged. */
  function FindItems(cat: Catalogue, query: string): (r: seq<Item>)
    ensures |r| <= |cat|
    ensures forall it :: it in r <==> it in cat && Matches(it, query)
  {
    if |cat| == 0 then []
    else
      var rest := FindItems(cat[1..], query);
      assert forall it :: it in cat[1..] ==> it in cat;
      assert forall it :: it in cat ==> it == cat[0] || it in cat[1..];
      if Matches(cat[0], query) then [cat[0]] + rest else rest
  }

  /** Searching a catalogue made of two parts finds the first part's
      matches, then the second's: the search keeps catalogue order. */
  lemma {:induction false} FindItemsAppend(a: Catalogue, b: Catalogue, query: string)
    ensures FindItems(a + b, query) == FindItems(a, query) + FindItems(b, query)
  {
    if |a| > 0 {
      assert (a + b)[1..] == a[1..] + b;
      FindItemsAppend(a[1..], b, query);
    } else {
      assert a + b == b;
    }
  }

  /** The search keeps every matching item as often as the catalogue holds
      it, and drops every other item. */
  lemma {:induction false} FindItemsCounts(cat: Catalogue, query: string, it: Item)
    ensures multiset(FindItems(cat, query))[it] == if Matches(it, query) then multiset(cat)[it] else 0
  {
    if |cat| > 0 {
      FindItemsCounts(cat[1..], query, it);
      assert cat == [cat[0]] + cat[1..];
    }
  }

  /** `load_items`: the produced items are appended in production order
      after the existing ones. */
  function LoadItems(cat: Catalogue, produced: seq<Item>): (r: Catalogue)
    ensures |r| == |cat| + |produced|
    ensures r[..|cat|] == cat && r[|cat|..] == produced
  {
    cat + produced
  }

  /** After loading, a search finds what it found before, followed by the
      new matches. */
  lemma FindAfterLoad(cat: Catalogue, produced: seq<Item>, query: string)
    ensures FindItems(LoadItems(cat, produced), query) == FindItems(cat, query) + FindItems(produced, query)
  {
    FindItemsAppend(cat, produced, query);
  }
}
