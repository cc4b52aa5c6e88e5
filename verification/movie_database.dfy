/** The movies table behind the proxy, abstracted from SQLite: rows in
    insertion order, each with an integer primary key, searched by an OR of
    field equalities. */
module MovieDatabase {
  import opened Wrappers

  datatype Movie = Movie(key: int, title: string, director: string, language: string, releaseYear: int)

  /** Search arguments. A release year left at its default `""` never equals
      an integer column, so it is `None` here. */
  datatype Query = Query(title: string, director: string, language: string, releaseYear: Option<int>)

  type Table = seq<Movie>

  /** `WHERE title=? OR director=? OR language=? OR release_year=?`. */
  predicate MatchesAny(m: Movie, q: Query) {
    || m.title == q.title || m.director == q.director || m.language == q.language
    || (q.releaseYear.Some? && m.releaseYear == q.releaseYear.value)
  }

  /** The query `insert` issues to read a new movie back. */
  function QueryOf(m: Movie): Query {
    Query(m.title, m.director, m.language, Some(m.releaseYear))
  }

  /** The primary key is unique across rows. */
  predicate KeysUnique(t: Table) {
    forall i, j :: 0 <= i < j < |t| ==> t[i].key != t[j].key
  }

  /** The key SQLite gives a new row of an `INTEGER PRIMARY KEY` table: one
      more than the largest key, or 1 in an empty table. */
  function NextKey(t: Table): (r: int)
    ensures r >= 1
    ensures forall m :: m in t ==> m.key < r
  {
    if |t| == 0 then 1
    else
      var rest := NextKey(t[1..]);
      assert forall m :: m in t ==> m == t[0] || m in t[1..];
      if t[0].key + 1 > rest then t[0].key + 1 else rest
  }

  /** `search`: the matching rows, in table order. */
  function Search(t: Table, q: Query): (r: seq<Movie>)
    ensures |r| <= |t|
    ensures forall m :: m in r <==> m in t && MatchesAny(m, q)
  {
    if |t| == 0 then []
    else
      var rest := Search(t[1..], q);
      assert forall m :: m in t ==> m == t[0] || m in t[1..];
      if MatchesAny(t[0], q) then [t[0]] + rest else rest
  }

  /** Searching a longer table finds the earlier rows' matches first. */
  lemma {:induction false} SearchAppend(a: Table, b: Table, q: Query)
    ensures Search(a + b, q) == Search(a, q) + Search(b, q)
  {
    if |a| > 0 {
      assert (a + b)[1..] == a[1..] + b;
      SearchAppend(a[1..], b, q);
    } else {
      assert a + b == b;
    }
  }

  /** `insert` as written: the row is added with a fresh key, and what
      comes back is the FIRST row matching any one field of the movie, which
      is an older row whenever one shares a title, director, language or
      year. */
  function InsertAsWritten(t: Table, m: Movie): (r: (Table, Movie))
    ensures |r.0| == |t| + 1 && r.0[..|t|] == t
    ensures r.0[|t|] == m.(key := NextKey(t))
    ensures Search(t, QueryOf(m)) == [] ==> r.1 == r.0[|t|]
    ensures Search(t, QueryOf(m)) != [] ==> r.1 == Search(t, QueryOf(m))[0]
  {
    var row := m.(key := NextKey(t));
    var t' := t + [row];
    SearchAppend(t, [row], QueryOf(m));
    assert Search([row], QueryOf(m)) == [row];
    (t', Search(t', QueryOf(m))[0])
  }

  /** The movie `insert` as written hands back is a row of the table that
      matches the new movie on some field; a fresh table gives back the new
      row. */
  lemma InsertReturnsMatch(t: Table, m: Movie)
    ensures InsertAsWritten(t, m).1 in InsertAsWritten(t, m).0
    ensures MatchesAny(InsertAsWritten(t, m).1, QueryOf(m))
    ensures t == [] ==> InsertAsWritten(t, m).1 == m.(key := 1)
  {
    var r := InsertAsWritten(t, m);
    assert r.0 == t + [r.0[|t|]];
    if Search(t, QueryOf(m)) != [] {
      assert Search(t, QueryOf(m))[0] in Search(t, QueryOf(m));
    }
  }

  /** An older row sharing only the director and language is what `insert`
      as written returns, instead of the movie just stored. */
  lemma InsertMayReturnOlderRow()
    ensures var older := Movie(1, "Alien", "Scott", "en", 1979);
            var r := InsertAsWritten([older], Movie(0, "Gladiator", "Scott", "en", 2000));
            r.1 == older && r.0[1] == Movie(2, "Gladiator", "Scott", "en", 2000) && r.1 != r.0[1]
  {
    var older := Movie(1, "Alien", "Scott", "en", 1979);
    assert Search([older], QueryOf(Movie(0, "Gladiator", "Scott", "en", 2000))) == [older];
  }

  /** `insert` as its documentation promises: the row is added with a fresh
      key and the movie handed back is that new row, which no earlier row
      is. */
  function Insert(t: Table, m: Movie): (r: (Table, Movie))
    ensures |r.0| == |t| + 1 && r.0[..|t|] == t && r.0[|t|] == r.1
    ensures r.1 == m.(key := NextKey(t)) && r.1 !in t
    ensures KeysUnique(t) ==> KeysUnique(r.0)
  {
    var row := m.(key := NextKey(t));
    (t + [row], row)
  }

  /** The two readings store the same table, and hand back the same movie
      exactly when no earlier row shares a field with the new one. */
  lemma InsertAgreesWithoutMatch(t: Table, m: Movie)
    ensures InsertAsWritten(t, m).0 == Insert(t, m).0
    ensures InsertAsWritten(t, m).1 == Insert(t, m).1 <==> Search(t, QueryOf(m)) == []
  {
    var s := Search(t, QueryOf(m));
    assert InsertAsWritten(t, m).0 == t + [m.(key := NextKey(t))];
    if s != [] {
      assert s[0] in s;
    }
  }

  /** `delete`: every row with the key goes, every other row stays, in
      order. */
  function Delete(t: Table, key: int): (r: Table)
    ensures forall m :: m in r <==> m in t && m.key != key
    ensures |r| <= |t|
    ensures KeysUnique(t) ==> KeysUnique(r)
  {
    if |t| == 0 then []
    else
      var rest := Delete(t[1..], key);
      assert forall m :: m in t ==> m == t[0] || m in t[1..];
      if t[0].key == key then rest
      else
        assert KeysUnique(t) ==> forall m :: m in rest ==> m.key != t[0].key;
        [t[0]] + rest
  }
}
