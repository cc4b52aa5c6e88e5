/** The access proxy in front of the movies table: it authenticates the user
    against the user-account rows, lets only administrators insert and
    delete, and answers searches from a key -> movie cache before asking
    the table. */
module MovieProxy {
  import opened Wrappers
  import PyDict
  import opened MovieDatabase

  datatype Access = Member | Admin

  datatype User = User(username: string, password: string, access: Access)

  /** One row of the user-account sheet, before its access type is parsed. */
  datatype UserRow = UserRow(username: string, password: string, accessType: string)

  datatype ProxyError = InvalidCredentials | Unauthorized | MissingKey(key: int)

  type Cache = PyDict.Dict<int, Movie>

  datatype Proxy = Proxy(user: User, cache: Cache, db: Table)

  /** `UserAccessEnum(value)`: only the two enum values parse. */
  function AccessOf(s: string): (r: Option<Access>)
    ensures r == Some(Member) <==> s == "member"
    ensures r == Some(Admin) <==> s == "admin"
  {
    if s == "member" then Some(Member) else if s == "admin" then Some(Admin) else None
  }

  /** A row builds a `User` (its access type parses) and carries the given
      credentials. A row that fails to build is skipped even when its
      credentials match. */
  predicate Accepts(row: UserRow, username: string, password: string) {
    AccessOf(row.accessType).Some? && row.username == username && row.password == password
  }

  /** `_authenticate_user`: the user of the first accepting row, in sheet
      order, or None. */
  function Authenticate(rows: seq<UserRow>, username: string, password: string): (r: Option<User>)
    ensures r.None? <==> forall i :: 0 <= i < |rows| ==> !Accepts(rows[i], username, password)
    ensures r.Some? ==> exists i :: && 0 <= i < |rows| && Accepts(rows[i], username, password)
                                    && (forall j :: 0 <= j < i ==> !Accepts(rows[j], username, password))
                                    && r.value == User(username, password, AccessOf(rows[i].accessType).value)
  {
    if |rows| == 0 then None
    else if Accepts(rows[0], username, password) then
      Some(User(username, password, AccessOf(rows[0].accessType).value))
    else
      var r := Authenticate(rows[1..], username, password);
      assert forall i :: 1 <= i < |rows| ==> rows[i] == rows[1..][i - 1];
      if r.Some? then
        var i :| && 0 <= i < |rows[1..]| && Accepts(rows[1..][i], username, password)
                 && (forall j :: 0 <= j < i ==> !Accepts(rows[1..][j], username, password))
                 && r.value == User(username, password, AccessOf(rows[1..][i].accessType).value);
        assert forall j :: 1 <= j < i + 1 ==> rows[j] == rows[1..][j - 1];
        r
      else r
  }

  /** The keys of a list of movies. */
  function MovieKeys(movies: seq<Movie>): set<int> {
    set m | m in movies :: m.key
  }

  /** `update_cache`: every movie is stored under its key, in order. */
  function UpdateCache(cache: Cache, movies: seq<Movie>): (r: Cache)
    requires PyDict.Wf(cache)
    ensures PyDict.Wf(r)
    decreases |movies|
  {
    if |movies| == 0 then cache
    else
      var n := |movies| - 1;
      PyDict.Put(UpdateCache(cache, movies[..n]), movies[n].key, movies[n])
  }

  /** Nothing is removed from the cache: its keys grow by exactly the
      movies' keys. */
  lemma {:induction false} UpdateCacheKeys(cache: Cache, movies: seq<Movie>)
    requires PyDict.Wf(cache)
    ensures PyDict.KeySet(UpdateCache(cache, movies)) == PyDict.KeySet(cache) + MovieKeys(movies)
    decreases |movies|
  {
    if |movies| > 0 {
      var n := |movies| - 1;
      UpdateCacheKeys(cache, movies[..n]);
      assert movies == movies[..n] + [movies[n]];
      assert MovieKeys(movies) == MovieKeys(movies[..n]) + {movies[n].key};
    }
  }

  /** A key none of the movies has keeps its cached movie, or its absence. */
  lemma {:induction false} UpdateCacheKeeps(cache: Cache, movies: seq<Movie>, k: int)
    requires PyDict.Wf(cache) && k !in MovieKeys(movies)
    ensures PyDict.Get(UpdateCache(cache, movies), k) == PyDict.Get(cache, k)
    decreases |movies|
  {
    if |movies| > 0 {
      var n := |movies| - 1;
      assert movies[n] in movies;
      assert MovieKeys(movies[..n]) <= MovieKeys(movies);
      UpdateCacheKeeps(cache, movies[..n], k);
    }
  }

  /** With unique keys, every movie ends up cached under its own key. */
  lemma {:induction false} UpdateCacheStores(cache: Cache, movies: seq<Movie>, m: Movie)
    requires PyDict.Wf(cache) && KeysUnique(movies) && m in movies
    ensures PyDict.Get(UpdateCache(cache, movies), m.key) == Some(m)
    decreases |movies|
  {
    var n := |movies| - 1;
    if m != movies[n] {
      assert movies == movies[..n] + [movies[n]];
      assert m in movies[..n];
      var i :| 0 <= i < n && movies[i] == m;
      assert m.key != movies[n].key;
      UpdateCacheStores(cache, movies[..n], m);
    }
  }

  /** Every cache entry afterwards was cached before or is one of the
      movies under its key. */
  lemma {:induction false} UpdateCacheEntries(cache: Cache, movies: seq<Movie>)
    requires PyDict.Wf(cache)
    ensures forall e :: e in UpdateCache(cache, movies) ==> e in cache || (e.1 in movies && e.0 == e.1.key)
    decreases |movies|
  {
    if |movies| > 0 {
      var n := |movies| - 1;
      UpdateCacheEntries(cache, movies[..n]);
      assert forall m :: m in movies[..n] ==> m in movies;
      assert movies[n] in movies;
    }
  }

  /** `MovieDatabaseProxy.__init__`: credentials that no row accepts raise;
      otherwise the cache starts filled with the whole table. */
  function NewProxy(rows: seq<UserRow>, username: string, password: string, db: Table): (r: Result<Proxy, ProxyError>)
    ensures r.Err? <==> Authenticate(rows, username, password).None?
    ensures r.Err? ==> r.error == InvalidCredentials
    ensures r.Ok? ==> && r.value.user == Authenticate(rows, username, password).value
                      && r.value.db == db && PyDict.Wf(r.value.cache)
                      && r.value.cache == UpdateCache([], db)
  {
    match Authenticate(rows, username, password)
    case None => Err(InvalidCredentials)
    case Some(user) => Ok(Proxy(user, UpdateCache([], db), db))
  }

  /** The proxy's standing invariant: the cache is a well-formed dict. */
  predicate Valid(p: Proxy) {
    PyDict.Wf(p.cache)
  }

  /** `insert` as written: a member is refused before anything changes; for
      an administrator the table gains the row and the cache stores whatever
      movie the table's `insert` hands back, under that movie's key. That
      movie is the first row sharing a field with the new one, which may be
      an older row. */
  function InsertAsWritten(p: Proxy, m: Movie): (r: (Proxy, Result<Movie, ProxyError>))
    requires Valid(p)
    ensures Valid(r.0)
    ensures p.user.access != Admin ==> r == (p, Err(Unauthorized))
    ensures p.user.access == Admin ==>
              && r.0.db == p.db + [m.(key := NextKey(p.db))]
              && r.0.user == p.user
              && r.1.Ok? && r.1.value in r.0.db && MatchesAny(r.1.value, QueryOf(m))
              && (MovieDatabase.Search(p.db, QueryOf(m)) == [] ==> r.1.value == m.(key := NextKey(p.db)))
              && (MovieDatabase.Search(p.db, QueryOf(m)) != [] ==> r.1.value == MovieDatabase.Search(p.db, QueryOf(m))[0])
              && PyDict.Get(r.0.cache, r.1.value.key) == Some(r.1.value)
              && PyDict.KeySet(r.0.cache) == PyDict.KeySet(p.cache) + {r.1.value.key}
  {
    if p.user.access != Admin then (p, Err(Unauthorized))
    else
      var (db', movie) := MovieDatabase.InsertAsWritten(p.db, m);
      InsertReturnsMatch(p.db, m);
      assert db' == p.db + [db'[|p.db|]];
      (p.(db := db', cache := PyDict.Put(p.cache, movie.key, movie)), Ok(movie))
  }

  /** Through the proxy as written, inserting "Gladiator" next to an older
      "Alien" by the same director returns the Alien row and caches it again
      under key 1; the new row, stored under key 2, is never cached. */
  lemma ProxyInsertCachesOlderRow()
    ensures var older := Movie(1, "Alien", "Scott", "en", 1979);
            var p := Proxy(User("root", "pw", Admin), [(1, older)], [older]);
            var r := InsertAsWritten(p, Movie(0, "Gladiator", "Scott", "en", 2000));
            && r.1 == Ok(older)
            && r.0.db == [older, Movie(2, "Gladiator", "Scott", "en", 2000)]
            && PyDict.Get(r.0.cache, 2) == None
  {
    var older := Movie(1, "Alien", "Scott", "en", 1979);
    var m := Movie(0, "Gladiator", "Scott", "en", 2000);
    assert MovieDatabase.Search([older], QueryOf(m)) == [older];
    assert NextKey([older]) == 2;
    var p := Proxy(User("root", "pw", Admin), [(1, older)], [older]);
    assert PyDict.KeySet(InsertAsWritten(p, m).0.cache) == {1};
  }

  /** `insert` as its documentation promises, on the corrected
      `MovieDatabase.Insert`: an administrator's call stores the new row
      under a fresh key, caches it and hands it back. */
  function Insert(p: Proxy, m: Movie): (r: (Proxy, Result<Movie, ProxyError>))
    requires Valid(p)
    ensures Valid(r.0)
    ensures p.user.access != Admin ==> r == (p, Err(Unauthorized))
    ensures p.user.access == Admin ==> && r.1 == Ok(m.(key := NextKey(p.db)))
                                       && r.0.db == MovieDatabase.Insert(p.db, m).0
                                       && r.0.user == p.user
                                       && PyDict.Get(r.0.cache, r.1.value.key) == Some(r.1.value)
                                       && PyDict.KeySet(r.0.cache) == PyDict.KeySet(p.cache) + {r.1.value.key}
  {
    if p.user.access != Admin then (p, Err(Unauthorized))
    else
      var (db', movie) := MovieDatabase.Insert(p.db, m);
      (p.(db := db', cache := PyDict.Put(p.cache, movie.key, movie)), Ok(movie))
  }

  /** The two readings of the proxy's `insert` give the same proxy and the
      same answer exactly when the caller is no administrator or no earlier
      row shares a field with the new movie. */
  lemma ProxyInsertsAgree(p: Proxy, m: Movie)
    requires Valid(p)
    ensures InsertAsWritten(p, m) == Insert(p, m) <==>
              p.user.access != Admin || MovieDatabase.Search(p.db, QueryOf(m)) == []
  {
    if p.user.access == Admin {
      InsertAgreesWithoutMatch(p.db, m);
    }
  }

  /** `delete`: a member is refused before anything changes. For an
      administrator the row leaves the table first; then the key leaves the
      cache, and a key that was not cached raises with the row already
      gone. */
  function Delete(p: Proxy, key: int): (r: (Proxy, Option<ProxyError>))
    requires Valid(p)
    ensures Valid(r.0)
    ensures p.user.access != Admin ==> r == (p, Some(Unauthorized))
    ensures p.user.access == Admin ==> && r.0.db == MovieDatabase.Delete(p.db, key)
                                       && r.0.user == p.user
                                       && PyDict.Get(r.0.cache, key) == None
                                       && PyDict.KeySet(r.0.cache) == PyDict.KeySet(p.cache) - {key}
                                       && (r.1.Some? <==> key !in PyDict.KeySet(p.cache))
                                       && (r.1.Some? ==> r.1.value == MissingKey(key))
  {
    if p.user.access != Admin then (p, Some(Unauthorized))
    else
      var p' := p.(db := MovieDatabase.Delete(p.db, key));
      if key in PyDict.KeySet(p.cache) then (p'.(cache := PyDict.Remove(p.cache, key)), None)
      else (p', Some(MissingKey(key)))
  }

  /** `view`: a non-empty cache is returned as it is; an empty one is first
      refilled from the table. Either way the answer is the cache's values. */
  function View(p: Proxy): (r: (seq<Movie>, Proxy))
    requires Valid(p)
    ensures Valid(r.1) && r.1.db == p.db && r.1.user == p.user
    ensures r.0 == PyDict.Values(r.1.cache)
    ensures |p.cache| > 0 ==> r.1 == p
    ensures |p.cache| == 0 ==> r.1.cache == UpdateCache([], p.db)
  {
    var p' := if |p.cache| == 0 then p.(cache := UpdateCache([], p.db)) else p;
    (PyDict.Values(p'.cache), p')
  }

  /** Viewing through an empty cache lists exactly the table's movies. */
  lemma {:induction false} ViewRefills(p: Proxy)
    requires Valid(p) && |p.cache| == 0 && KeysUnique(p.db)
    ensures forall m :: m in View(p).0 <==> m in p.db
  {
    var (movies, p') := View(p);
    PyDict.KeysValuesLength(p'.cache);
    UpdateCacheEntries([], p.db);
    forall m | m in p.db ensures m in movies {
      UpdateCacheStores([], p.db, m);
      assert (m.key, m) in p'.cache;
      var i :| 0 <= i < |p'.cache| && p'.cache[i] == (m.key, m);
      assert movies[i] == m;
    }
    forall m | m in movies ensures m in p.db {
      var i :| 0 <= i < |movies| && movies[i] == m;
      assert p'.cache[i] in p'.cache;
    }
  }

  /** The cached movies matching the query, in cache order. */
  function CacheHits(cache: Cache, q: Query): (r: seq<Movie>)
    ensures forall m :: m in r <==> m in PyDict.Values(cache) && MatchesAny(m, q)
  {
    MovieDatabase.Search(PyDict.Values(cache), q)
  }

  /** `search`: cached matches are returned without asking the table; only
      when there are none is the table searched, and its answers are merged
      into the cache. */
  function Search(p: Proxy, q: Query): (r: (seq<Movie>, Proxy))
    requires Valid(p)
    ensures Valid(r.1) && r.1.db == p.db && r.1.user == p.user
    ensures forall m :: m in r.0 ==> MatchesAny(m, q)
    ensures CacheHits(p.cache, q) != [] ==> r == (CacheHits(p.cache, q), p)
    ensures CacheHits(p.cache, q) == [] ==> && r.0 == MovieDatabase.Search(p.db, q)
                                            && r.1.cache == UpdateCache(p.cache, r.0)
                                            && PyDict.KeySet(p.cache) <= PyDict.KeySet(r.1.cache)
  {
    var hits := CacheHits(p.cache, q);
    if |hits| > 0 then (hits, p)
    else
      var found := MovieDatabase.Search(p.db, q);
      UpdateCacheKeys(p.cache, found);
      (found, p.(cache := UpdateCache(p.cache, found)))
  }

  /** After a search that reached the table, every movie it returned is
      cached under its key. */
  lemma SearchCaches(p: Proxy, q: Query)
    requires Valid(p) && KeysUnique(p.db) && CacheHits(p.cache, q) == []
    ensures forall m :: m in Search(p, q).0 ==> PyDict.Get(Search(p, q).1.cache, m.key) == Some(m)
  {
    SearchUnique(p.db, q);
    forall m | m in Search(p, q).0 ensures PyDict.Get(Search(p, q).1.cache, m.key) == Some(m) {
      UpdateCacheStores(p.cache, Search(p, q).0, m);
    }
  }

  /** Search results inherit unique keys from the table. */
  lemma {:induction false} SearchUnique(t: Table, q: Query)
    requires KeysUnique(t)
    ensures KeysUnique(MovieDatabase.Search(t, q))
  {
    if |t| > 0 {
      SearchUnique(t[1..], q);
      assert forall m :: m in MovieDatabase.Search(t[1..], q) ==> m in t[1..];
      assert forall m :: m in t[1..] ==> m.key != t[0].key;
    }
  }
}
