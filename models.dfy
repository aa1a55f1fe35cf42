/** The declared data model of the `content` schema (movies/models.py):
    the five entities, the film type choices, the field validators, the
    unique and foreign-key constraints, and the display helpers. */
module Models {
  import opened Wrappers

  /** A primary key of `UUIDMixin`: a 128-bit identifier. */
  type Uuid = n: nat | n < 0x1_0000_0000_0000_0000_0000_0000_0000_0000

  /** `created` / `modified` instants and `creation_date` days, kept abstract. */
  type Timestamp = int
  type Date = int

  // ---------------------------------------------------------------------------
  // Entities
  // ---------------------------------------------------------------------------

  datatype Genre = Genre(id: Uuid, name: string, description: string,
                         created: Timestamp, modified: Timestamp)
  {
    /** `Genre.__str__` */
    function Str(): string { name }
  }

  datatype Person = Person(id: Uuid, fullName: string,
                           created: Timestamp, modified: Timestamp)
  {
    /** `Person.__str__` */
    function Str(): string { fullName }
  }

  /** `Filmwork.FilmType`: the text choices of the `type` column. */
  datatype FilmType = Movie | TvShow
  {
    /** The stored value of the choice. */
    function Value(): string {
      match this
      case Movie => "movie"
      case TvShow => "tv_show"
    }
  }

  /** `max_length` of the `type` column. */
  const TypeMaxLength: nat := 7

  /** The bounds of `MinValueValidator(0)` and `MaxValueValidator(100)` on `rating`. */
  const RatingMin: real := 0.0
  const RatingMax: real := 100.0

  /** `creation_date` and `rating` are declared `blank=True` but not `null=True`,
      so the columns are NOT NULL; `filmType` is the raw `type` text, which the
      database does not restrict to the choices. */
  datatype Filmwork = Filmwork(id: Uuid, title: string, description: string,
                               creationDate: Date, rating: real, filmType: string,
                               created: Timestamp, modified: Timestamp)
  {
    /** `Filmwork.__str__` */
    function Str(): string { title }
  }

  /** A join row of `Filmwork.persons`: no `modified`, and `role` may be NULL. */
  datatype PersonFilmwork = PersonFilmwork(id: Uuid, filmWork: Uuid, person: Uuid,
                                           role: Option<string>, created: Timestamp)

  /** A join row of `Filmwork.genres`: no `modified`, no role. */
  datatype GenreFilmwork = GenreFilmwork(id: Uuid, filmWork: Uuid, genre: Uuid,
                                         created: Timestamp)

  /** The five tables of the schema. */
  datatype Table = GenreTable | PersonTable | FilmworkTable | PersonFilmworkTable | GenreFilmworkTable

  /** The table name inside the `content` schema. */
  function TableName(t: Table): string {
    match t
    case GenreTable => "genre"
    case PersonTable => "person"
    case FilmworkTable => "film_work"
    case PersonFilmworkTable => "person_film_work"
    case GenreFilmworkTable => "genre_film_work"
  }

  /** `Meta.db_table`: the schema and table written with the inner quotes that
      make Django emit a schema-qualified name. */
  function DbTable(t: Table): string {
    "content\".\"" + TableName(t)
  }

  /** How the PostgreSQL backend quotes a table name in SQL. */
  function QuoteName(s: string): string {
    "\"" + s + "\""
  }

  /** The tables a table's `ForeignKey` fields point at. */
  function ForeignKeyTargets(t: Table): set<Table> {
    match t
    case PersonFilmworkTable => {FilmworkTable, PersonTable}
    case GenreFilmworkTable => {FilmworkTable, GenreTable}
    case _ => {}
  }

  // ---------------------------------------------------------------------------
  // Field validation
  // ---------------------------------------------------------------------------

  /** Validation of a `type` value against `FilmType.choices`. */
  function ParseFilmType(s: string): (r: Option<FilmType>)
    ensures r.Some? ==> r.value.Value() == s
    ensures r.None? ==> s != "movie" && s != "tv_show"
  {
    if s == "movie" then Some(Movie)
    else if s == "tv_show" then Some(TvShow)
    else None
  }

  /** The two validators on `rating`, both inclusive. */
  predicate RatingValid(r: real) {
    RatingMin <= r <= RatingMax
  }

  /** The `type` column: at most `max_length` characters and one of the choices. */
  predicate FilmTypeValid(s: string) {
    |s| <= TypeMaxLength && ParseFilmType(s).Some?
  }

  predicate FilmworkValid(f: Filmwork) {
    RatingValid(f.rating) && FilmTypeValid(f.filmType)
  }

  // ---------------------------------------------------------------------------
  // The tables' contents and their constraints
  // ---------------------------------------------------------------------------

  /** The rows of the five tables. */
  datatype Content = Content(genres: seq<Genre>, persons: seq<Person>, filmworks: seq<Filmwork>,
                             personFilmworks: seq<PersonFilmwork>, genreFilmworks: seq<GenreFilmwork>)

  function GenreIds(gs: seq<Genre>): set<Uuid> { set g | g in gs :: g.id }
  function PersonIds(ps: seq<Person>): set<Uuid> { set p | p in ps :: p.id }
  function FilmworkIds(fs: seq<Filmwork>): set<Uuid> { set f | f in fs :: f.id }

  /** The `primary_key=True` of `UUIDMixin`, on every table. */
  predicate PrimaryKeysUnique(c: Content) {
    && (forall i, j :: 0 <= i < j < |c.genres| ==> c.genres[i].id != c.genres[j].id)
    && (forall i, j :: 0 <= i < j < |c.persons| ==> c.persons[i].id != c.persons[j].id)
    && (forall i, j :: 0 <= i < j < |c.filmworks| ==> c.filmworks[i].id != c.filmworks[j].id)
    && (forall i, j :: 0 <= i < j < |c.personFilmworks| ==> c.personFilmworks[i].id != c.personFilmworks[j].id)
    && (forall i, j :: 0 <= i < j < |c.genreFilmworks| ==> c.genreFilmworks[i].id != c.genreFilmworks[j].id)
  }

  /** `Genre.name` is declared `unique=True`. */
  predicate GenreNamesUnique(gs: seq<Genre>) {
    forall i, j :: 0 <= i < j < |gs| ==> gs[i].name != gs[j].name
  }

  /** Two rows break `film_work_person_idx` on (film_work, person, role).
      PostgreSQL treats NULLs as distinct in a unique constraint, so a row
      whose role is NULL conflicts with no other row. */
  predicate CreditsConflict(a: PersonFilmwork, b: PersonFilmwork) {
    && a.filmWork == b.filmWork && a.person == b.person
    && a.role.Some? && b.role.Some? && a.role.value == b.role.value
  }

  /** Two rows break `genre_film_work_unique_idx` on (film_work, genre). */
  predicate GenreLinksConflict(a: GenreFilmwork, b: GenreFilmwork) {
    a.filmWork == b.filmWork && a.genre == b.genre
  }

  predicate CreditsUnique(ls: seq<PersonFilmwork>) {
    forall i, j :: 0 <= i < j < |ls| ==> !CreditsConflict(ls[i], ls[j])
  }

  predicate GenreLinksUnique(ls: seq<GenreFilmwork>) {
    forall i, j :: 0 <= i < j < |ls| ==> !GenreLinksConflict(ls[i], ls[j])
  }

  /** Every `ForeignKey` of a join row names an existing row. */
  predicate ReferencesResolve(c: Content) {
    && (forall l :: l in c.personFilmworks ==>
          l.filmWork in FilmworkIds(c.filmworks) && l.person in PersonIds(c.persons))
    && (forall l :: l in c.genreFilmworks ==>
          l.filmWork in FilmworkIds(c.filmworks) && l.genre in GenreIds(c.genres))
  }

  /** Every film work passes its field validators. */
  predicate FilmworksValid(fs: seq<Filmwork>) {
    forall f :: f in fs ==> FilmworkValid(f)
  }

  /** The constraints the database enforces: primary keys, unique fields and
      unique constraints, foreign keys, and the `varchar(7)` width that
      `max_length` gives the `type` column. Rows inserted without model
      validation still meet these. */
  predicate ConstraintsHold(c: Content) {
    && (forall f :: f in c.filmworks ==> |f.filmType| <= TypeMaxLength)
    && PrimaryKeysUnique(c)
    && GenreNamesUnique(c.genres)
    && CreditsUnique(c.personFilmworks)
    && GenreLinksUnique(c.genreFilmworks)
    && ReferencesResolve(c)
  }

  /** All constraints the schema declares. Of `FilmworksValid`, the choices
      of `type` and the 0-100 range of `rating` are checked only by model
      validation (`full_clean`), not by the database. */
  predicate Valid(c: Content) {
    ConstraintsHold(c) && FilmworksValid(c.filmworks)
  }

  // ---------------------------------------------------------------------------
  // Display helpers
  // ---------------------------------------------------------------------------

  /** `sep.join(xs)`: the elements with one separator between each pair. */
  function Join(sep: string, xs: seq<string>): (r: string)
    ensures |xs| == 0 ==> r == ""
    ensures |xs| > 0 ==> |r| == TotalLength(xs) + |sep| * (|xs| - 1)
    decreases |xs|
  {
    if |xs| == 0 then ""
    else if |xs| == 1 then xs[0]
    else xs[0] + sep + Join(sep, xs[1..])
  }

  /** The total length of the strings in `xs`. */
  function TotalLength(xs: seq<string>): nat
    decreases |xs|
  {
    if xs == [] then 0 else |xs[0]| + TotalLength(xs[1..])
  }

  // The keys of the rows, as functions, so that one lookup and one join serve
  // both many-to-many relations.
  function GenreKey(g: Genre): Uuid { g.id }
  function PersonKey(p: Person): Uuid { p.id }
  function LinkFilm(l: GenreFilmwork): Uuid { l.filmWork }
  function LinkGenre(l: GenreFilmwork): Uuid { l.genre }
  function CreditFilm(l: PersonFilmwork): Uuid { l.filmWork }
  function CreditPerson(l: PersonFilmwork): Uuid { l.person }

  /** The rows of `xs` whose key is `id`, in table order. */
  function WithKey<T>(xs: seq<T>, key: T -> Uuid, id: Uuid): (r: seq<T>)
    ensures forall x :: x in r ==> x in xs && key(x) == id
    decreases |xs|
  {
    if xs == [] then []
    else (if key(xs[0]) == id then [xs[0]] else []) + WithKey(xs[1..], key, id)
  }

  /** The join rows of `links` whose film is `fid`, in join-table order. */
  function LinksFor<L(!new)>(fid: Uuid, links: seq<L>, film: L -> Uuid): (r: seq<L>)
    ensures forall l :: l in r <==> l in links && film(l) == fid
    decreases |links|
  {
    if links == [] then []
    else (if film(links[0]) == fid then [links[0]] else []) + LinksFor(fid, links[1..], film)
  }

  /** A many-to-many `.all()` through a join table: the inner join of the join
      rows of film `fid` with the rows of `xs`, one entry per join row, in
      join-table order. */
  function Related<L, T>(fid: Uuid, links: seq<L>, film: L -> Uuid, target: L -> Uuid,
                         xs: seq<T>, key: T -> Uuid): seq<T>
    decreases |links|
  {
    if links == [] then []
    else (if film(links[0]) == fid then WithKey(xs, key, target(links[0])) else [])
         + Related(fid, links[1..], film, target, xs, key)
  }

  /** `self.genres.all()` */
  function GenresOf(fid: Uuid, gs: seq<Genre>, links: seq<GenreFilmwork>): seq<Genre> {
    Related(fid, links, LinkFilm, LinkGenre, gs, GenreKey)
  }

  /** `self.persons.all()` */
  function PersonsOf(fid: Uuid, ps: seq<Person>, credits: seq<PersonFilmwork>): seq<Person> {
    Related(fid, credits, CreditFilm, CreditPerson, ps, PersonKey)
  }

  /** The genre links of film `fid`. */
  function LinksOf(fid: Uuid, links: seq<GenreFilmwork>): seq<GenreFilmwork> {
    LinksFor(fid, links, LinkFilm)
  }

  /** The credits of film `fid`. */
  function CreditsOf(fid: Uuid, credits: seq<PersonFilmwork>): seq<PersonFilmwork> {
    LinksFor(fid, credits, CreditFilm)
  }

  function GenreNames(gs: seq<Genre>): seq<string> {
    seq(|gs|, i requires 0 <= i < |gs| => gs[i].Str())
  }

  function PersonNames(ps: seq<Person>): seq<string> {
    seq(|ps|, i requires 0 <= i < |ps| => ps[i].Str())
  }

  /** `Filmwork.get_genres`: empty for a film without genres, otherwise it
      starts with the first genre's name and ends with the last one's. */
  function GetGenres(f: Filmwork, c: Content): (r: string)
    ensures var gs := GenresOf(f.id, c.genres, c.genreFilmworks);
            && (gs == [] ==> r == "")
            && (gs != [] ==> gs[0].name <= r && |gs[|gs| - 1].name| <= |r|
                             && r[|r| - |gs[|gs| - 1].name|..] == gs[|gs| - 1].name)
  {
    var names := GenreNames(GenresOf(f.id, c.genres, c.genreFilmworks));
    if names == [] then Join(", ", names) else JoinEnds(", ", names); Join(", ", names)
  }

  /** `Filmwork.get_persons`: empty for a film without credits, otherwise it
      starts with the first person's name and ends with the last one's. */
  function GetPersons(f: Filmwork, c: Content): (r: string)
    ensures var ps := PersonsOf(f.id, c.persons, c.personFilmworks);
            && (ps == [] ==> r == "")
            && (ps != [] ==> ps[0].fullName <= r && |ps[|ps| - 1].fullName| <= |r|
                             && r[|r| - |ps[|ps| - 1].fullName|..] == ps[|ps| - 1].fullName)
  {
    var names := PersonNames(PersonsOf(f.id, c.persons, c.personFilmworks));
    if names == [] then Join(", ", names) else JoinEnds(", ", names); Join(", ", names)
  }

  // ---------------------------------------------------------------------------
  // Lemmas
  // ---------------------------------------------------------------------------

  /** Parsing a `type` value and storing a choice are inverse to each other. */
  lemma ParseFilmTypeInverse(s: string, t: FilmType)
    ensures ParseFilmType(s) == Some(t) <==> t.Value() == s
    ensures ParseFilmType(t.Value()) == Some(t)
  {
  }

  /** Both choices fit `max_length=7`; "tv_show" fills it exactly. */
  lemma ChoicesFitMaxLength(t: FilmType)
    ensures FilmTypeValid(t.Value())
    ensures |TvShow.Value()| == TypeMaxLength
  {
  }

  /** A `type` passes validation exactly when it is one of the two choices. */
  lemma FilmTypeValidIffChoice(s: string)
    ensures FilmTypeValid(s) <==> (s == Movie.Value() || s == TvShow.Value())
  {
  }

  /** Both bounds of the rating range are admitted, and nothing outside them. */
  lemma RatingRangeInclusive(r: real)
    ensures RatingValid(r) <==> 0.0 <= r && r <= 100.0
    ensures RatingValid(RatingMin) && RatingValid(RatingMax)
  {
  }

  /** With unique genre names, `__str__` identifies a genre: two genres of a
      valid table that display the same are the same row. */
  lemma GenreStrIdentifies(gs: seq<Genre>, i: nat, j: nat)
    requires GenreNamesUnique(gs)
    requires i < |gs| && j < |gs|
    ensures gs[i].Str() == gs[j].Str() <==> i == j
  {
  }

  /** Two credits of one person on one film with a NULL role never conflict,
      so PostgreSQL admits both. */
  lemma NullRoleCreditsCoexist(a: PersonFilmwork, b: PersonFilmwork)
    requires a.filmWork == b.filmWork && a.person == b.person
    requires a.role.None? || b.role.None?
    ensures CreditsUnique([a, b])
  {
  }

  /** Credits with the same non-NULL role on the same film and person break the constraint. */
  lemma SameRoleCreditsConflict(a: PersonFilmwork, b: PersonFilmwork)
    requires a.filmWork == b.filmWork && a.person == b.person && a.role == b.role && a.role.Some?
    ensures !CreditsUnique([a, b])
  {
    assert CreditsConflict([a, b][0], [a, b][1]);
  }

  /** Each join table points only at film works and at its own parent table,
      and the three entity tables point at nothing. */
  lemma ForeignKeysOfJoinTables(t: Table)
    ensures FilmworkTable in ForeignKeyTargets(t) <==> t in {PersonFilmworkTable, GenreFilmworkTable}
    ensures PersonFilmworkTable !in ForeignKeyTargets(t) && GenreFilmworkTable !in ForeignKeyTargets(t)
  {
  }

  /** Django's `db_table` trick yields the schema-qualified name `"content"."<name>"`. */
  lemma DbTableIsSchemaQualified(t: Table)
    ensures QuoteName(DbTable(t)) == QuoteName("content") + "." + QuoteName(TableName(t))
  {
  }

  // Join

  lemma {:induction false} JoinEmptyAndSingle(sep: string, x: string)
    ensures Join(sep, []) == ""
    ensures Join(sep, [x]) == x
  {
  }

  /** Appending one element to a non-empty list adds one separator and that element. */
  lemma {:induction false} JoinAppend(sep: string, xs: seq<string>, x: string)
    requires |xs| > 0
    ensures Join(sep, xs + [x]) == Join(sep, xs) + sep + x
    decreases |xs|
  {
    if |xs| == 1 {
      assert xs + [x] == [xs[0], x];
      assert [xs[0], x][1..] == [x];
    } else {
      assert (xs + [x])[1..] == xs[1..] + [x];
      JoinAppend(sep, xs[1..], x);
    }
  }

  /** A non-empty join starts with the first element and ends with the last:
      no separator is added before the first or after the last element. */
  lemma {:induction false} JoinEnds(sep: string, xs: seq<string>)
    requires |xs| > 0
    ensures xs[0] <= Join(sep, xs)
    ensures |xs[|xs| - 1]| <= |Join(sep, xs)|
    ensures Join(sep, xs)[|Join(sep, xs)| - |xs[|xs| - 1]|..] == xs[|xs| - 1]
    decreases |xs|
  {
    if |xs| > 1 {
      JoinEnds(sep, xs[1..]);
      var rest := Join(sep, xs[1..]);
      var last := xs[|xs| - 1];
      assert xs[1..][|xs[1..]| - 1] == last;
      var whole := xs[0] + sep + rest;
      assert whole[|whole| - |last|..] == rest[|rest| - |last|..];
    }
  }

  // get_genres / get_persons

  lemma {:induction false} NoLinksNothingRelated<L, T>(fid: Uuid, links: seq<L>, film: L -> Uuid, target: L -> Uuid,
                                                       xs: seq<T>, key: T -> Uuid)
    requires forall l :: l in links ==> film(l) != fid
    ensures Related(fid, links, film, target, xs, key) == []
    decreases |links|
  {
    if links != [] {
      assert links[0] in links;
      NoLinksNothingRelated(fid, links[1..], film, target, xs, key);
    }
  }

  /** A film without genre links or credits displays an empty string. */
  lemma DisplayOfUnlinkedFilm(f: Filmwork, c: Content)
    requires forall l :: l in c.genreFilmworks ==> l.filmWork != f.id
    requires forall l :: l in c.personFilmworks ==> l.filmWork != f.id
    ensures GetGenres(f, c) == ""
    ensures GetPersons(f, c) == ""
  {
    NoLinksNothingRelated(f.id, c.genreFilmworks, LinkFilm, LinkGenre, c.genres, GenreKey);
    NoLinksNothingRelated(f.id, c.personFilmworks, CreditFilm, CreditPerson, c.persons, PersonKey);
  }

  /** With unique keys, looking up a key some row has finds exactly one row,
      the one with that key. */
  lemma {:induction false} UniqueKeyFindsOne<T>(xs: seq<T>, key: T -> Uuid, id: Uuid)
    requires forall i, j :: 0 <= i < j < |xs| ==> key(xs[i]) != key(xs[j])
    requires exists x :: x in xs && key(x) == id
    ensures |WithKey(xs, key, id)| == 1
    ensures WithKey(xs, key, id)[0] in xs && key(WithKey(xs, key, id)[0]) == id
    decreases |xs|
  {
    if key(xs[0]) == id {
      MissingKeyFindsNone(xs[1..], key, id);
    } else {
      assert exists x :: x in xs[1..] && key(x) == id by {
        var x :| x in xs && key(x) == id;
        assert x != xs[0];
        assert x in xs[1..];
      }
      assert forall i, j :: 0 <= i < j < |xs[1..]| ==> key(xs[1..][i]) != key(xs[1..][j]) by {
        forall i, j | 0 <= i < j < |xs[1..]| ensures key(xs[1..][i]) != key(xs[1..][j]) {
          assert xs[1..][i] == xs[i + 1] && xs[1..][j] == xs[j + 1];
        }
      }
      UniqueKeyFindsOne(xs[1..], key, id);
    }
  }

  lemma {:induction false} MissingKeyFindsNone<T>(xs: seq<T>, key: T -> Uuid, id: Uuid)
    requires forall x :: x in xs ==> key(x) != id
    ensures WithKey(xs, key, id) == []
    decreases |xs|
  {
    if xs != [] {
      assert xs[0] in xs;
      MissingKeyFindsNone(xs[1..], key, id);
    }
  }

  /** A many-to-many `.all()` lists one row per join row of the film, in
      join-table order: entry `k` is the row the film's `k`-th join row points
      at, so a row linked twice is listed twice. */
  lemma {:induction false} RelatedPerLink<L(!new), T>(fid: Uuid, links: seq<L>, film: L -> Uuid, target: L -> Uuid,
                                                xs: seq<T>, key: T -> Uuid)
    requires forall i, j :: 0 <= i < j < |xs| ==> key(xs[i]) != key(xs[j])
    requires forall l :: l in links && film(l) == fid ==> exists x :: x in xs && key(x) == target(l)
    ensures |Related(fid, links, film, target, xs, key)| == |LinksFor(fid, links, film)|
    ensures forall k :: 0 <= k < |LinksFor(fid, links, film)| ==>
              && Related(fid, links, film, target, xs, key)[k] in xs
              && key(Related(fid, links, film, target, xs, key)[k]) == target(LinksFor(fid, links, film)[k])
    decreases |links|
  {
    if links != [] {
      assert links[0] in links;
      RelatedPerLink(fid, links[1..], film, target, xs, key);
      if film(links[0]) == fid {
        UniqueKeyFindsOne(xs, key, target(links[0]));
        var rest, restL := Related(fid, links[1..], film, target, xs, key), LinksFor(fid, links[1..], film);
        assert Related(fid, links, film, target, xs, key) == WithKey(xs, key, target(links[0])) + rest;
        assert LinksFor(fid, links, film) == [links[0]] + restL;
        forall k | 0 < k < |LinksFor(fid, links, film)|
          ensures Related(fid, links, film, target, xs, key)[k] == rest[k - 1]
          ensures LinksFor(fid, links, film)[k] == restL[k - 1]
        {
        }
      }
    }
  }

  /** Under the database constraints every genre link finds its genre, and
      genre ids are unique. */
  lemma GenreLinksResolve(fid: Uuid, c: Content)
    requires ConstraintsHold(c)
    ensures forall i, j :: 0 <= i < j < |c.genres| ==> GenreKey(c.genres[i]) != GenreKey(c.genres[j])
    ensures forall l :: l in c.genreFilmworks && LinkFilm(l) == fid ==>
              exists g :: g in c.genres && GenreKey(g) == LinkGenre(l)
  {
    forall l | l in c.genreFilmworks && LinkFilm(l) == fid
      ensures exists g :: g in c.genres && GenreKey(g) == LinkGenre(l)
    {
      assert l.genre in GenreIds(c.genres);
      var g :| g in c.genres && g.id == l.genre;
      assert GenreKey(g) == LinkGenre(l);
    }
  }

  /** Under the database constraints every credit finds its person, and
      person ids are unique. */
  lemma CreditsResolve(fid: Uuid, c: Content)
    requires ConstraintsHold(c)
    ensures forall i, j :: 0 <= i < j < |c.persons| ==> PersonKey(c.persons[i]) != PersonKey(c.persons[j])
    ensures forall l :: l in c.personFilmworks && CreditFilm(l) == fid ==>
              exists p :: p in c.persons && PersonKey(p) == CreditPerson(l)
  {
    forall l | l in c.personFilmworks && CreditFilm(l) == fid
      ensures exists p :: p in c.persons && PersonKey(p) == CreditPerson(l)
    {
      assert l.person in PersonIds(c.persons);
      var p :| p in c.persons && p.id == l.person;
      assert PersonKey(p) == CreditPerson(l);
    }
  }

  /** When the database constraints hold, entry `k` of `get_genres` is the
      name of the genre the film's `k`-th genre link points at. */
  lemma DisplayedGenresMatchLinks(f: Filmwork, c: Content)
    requires ConstraintsHold(c)
    ensures var names, ls := GenreNames(GenresOf(f.id, c.genres, c.genreFilmworks)), LinksOf(f.id, c.genreFilmworks);
            && |names| == |ls|
            && forall k :: 0 <= k < |ls| ==> exists g :: g in c.genres && g.id == ls[k].genre && names[k] == g.name
  {
    var gs, ls := GenresOf(f.id, c.genres, c.genreFilmworks), LinksOf(f.id, c.genreFilmworks);
    GenreLinksResolve(f.id, c);
    RelatedPerLink(f.id, c.genreFilmworks, LinkFilm, LinkGenre, c.genres, GenreKey);
    forall k | 0 <= k < |ls|
      ensures exists g :: g in c.genres && g.id == ls[k].genre && GenreNames(gs)[k] == g.name
    {
      assert gs[k] in c.genres && gs[k].id == ls[k].genre && GenreNames(gs)[k] == gs[k].name;
    }
  }

  /** When the database constraints hold, entry `k` of `get_persons` is the
      full name of the person the film's `k`-th credit points at. */
  lemma DisplayedPersonsMatchCredits(f: Filmwork, c: Content)
    requires ConstraintsHold(c)
    ensures var names, cs := PersonNames(PersonsOf(f.id, c.persons, c.personFilmworks)), CreditsOf(f.id, c.personFilmworks);
            && |names| == |cs|
            && forall k :: 0 <= k < |cs| ==> exists p :: p in c.persons && p.id == cs[k].person && names[k] == p.fullName
  {
    var ps, cs := PersonsOf(f.id, c.persons, c.personFilmworks), CreditsOf(f.id, c.personFilmworks);
    CreditsResolve(f.id, c);
    RelatedPerLink(f.id, c.personFilmworks, CreditFilm, CreditPerson, c.persons, PersonKey);
    forall k | 0 <= k < |cs|
      ensures exists p :: p in c.persons && p.id == cs[k].person && PersonNames(ps)[k] == p.fullName
    {
      assert ps[k] in c.persons && ps[k].id == cs[k].person && PersonNames(ps)[k] == ps[k].fullName;
    }
  }

  /** Under the `(film_work, genre)` unique constraint, no two links of one
      film point at the same genre. */
  lemma {:induction false} LinksOfUniqueGenres(fid: Uuid, links: seq<GenreFilmwork>)
    requires GenreLinksUnique(links)
    ensures forall i, j :: 0 <= i < j < |LinksOf(fid, links)| ==>
              LinksOf(fid, links)[i].genre != LinksOf(fid, links)[j].genre
    decreases |links|
  {
    if links != [] {
      var rest := LinksOf(fid, links[1..]);
      assert GenreLinksUnique(links[1..]) by {
        forall i, j | 0 <= i < j < |links[1..]|
          ensures !GenreLinksConflict(links[1..][i], links[1..][j])
        {
          assert links[1..][i] == links[i + 1] && links[1..][j] == links[j + 1];
        }
      }
      LinksOfUniqueGenres(fid, links[1..]);
      if links[0].filmWork == fid {
        forall l | l in rest ensures l.genre != links[0].genre {
          var m :| 0 <= m < |links[1..]| && links[1..][m] == l;
          assert links[m + 1] == l;
          assert !GenreLinksConflict(links[0], links[m + 1]);
        }
        assert LinksOf(fid, links) == [links[0]] + rest;
        forall i, j | 0 <= i < j < |LinksOf(fid, links)|
          ensures LinksOf(fid, links)[i].genre != LinksOf(fid, links)[j].genre
        {
          assert LinksOf(fid, links)[j] == rest[j - 1];
          if i > 0 {
            assert LinksOf(fid, links)[i] == rest[i - 1];
          }
        }
      }
    }
  }

  /** When the database constraints hold, `get_genres` names no genre twice:
      the genres it lists are pairwise distinct, and so are their names. */
  lemma DisplayedGenresDistinct(f: Filmwork, c: Content)
    requires ConstraintsHold(c)
    ensures var gs := GenresOf(f.id, c.genres, c.genreFilmworks);
            forall i, j :: 0 <= i < j < |gs| ==> gs[i] != gs[j] && GenreNames(gs)[i] != GenreNames(gs)[j]
  {
    var gs, ls := GenresOf(f.id, c.genres, c.genreFilmworks), LinksOf(f.id, c.genreFilmworks);
    GenreLinksResolve(f.id, c);
    RelatedPerLink(f.id, c.genreFilmworks, LinkFilm, LinkGenre, c.genres, GenreKey);
    LinksOfUniqueGenres(f.id, c.genreFilmworks);
    forall i, j | 0 <= i < j < |gs|
      ensures gs[i] != gs[j] && GenreNames(gs)[i] != GenreNames(gs)[j]
    {
      assert gs[i].id != gs[j].id;
      var a :| 0 <= a < |c.genres| && c.genres[a] == gs[i];
      var b :| 0 <= b < |c.genres| && c.genres[b] == gs[j];
      assert a != b;
      assert c.genres[a].name != c.genres[b].name by {
        if a < b {} else {}
      }
    }
  }

  /** A film with a single genre link, to a genre of a table with unique
      ids, displays that genre's name; the links of other films do not matter. */
  lemma DisplayOfSingleGenre(f: Filmwork, c: Content, g: Genre)
    requires forall i, j :: 0 <= i < j < |c.genres| ==> c.genres[i].id != c.genres[j].id
    requires g in c.genres
    requires |LinksOf(f.id, c.genreFilmworks)| == 1 && LinksOf(f.id, c.genreFilmworks)[0].genre == g.id
    ensures GetGenres(f, c) == g.name
  {
    var ls := LinksOf(f.id, c.genreFilmworks);
    forall l | l in c.genreFilmworks && LinkFilm(l) == f.id
      ensures exists x :: x in c.genres && GenreKey(x) == LinkGenre(l)
    {
      assert l in ls;
      assert GenreKey(g) == LinkGenre(l);
    }
    RelatedPerLink(f.id, c.genreFilmworks, LinkFilm, LinkGenre, c.genres, GenreKey);
    var gs := GenresOf(f.id, c.genres, c.genreFilmworks);
    assert gs[0] == g;
    JoinEmptyAndSingle(", ", g.name);
    assert GenreNames(gs) == [g.name];
  }

  /** The database constraints do not imply the field validators: a film
      rated 150 with the type "cartoon" can be stored, and the display
      lemmas above still apply to it. */
  lemma ConstraintsAdmitUnvalidatedFilm()
    ensures var c := Content([], [], [Filmwork(1, "t", "", 0, 150.0, "cartoon", 0, 0)], [], []);
            ConstraintsHold(c) && !Valid(c)
  {
    var f := Filmwork(1, "t", "", 0, 150.0, "cartoon", 0, 0);
    assert !RatingValid(f.rating);
    assert f in [f];
  }
}
