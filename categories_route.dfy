/**
 * `GET` and `POST /api/categorias`: the caller's categories ordered by name,
 * and the creation of a category after the schema check on its name, colour
 * and icon.
 */
module CategoriesRoute {
  import opened Common
  import opened Text

  // ---------------------------------------------------------------------
  // Schema
  // ---------------------------------------------------------------------

  /** The JSON body of `POST`, field by field. */
  datatype CategoryRequest = CategoryRequest(name: Field<string>, color: Field<string>, icon: Field<string>)

  predicate IsHexDigit(c: char) {
    ('0' <= c <= '9') || ('a' <= c <= 'f') || ('A' <= c <= 'F')
  }

  /** `/^#[0-9A-Fa-f]{6}$/`: a '#' and exactly six hexadecimal digits of either case. */
  predicate IsHexColor(s: string) {
    |s| == 7 && s[0] == '#' && forall i | 1 <= i < 7 :: IsHexDigit(s[i])
  }

  /** The validated body: the name and colour, and the icon as stored (a missing icon is stored as null). */
  datatype CategoryData = CategoryData(name: string, color: string, icon: Option<string>)

  /** `categoriaSchema.parse(body)`: the data, or None for a 400 response. */
  function ParseCategory(req: CategoryRequest): (r: Option<CategoryData>)
    ensures r.Some? <==>
      && req.name.Present? && 1 <= |req.name.value| <= 100
      && req.color.Present? && IsHexColor(req.color.value)
    ensures r.Some? ==>
      && r.value.name == req.name.value && r.value.color == req.color.value
      && r.value.icon == req.icon.ToOption()
  {
    if !req.name.Present? || !(1 <= |req.name.value| <= 100) then None
    else if !req.color.Present? || !IsHexColor(req.color.value) then None
    else Some(CategoryData(req.name.value, req.color.value, req.icon.ToOption()))
  }

  /** The colour palette the category dialogs offer. */
  const CategoryColors: seq<string> := [
    "#3b82f6", "#ef4444", "#10b981", "#f59e0b", "#8b5cf6", "#ec4899",
    "#06b6d4", "#f97316", "#84cc16", "#14b8a6", "#a855f7", "#e11d48"
  ]

  /** Every palette colour passes the route's colour check. */
  lemma PaletteColorsAccepted()
    ensures forall i | 0 <= i < |CategoryColors| :: IsHexColor(CategoryColors[i])
  {
  }

  /** A request with a palette colour and a name of 1 to 100 characters is accepted whatever its icon. */
  lemma PaletteRequestAccepted(name: string, i: int, icon: Field<string>)
    requires 1 <= |name| <= 100 && 0 <= i < |CategoryColors|
    ensures ParseCategory(CategoryRequest(Present(name), Present(CategoryColors[i]), icon)).Some?
  {
    PaletteColorsAccepted();
  }

  // ---------------------------------------------------------------------
  // Ordering by name
  // ---------------------------------------------------------------------

  /** `orderBy: {nombre: 'asc'}` */
  predicate ByName(s: seq<Category>) {
    forall i, j | 0 <= i < j < |s| :: LexLe(s[i].name, s[j].name)
  }

  /** Inserts `x` before the first category whose name is greater. */
  function InsertByName(x: Category, s: seq<Category>): (r: seq<Category>)
    requires ByName(s)
    ensures ByName(r)
    ensures multiset(r) == multiset(s) + multiset{x}
  {
    if s == [] then [x]
    else if LexLe(x.name, s[0].name) then
      assert forall j | 0 <= j < |s| :: LexLe(x.name, s[j].name) by {
        forall j | 0 <= j < |s| ensures LexLe(x.name, s[j].name) {
          if j > 0 {
            LexLeTransitive(x.name, s[0].name, s[j].name);
          }
        }
      }
      [x] + s
    else
      LexLeTotal(x.name, s[0].name);
      var rest := InsertByName(x, s[1..]);
      assert s == [s[0]] + s[1..];
      assert forall j | 0 <= j < |rest| :: LexLe(s[0].name, rest[j].name) by {
        forall j | 0 <= j < |rest| ensures LexLe(s[0].name, rest[j].name) {
          assert rest[j] in multiset(rest);
          if rest[j] != x {
            assert rest[j] in multiset(s[1..]);
            var k :| 0 <= k < |s[1..]| && s[1..][k] == rest[j];
            assert s[k + 1] == rest[j];
          }
        }
      }
      [s[0]] + rest
  }

  function SortByName(s: seq<Category>): (r: seq<Category>)
    ensures ByName(r) && multiset(r) == multiset(s)
  {
    if s == [] then []
    else
      assert s == s[..|s| - 1] + [s[|s| - 1]];
      InsertByName(s[|s| - 1], SortByName(s[..|s| - 1]))
  }

  // ---------------------------------------------------------------------
  // Handlers
  // ---------------------------------------------------------------------

  /** `rows` lists every category of `user` in `table` exactly once, and nothing else. */
  predicate IsListingOf(rows: seq<Category>, table: map<Id, Category>, user: Id) {
    && (forall x | x in rows :: x.id in table && table[x.id] == x && x.owner == user)
    && (forall id | id in table && table[id].owner == user :: table[id] in rows)
    && (forall x | x in rows :: multiset(rows)[x] == 1)
  }

  datatype ListResponse = Unauthorized | Listed(items: seq<Category>)

  /** `GET /api/categorias`. */
  method Get(db: Database, session: Option<Id>) returns (resp: ListResponse)
    requires db.Valid()
    ensures !Authenticated(session) <==> resp == Unauthorized
    ensures resp.Listed? ==> IsListingOf(resp.items, db.categories, session.value) && ByName(resp.items)
  {
    if !Authenticated(session) {
      return Unauthorized;
    }
    var user := session.value;
    var ids := set id | id in db.categories && db.categories[id].owner == user;
    var todo := ids;
    var rows: seq<Category> := [];
    while todo != {}
      invariant todo <= ids
      invariant forall x | x in rows :: x.id in ids - todo && db.categories[x.id] == x
      invariant forall id | id in ids - todo :: db.categories[id] in rows
      invariant forall x | x in rows :: multiset(rows)[x] == 1
      decreases todo
    {
      var id :| id in todo;
      var row := db.categories[id];
      assert row !in rows;
      rows := rows + [row];
      todo := todo - {id};
    }
    var sorted := SortByName(rows);
    assert forall x :: x in sorted <==> x in rows by {
      forall x ensures x in sorted <==> x in rows {
        assert x in sorted <==> x in multiset(sorted);
      }
    }
    resp := Listed(sorted);
  }

  datatype CreateResponse = CreateResponse(status: int, row: Option<Category>)

  /** `POST /api/categorias`; `newId` is the id the store gives the new row. */
  method Post(db: Database, session: Option<Id>, req: CategoryRequest, newId: Id) returns (resp: CreateResponse)
    requires db.Valid() && newId !in db.categories
    modifies db
    ensures db.Valid() && db.reminders == old(db.reminders) && db.users == old(db.users)
    ensures resp.status == 401 <==> !Authenticated(session)
    ensures resp.status == 400 <==> Authenticated(session) && ParseCategory(req).None?
    ensures resp.status == 201 <==> Authenticated(session) && ParseCategory(req).Some?
    ensures resp.status != 201 ==> db.categories == old(db.categories) && resp.row.None?
    ensures resp.status == 201 ==>
      var d := ParseCategory(req).value;
      && resp.row == Some(Category(newId, d.name, d.color, d.icon, session.value))
      && db.categories == old(db.categories)[newId := resp.row.value]
  {
    if !Authenticated(session) {
      return CreateResponse(401, None);
    }
    match ParseCategory(req)
    case None =>
      resp := CreateResponse(400, None);
    case Some(d) =>
      var row := Category(newId, d.name, d.color, d.icon, session.value);
      db.categories := db.categories[newId := row];
      resp := CreateResponse(201, Some(row));
  }
}
