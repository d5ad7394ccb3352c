/**
 The query router of the backend: one pure function per route, from the
 store and the request parameters to the HTTP response and the store after
 the route's single SQL statement. `storeFails` says whether that statement
 fails in the store (connectivity, constraint violation, ...).
 */
module Router {
  import opened Wrappers
  import opened Js
  import opened Store

  /** A `{id, name}` row of `/countries` and `/branches`. */
  datatype NameRow = NameRow(id: nat, name: string)

  /** A row of `/items`: every `food_items` column except `branch_location_id`. */
  datatype ItemView = ItemView(id: nat, facts: Facts)

  /** The JSON payload of a response. */
  datatype Body =
    | ErrorBody(error: string)
    | NameRows(rows: seq<NameRow>)
    | ItemRows(views: seq<ItemView>)
    | ItemRecord(item: FoodItem)
    | CreatedId(id: nat)
    | NoContent

  datatype Response = Response(status: nat, body: Body)

  /** What a route answers, and the store after it. */
  datatype Reply = Reply(response: Response, db: Db)

  /** The JSON body of `POST /items`; a field missing from it is `Undefined`. */
  datatype NewItem = NewItem(location: Value, facts: Facts)

  datatype Request =
    | GetCountries
    | GetBranches(countryId: Option<string>)
    | GetItems(countryId: Option<string>, branchId: Option<string>)
    | GetItem(id: Option<string>)
    | PostItems(body: NewItem)
    // Express routes `DELETE /items/:id` only with a non-empty path segment
    | DeleteItems(pathId: string)

  /** A query parameter JavaScript treats as false: absent or empty. */
  predicate Falsy(p: Option<string>) {
    p.None? || p.value == ""
  }

  /** `handleDatabaseError`: every store failure becomes a bare 500. */
  function DatabaseError(): Response {
    Response(500, ErrorBody("Database error"))
  }

  function RowOf(b: Branch): NameRow {
    NameRow(b.id, b.name)
  }

  function ViewOf(fi: FoodItem): ItemView {
    ItemView(fi.id, fi.facts)
  }

  // ---------------------------------------------------------------------
  // GET /countries

  function CountryRows(cs: seq<Country>): (rows: seq<NameRow>)
    ensures |rows| == |cs|
    ensures forall row :: row in rows <==> exists c :: c in cs && row == NameRow(c.id, c.name)
  {
    if cs == [] then [] else [NameRow(cs[0].id, cs[0].name)] + CountryRows(cs[1..])
  }

  /** `GET /countries`: every country as `{id, name}`. */
  function Countries(db: Db, storeFails: bool): (r: Reply)
    ensures r.db == db
    ensures storeFails ==> r.response == DatabaseError()
    ensures !storeFails ==>
      && r.response.status == 200
      && r.response.body.NameRows?
      && |r.response.body.rows| == |db.countries|
      && forall row :: row in r.response.body.rows <==>
           exists c :: c in db.countries && row == NameRow(c.id, c.name)
  {
    if storeFails then Reply(DatabaseError(), db)
    else Reply(Response(200, NameRows(CountryRows(db.countries))), db)
  }

  // ---------------------------------------------------------------------
  // GET /branches

  /** Some branch of the table projects to `row`. */
  ghost predicate Listed(bs: seq<Branch>, row: NameRow) {
    exists b :: b in bs && RowOf(b) == row
  }

  /** Branch `branchId` has a location in the country the parameter names. */
  ghost predicate LocatedIn(ls: seq<Location>, branchId: nat, countryParam: string) {
    exists l :: l in ls && l.branchId == branchId && Matches(countryParam, l.countryId)
  }

  /** The branches joined to one location: those whose id is its `branch_id`. */
  function BranchRowsWithId(bs: seq<Branch>, id: nat): (rows: seq<NameRow>)
    ensures forall row :: row in rows <==> exists b :: b in bs && b.id == id && RowOf(b) == row
  {
    if bs == [] then []
    else (if bs[0].id == id then [RowOf(bs[0])] else []) + BranchRowsWithId(bs[1..], id)
  }

  /** What one location contributes to the join. */
  function LocationRows(bs: seq<Branch>, l: Location, countryParam: string): seq<NameRow> {
    if Matches(countryParam, l.countryId) then BranchRowsWithId(bs, l.branchId) else []
  }

  /** `branches b JOIN branch_locations bl ON bl.branch_id = b.id WHERE bl.country_id = ?`,
      enumerated location by location. */
  function JoinBranches(bs: seq<Branch>, ls: seq<Location>, countryParam: string): seq<NameRow>
  {
    if ls == [] then []
    else LocationRows(bs, ls[0], countryParam) + JoinBranches(bs, ls[1..], countryParam)
  }

  /** A row is in the join exactly when it is some branch's row and that
      branch has a location in the country. */
  lemma {:induction false} JoinBranchesMembers(bs: seq<Branch>, ls: seq<Location>, countryParam: string)
    ensures forall row :: row in JoinBranches(bs, ls, countryParam) <==>
      Listed(bs, row) && LocatedIn(ls, row.id, countryParam)
  {
    if ls != [] {
      JoinBranchesMembers(bs, ls[1..], countryParam);
      assert forall l :: l in ls <==> l == ls[0] || l in ls[1..];
    }
  }

  /** `GET /branches?country_id=`: the branches with a location in the country. */
  function Branches(db: Db, countryId: Option<string>, storeFails: bool): (r: Reply)
    ensures r.db == db
    ensures Falsy(countryId) ==> r.response == Response(400, ErrorBody("country_id is required"))
    ensures !Falsy(countryId) && storeFails ==> r.response == DatabaseError()
    ensures !Falsy(countryId) && !storeFails ==>
      && r.response.status == 200
      && r.response.body.NameRows?
      && forall row :: row in r.response.body.rows <==>
           Listed(db.branches, row) && LocatedIn(db.locations, row.id, countryId.value)
  {
    if Falsy(countryId) then Reply(Response(400, ErrorBody("country_id is required")), db)
    else if storeFails then Reply(DatabaseError(), db)
    else
      JoinBranchesMembers(db.branches, db.locations, countryId.value);
      Reply(Response(200, NameRows(JoinBranches(db.branches, db.locations, countryId.value))), db)
  }

  /** The number of locations branch `branchId` has in the named country. */
  function CountLocated(ls: seq<Location>, branchId: nat, countryParam: string): nat {
    if ls == [] then 0
    else (if ls[0].branchId == branchId && Matches(countryParam, ls[0].countryId) then 1 else 0)
         + CountLocated(ls[1..], branchId, countryParam)
  }

  lemma {:induction false} RowsWithIdMultiplicity(bs: seq<Branch>, id: nat, b: Branch)
    ensures multiset(BranchRowsWithId(bs, id))[RowOf(b)] == if b.id == id then multiset(bs)[b] else 0
  {
    if bs != [] {
      RowsWithIdMultiplicity(bs[1..], id, b);
      assert bs == [bs[0]] + bs[1..];
    }
  }

  lemma LocationRowsMultiplicity(bs: seq<Branch>, l: Location, countryParam: string, b: Branch)
    ensures multiset(LocationRows(bs, l, countryParam))[RowOf(b)]
         == if l.branchId == b.id && Matches(countryParam, l.countryId) then multiset(bs)[b] else 0
  {
    if Matches(countryParam, l.countryId) {
      RowsWithIdMultiplicity(bs, l.branchId, b);
    }
  }

  /** The join yields one copy of a branch's row per (copy of the branch,
      location of it in the country) pair: duplicates are not removed. */
  lemma {:induction false} BranchRowMultiplicity(bs: seq<Branch>, ls: seq<Location>, countryParam: string, b: Branch)
    ensures multiset(JoinBranches(bs, ls, countryParam))[RowOf(b)]
         == multiset(bs)[b] * CountLocated(ls, b.id, countryParam)
  {
    if ls != [] {
      var k := multiset(bs)[b];
      var c := CountLocated(ls[1..], b.id, countryParam);
      var x := if ls[0].branchId == b.id && Matches(countryParam, ls[0].countryId) then 1 else 0;
      var m := multiset(JoinBranches(bs, ls, countryParam))[RowOf(b)];
      var mRest := multiset(JoinBranches(bs, ls[1..], countryParam))[RowOf(b)];
      assert m == k * x + mRest by {
        JoinBranchesStep(bs, ls, countryParam, b);
      }
      BranchRowMultiplicity(bs, ls[1..], countryParam, b);
      ScaleStep(k, x, c, m, mRest);
      assert CountLocated(ls, b.id, countryParam) == x + c;
    }
  }

  lemma ScaleStep(k: nat, x: nat, c: nat, m: int, mRest: int)
    requires mRest == k * c
    requires m == k * x + mRest
    ensures m == k * (x + c)
  {
    Distribute(k, x, c);
  }

  /** The first location's rows come ahead of the rest of the join. */
  lemma JoinBranchesStep(bs: seq<Branch>, ls: seq<Location>, countryParam: string, b: Branch)
    requires ls != []
    ensures multiset(JoinBranches(bs, ls, countryParam))[RowOf(b)]
         == (if ls[0].branchId == b.id && Matches(countryParam, ls[0].countryId) then multiset(bs)[b] else 0)
            + multiset(JoinBranches(bs, ls[1..], countryParam))[RowOf(b)]
  {
    var here := LocationRows(bs, ls[0], countryParam);
    var rest := JoinBranches(bs, ls[1..], countryParam);
    assert JoinBranches(bs, ls, countryParam) == here + rest;
    assert multiset(here + rest) == multiset(here) + multiset(rest);
    LocationRowsMultiplicity(bs, ls[0], countryParam, b);
  }

  lemma Distribute(k: nat, x: nat, c: nat)
    ensures k * (x + c) == k * x + k * c
  {
  }

  lemma {:induction false} DistinctBranchOccursOnce(bs: seq<Branch>, b: Branch)
    requires DistinctBranchIds(bs)
    requires b in bs
    ensures multiset(bs)[b] == 1
  {
    assert bs == [bs[0]] + bs[1..];
    if bs[0] == b {
      assert b !in bs[1..];
    } else {
      DistinctBranchOccursOnce(bs[1..], b);
    }
  }

  /** On a valid store, `/branches` returns a branch once per location it has
      in the country, and an empty list (still 200) when it has none. */
  lemma BranchesOnePerLocation(db: Db, countryParam: string, b: Branch)
    requires Valid(db)
    requires countryParam != ""
    requires b in db.branches
    ensures Branches(db, Some(countryParam), false).response.status == 200
    ensures multiset(Branches(db, Some(countryParam), false).response.body.rows)[RowOf(b)]
         == CountLocated(db.locations, b.id, countryParam)
  {
    BranchRowMultiplicity(db.branches, db.locations, countryParam, b);
    DistinctBranchOccursOnce(db.branches, b);
  }

  // ---------------------------------------------------------------------
  // GET /items

  /** Item `fi` belongs to a location of the named branch in the named country. */
  ghost predicate InScope(fi: FoodItem, ls: seq<Location>, countryParam: string, branchParam: string) {
    exists l :: l in ls && LocationHit(fi, l, countryParam, branchParam)
  }

  predicate LocationHit(fi: FoodItem, l: Location, countryParam: string, branchParam: string) {
    RefersTo(fi.location, l.id) && Matches(countryParam, l.countryId) && Matches(branchParam, l.branchId)
  }

  /** The rows one item contributes to the join: one per location it hits. */
  function ViewsVia(fi: FoodItem, ls: seq<Location>, countryParam: string, branchParam: string): (vs: seq<ItemView>)
    ensures forall v :: v in vs <==> v == ViewOf(fi) && InScope(fi, ls, countryParam, branchParam)
  {
    if ls == [] then []
    else
      assert forall l :: l in ls <==> l == ls[0] || l in ls[1..];
      (if LocationHit(fi, ls[0], countryParam, branchParam) then [ViewOf(fi)] else [])
      + ViewsVia(fi, ls[1..], countryParam, branchParam)
  }

  /** `food_items fi JOIN branch_locations bl ON fi.branch_location_id = bl.id
      WHERE bl.country_id = ? AND bl.branch_id = ?`, projected to the list columns. */
  function JoinItems(items: seq<FoodItem>, ls: seq<Location>, countryParam: string, branchParam: string): (vs: seq<ItemView>)
    ensures forall v :: v in vs <==>
      exists fi :: fi in items && ViewOf(fi) == v && InScope(fi, ls, countryParam, branchParam)
  {
    if items == [] then []
    else
      assert forall fi :: fi in items <==> fi == items[0] || fi in items[1..];
      ViewsVia(items[0], ls, countryParam, branchParam) + JoinItems(items[1..], ls, countryParam, branchParam)
  }

  /** `GET /items?country_id=&branch_id=`: the menu of one branch in one country. */
  function Items(db: Db, countryId: Option<string>, branchId: Option<string>, storeFails: bool): (r: Reply)
    ensures r.db == db
    ensures Falsy(countryId) || Falsy(branchId) ==>
      r.response == Response(400, ErrorBody("country_id and branch_id are required"))
    ensures !Falsy(countryId) && !Falsy(branchId) && storeFails ==> r.response == DatabaseError()
    ensures !Falsy(countryId) && !Falsy(branchId) && !storeFails ==>
      && r.response.status == 200
      && r.response.body.ItemRows?
      && forall v :: v in r.response.body.views <==>
           exists fi :: fi in db.items && ViewOf(fi) == v && InScope(fi, db.locations, countryId.value, branchId.value)
  {
    if Falsy(countryId) || Falsy(branchId) then
      Reply(Response(400, ErrorBody("country_id and branch_id are required")), db)
    else if storeFails then Reply(DatabaseError(), db)
    else Reply(Response(200, ItemRows(JoinItems(db.items, db.locations, countryId.value, branchId.value))), db)
  }

  /** Location ids being a primary key, an item joins with at most one location. */
  lemma {:induction false} ViewsViaAtMostOne(fi: FoodItem, ls: seq<Location>, countryParam: string, branchParam: string)
    requires DistinctLocationIds(ls)
    ensures |ViewsVia(fi, ls, countryParam, branchParam)| == if InScope(fi, ls, countryParam, branchParam) then 1 else 0
  {
    if ls != [] {
      var rest := ls[1..];
      assert DistinctLocationIds(rest) by {
        forall i, j | 0 <= i < j < |rest| ensures rest[i].id != rest[j].id {
          assert rest[i] == ls[i + 1] && rest[j] == ls[j + 1];
        }
      }
      ViewsViaAtMostOne(fi, rest, countryParam, branchParam);
      if LocationHit(fi, ls[0], countryParam, branchParam) {
        assert !InScope(fi, rest, countryParam, branchParam);
      }
    }
  }

  lemma DistinctItemIdsTail(items: seq<FoodItem>)
    requires items != [] && DistinctItemIds(items)
    ensures DistinctItemIds(items[1..])
  {
  }

  /** No later item shares the first item's id, so none contributes its row. */
  lemma HeadRowNotInTail(items: seq<FoodItem>, ls: seq<Location>, countryParam: string, branchParam: string)
    requires items != [] && DistinctItemIds(items)
    ensures ViewOf(items[0]) !in JoinItems(items[1..], ls, countryParam, branchParam)
  {
  }

  /** An item's own contribution holds its row once when it is in scope, else not at all. */
  lemma OwnRowCount(fi: FoodItem, ls: seq<Location>, countryParam: string, branchParam: string)
    requires DistinctLocationIds(ls)
    ensures multiset(ViewsVia(fi, ls, countryParam, branchParam))[ViewOf(fi)]
         == if InScope(fi, ls, countryParam, branchParam) then 1 else 0
  {
  }

  lemma {:induction false} ViewOccurrences(items: seq<FoodItem>, ls: seq<Location>, countryParam: string, branchParam: string, fi: FoodItem)
    requires DistinctItemIds(items)
    requires DistinctLocationIds(ls)
    requires fi in items
    ensures multiset(JoinItems(items, ls, countryParam, branchParam))[ViewOf(fi)]
         == if InScope(fi, ls, countryParam, branchParam) then 1 else 0
  {
    var rest := items[1..];
    DistinctItemIdsTail(items);
    var here := ViewsVia(items[0], ls, countryParam, branchParam);
    var tail := JoinItems(rest, ls, countryParam, branchParam);
    assert JoinItems(items, ls, countryParam, branchParam) == here + tail;
    assert multiset(here + tail) == multiset(here) + multiset(tail);
    if items[0] == fi {
      HeadRowNotInTail(items, ls, countryParam, branchParam);
      OwnRowCount(fi, ls, countryParam, branchParam);
    } else {
      assert fi in rest;
      ViewOccurrences(rest, ls, countryParam, branchParam, fi);
      assert ViewOf(fi) !in here;
    }
  }

  /** On a valid store, `/items` lists every in-scope item exactly once and no other. */
  lemma ItemsExactlyOnce(db: Db, countryParam: string, branchParam: string, fi: FoodItem)
    requires Valid(db)
    requires countryParam != "" && branchParam != ""
    requires fi in db.items
    ensures multiset(Items(db, Some(countryParam), Some(branchParam), false).response.body.views)[ViewOf(fi)]
         == if InScope(fi, db.locations, countryParam, branchParam) then 1 else 0
  {
    ViewOccurrences(db.items, db.locations, countryParam, branchParam, fi);
  }

  // ---------------------------------------------------------------------
  // GET /item

  /** `SELECT * FROM food_items WHERE id = ?`, in table order. */
  function SelectById(items: seq<FoodItem>, idParam: string): (rows: seq<FoodItem>)
    ensures forall fi :: fi in rows <==> fi in items && Matches(idParam, fi.id)
  {
    if items == [] then []
    else
      assert forall fi :: fi in items <==> fi == items[0] || fi in items[1..];
      (if Matches(idParam, items[0].id) then [items[0]] else []) + SelectById(items[1..], idParam)
  }

  /** `k` is the position of the first row whose id the parameter names. */
  ghost predicate FirstMatchAt(items: seq<FoodItem>, idParam: string, k: int) {
    && 0 <= k < |items|
    && Matches(idParam, items[k].id)
    && forall j :: 0 <= j < k ==> !Matches(idParam, items[j].id)
  }

  lemma {:induction false} SelectFirst(items: seq<FoodItem>, idParam: string)
    ensures SelectById(items, idParam) != [] ==>
      exists k :: FirstMatchAt(items, idParam, k) && items[k] == SelectById(items, idParam)[0]
  {
    if items != [] && !Matches(idParam, items[0].id) {
      SelectFirst(items[1..], idParam);
      if SelectById(items, idParam) != [] {
        var k :| FirstMatchAt(items[1..], idParam, k) && items[1..][k] == SelectById(items[1..], idParam)[0];
        assert FirstMatchAt(items, idParam, k + 1);
      }
    } else if items != [] {
      assert FirstMatchAt(items, idParam, 0);
    }
  }

  /** `GET /item?id=`: the full stored row of one item. */
  function Item(db: Db, id: Option<string>, storeFails: bool): (r: Reply)
    ensures r.db == db
    ensures Falsy(id) ==> r.response == Response(400, ErrorBody("id is required"))
    ensures !Falsy(id) && storeFails ==> r.response == DatabaseError()
    ensures !Falsy(id) && !storeFails ==>
      ((r.response == Response(404, ErrorBody("Item not found")))
         <==> (forall fi :: fi in db.items ==> !Matches(id.value, fi.id)))
    ensures !Falsy(id) && !storeFails && r.response.status != 404 ==>
      && r.response.status == 200
      && r.response.body.ItemRecord?
      && exists k :: FirstMatchAt(db.items, id.value, k) && db.items[k] == r.response.body.item
  {
    if Falsy(id) then Reply(Response(400, ErrorBody("id is required")), db)
    else if storeFails then Reply(DatabaseError(), db)
    else
      var rows := SelectById(db.items, id.value);
      SelectFirst(db.items, id.value);
      if |rows| == 0 then Reply(Response(404, ErrorBody("Item not found")), db)
      else
        assert rows[0] in rows;
        Reply(Response(200, ItemRecord(rows[0])), db)
  }

  /** On a valid store, the row `/item` returns is the one stored under that id. */
  lemma ItemReturnsStoredRow(db: Db, idParam: string, fi: FoodItem)
    requires Valid(db)
    requires idParam != ""
    requires fi in db.items && Matches(idParam, fi.id)
    ensures Item(db, Some(idParam), false).response == Response(200, ItemRecord(fi))
  {
  }

  // ---------------------------------------------------------------------
  // POST /items

  /** The row the INSERT writes: the submitted fields, with `undefined` as NULL. */
  function RowFor(id: nat, body: NewItem): FoodItem {
    FoodItem(id, Stored(body.location), StoredFacts(body.facts))
  }

  /** `POST /items`: insert one row and answer its new id. */
  function AddItem(db: Db, body: NewItem, storeFails: bool): (r: Reply)
    ensures storeFails ==> r == Reply(DatabaseError(), db)
    ensures !storeFails ==>
      && r.response.status == 201
      && r.response.body.CreatedId?
      && (Valid(db) ==> forall fi :: fi in db.items ==> fi.id != r.response.body.id)
      && r.db.items == db.items + [RowFor(r.response.body.id, body)]
      && r.db.countries == db.countries
      && r.db.branches == db.branches
      && r.db.locations == db.locations
    ensures Valid(db) ==> Valid(r.db)
  {
    if storeFails then Reply(DatabaseError(), db)
    else
      var id := db.nextId;
      var db' := db.(items := db.items + [RowFor(id, body)], nextId := id + 1);
      assert Valid(db) ==> DistinctItemIds(db'.items) by {
        if Valid(db) {
          forall i, j | 0 <= i < j < |db'.items| ensures db'.items[i].id != db'.items[j].id {
            if j == |db.items| {
              assert db'.items[i] in db.items;
            } else {
              assert db'.items[i] == db.items[i] && db'.items[j] == db.items[j];
            }
          }
        }
      }
      Reply(Response(201, CreatedId(id)), db')
  }

  /** The id `POST /items` answers, sent back as `/item?id=`, fetches the submitted fields. */
  lemma AddThenGet(db: Db, body: NewItem)
    requires Valid(db)
    ensures var added := AddItem(db, body, false);
            var id := added.response.body.id;
            Item(added.db, Some(ShowNat(id)), false).response == Response(200, ItemRecord(RowFor(id, body)))
  {
    var added := AddItem(db, body, false);
    var id := added.response.body.id;
    ParseShowNat(id);
    assert RowFor(id, body) in added.db.items;
    ItemReturnsStoredRow(added.db, ShowNat(id), RowFor(id, body));
  }

  // ---------------------------------------------------------------------
  // DELETE /items/:id

  /** `DELETE FROM food_items WHERE id = ?`: the rows that survive, in order. */
  function Without(items: seq<FoodItem>, idParam: string): (rest: seq<FoodItem>)
    ensures forall fi :: fi in rest <==> fi in items && !Matches(idParam, fi.id)
    ensures |rest| <= |items|
  {
    if items == [] then []
    else
      assert forall fi :: fi in items <==> fi == items[0] || fi in items[1..];
      (if Matches(idParam, items[0].id) then [] else [items[0]]) + Without(items[1..], idParam)
  }

  lemma {:induction false} WithoutIdempotent(items: seq<FoodItem>, idParam: string)
    ensures Without(Without(items, idParam), idParam) == Without(items, idParam)
  {
    if items != [] {
      WithoutIdempotent(items[1..], idParam);
      var w := Without(items[1..], idParam);
      if !Matches(idParam, items[0].id) {
        var once := [items[0]] + w;
        assert Without(items, idParam) == once;
        assert once[0] == items[0] && once[1..] == w;
        assert Without(once, idParam) == [items[0]] + Without(w, idParam);
      } else {
        assert Without(items, idParam) == w;
      }
    }
  }

  lemma {:induction false} WithoutKeepsDistinct(items: seq<FoodItem>, idParam: string)
    ensures DistinctItemIds(items) ==> DistinctItemIds(Without(items, idParam))
  {
    if items != [] && DistinctItemIds(items) {
      var rest := items[1..];
      assert DistinctItemIds(rest) by {
        forall i, j | 0 <= i < j < |rest| ensures rest[i].id != rest[j].id {
          assert rest[i] == items[i + 1] && rest[j] == items[j + 1];
        }
      }
      WithoutKeepsDistinct(rest, idParam);
      var w := Without(rest, idParam);
      forall g | g in w ensures g.id != items[0].id {
        var j :| 0 <= j < |rest| && rest[j] == g;
        assert items[j + 1] == g;
      }
    }
  }

  /** `DELETE /items/:id`: remove the row if there is one; 204 either way. */
  function DeleteItem(db: Db, id: string, storeFails: bool): (r: Reply)
    ensures storeFails ==> r == Reply(DatabaseError(), db)
    ensures !storeFails ==> r.response == Response(204, NoContent)
    ensures !storeFails ==> forall fi :: fi in r.db.items <==> fi in db.items && !Matches(id, fi.id)
    ensures r.db.countries == db.countries && r.db.branches == db.branches
    ensures r.db.locations == db.locations && r.db.nextId == db.nextId
    ensures Valid(db) ==> Valid(r.db)
  {
    if storeFails then Reply(DatabaseError(), db)
    else
      WithoutKeepsDistinct(db.items, id);
      Reply(Response(204, NoContent), db.(items := Without(db.items, id)))
  }

  /** Deleting twice is deleting once, and both answer 204. */
  lemma DeleteIdempotent(db: Db, id: string)
    ensures var once := DeleteItem(db, id, false);
            var twice := DeleteItem(once.db, id, false);
            twice.response == Response(204, NoContent) && twice.db == once.db
  {
    WithoutIdempotent(db.items, id);
  }

  /** After a delete, `/item` with the same id answers 404. */
  lemma DeleteThenGet(db: Db, id: string)
    requires id != ""
    ensures Item(DeleteItem(db, id, false).db, Some(id), false).response
         == Response(404, ErrorBody("Item not found"))
  {
  }

  // ---------------------------------------------------------------------
  // Dispatch

  /** Whether the route rejects the request for a missing required parameter. */
  predicate MissingParam(req: Request) {
    match req
    case GetBranches(c) => Falsy(c)
    case GetItems(c, b) => Falsy(c) || Falsy(b)
    case GetItem(i) => Falsy(i)
    case _ => false
  }

  predicate ReadOnly(req: Request) {
    req.GetCountries? || req.GetBranches? || req.GetItems? || req.GetItem?
  }

  /** The whole router. */
  function Handle(db: Db, req: Request, storeFails: bool): (r: Reply)
    ensures r.response.status in {200, 201, 204, 400, 404, 500}
    ensures MissingParam(req) ==> r.response.status == 400 && r.db == db
    ensures !MissingParam(req) && storeFails ==> r == Reply(DatabaseError(), db)
    ensures ReadOnly(req) ==> r.db == db
    ensures Valid(db) ==> Valid(r.db)
  {
    match req
    case GetCountries => Countries(db, storeFails)
    case GetBranches(c) => Branches(db, c, storeFails)
    case GetItems(c, b) => Items(db, c, b, storeFails)
    case GetItem(i) => Item(db, i, storeFails)
    case PostItems(body) => AddItem(db, body, storeFails)
    case DeleteItems(i) => DeleteItem(db, i, storeFails)
  }

  /** Presence validation happens before any store access: a request missing a
      required parameter gets the same 400 whatever the store holds or does. */
  lemma ValidationBeforeStore(db1: Db, db2: Db, req: Request, fails1: bool, fails2: bool)
    requires MissingParam(req)
    ensures Handle(db1, req, fails1).response == Handle(db2, req, fails2).response
  {
  }

  // ---------------------------------------------------------------------
  // A worked session

  /** One country, one branch operating there, no items yet. */
  const Seed := Db([Country(1, "USA")], [Branch(2, "Test Co")], [Location(3, 2, 1)], [], 1)

  /** A burger for location 3; the fields the client leaves out are `undefined`. */
  const Burger := NewItem(Num(3.0), Facts(Str("Burger"), Undefined, Num(500.0), Undefined, Undefined,
                                          Undefined, Undefined, Undefined, Undefined, Undefined, Undefined))

  /** List the branch, find no items, add one, read it back, delete it, miss it. */
  lemma Walkthrough()
    ensures Branches(Seed, Some("1"), false).response == Response(200, NameRows([NameRow(2, "Test Co")]))
    ensures Items(Seed, Some("1"), Some("2"), false).response == Response(200, ItemRows([]))
    ensures var added := AddItem(Seed, Burger, false);
            var gone := DeleteItem(added.db, "1", false);
            && added.response == Response(201, CreatedId(1))
            && Item(added.db, Some("1"), false).response == Response(200, ItemRecord(RowFor(1, Burger)))
            && RowFor(1, Burger).facts.name == Str("Burger")
            && RowFor(1, Burger).facts.calories == Num(500.0)
            && RowFor(1, Burger).facts.sodium == Null
            && gone.response == Response(204, NoContent)
            && Item(gone.db, Some("1"), false).response == Response(404, ErrorBody("Item not found"))
  {
  }

  /** Without DISTINCT, a branch with two locations in one country is listed twice. */
  lemma BranchListedPerLocation()
    ensures var db := Seed.(locations := [Location(3, 2, 1), Location(4, 2, 1)]);
            Branches(db, Some("1"), false).response.body.rows == [NameRow(2, "Test Co"), NameRow(2, "Test Co")]
  {
  }
}
