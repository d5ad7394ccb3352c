/**
 The relational store behind the router: the four tables `countries`,
 `branches`, `branch_locations` and `food_items`, the integrity the schema
 keeps (primary keys, the AUTO_INCREMENT counter), and the way a string
 request parameter is compared with an integer column.
 */
module Store {
  import opened Wrappers
  import opened Js

  datatype Country = Country(id: nat, name: string)

  datatype Branch = Branch(id: nat, name: string)

  /** A `branch_locations` row: branch `branchId` operates in country `countryId`. */
  datatype Location = Location(id: nat, branchId: nat, countryId: nat)

  /** The eleven nutrition columns of `food_items`, each nullable. */
  datatype Facts = Facts(
    name: Value, servingSize: Value, calories: Value, totalFat: Value,
    saturatedFat: Value, transFat: Value, cholesterol: Value, sodium: Value,
    carbohydrates: Value, sugars: Value, protein: Value)

  /** A `food_items` row; `location` is its `branch_location_id` column. */
  datatype FoodItem = FoodItem(id: nat, location: Value, facts: Facts)

  /** The whole store; `nextId` is the AUTO_INCREMENT counter of `food_items`. */
  datatype Db = Db(
    countries: seq<Country>,
    branches: seq<Branch>,
    locations: seq<Location>,
    items: seq<FoodItem>,
    nextId: nat)

  predicate DistinctCountryIds(cs: seq<Country>) {
    forall i, j :: 0 <= i < j < |cs| ==> cs[i].id != cs[j].id
  }

  predicate DistinctBranchIds(bs: seq<Branch>) {
    forall i, j :: 0 <= i < j < |bs| ==> bs[i].id != bs[j].id
  }

  predicate DistinctLocationIds(ls: seq<Location>) {
    forall i, j :: 0 <= i < j < |ls| ==> ls[i].id != ls[j].id
  }

  predicate DistinctItemIds(items: seq<FoodItem>) {
    forall i, j :: 0 <= i < j < |items| ==> items[i].id != items[j].id
  }

  /** The schema's guarantees: every `id` is a primary key, and the
      AUTO_INCREMENT counter is above every item id handed out so far. */
  predicate Valid(db: Db) {
    && DistinctCountryIds(db.countries)
    && DistinctBranchIds(db.branches)
    && DistinctLocationIds(db.locations)
    && DistinctItemIds(db.items)
    && forall fi :: fi in db.items ==> fi.id < db.nextId
  }

  predicate IsDigit(c: char) {
    '0' <= c <= '9'
  }

  function DigitValue(c: char): nat
    requires IsDigit(c)
  {
    c as int - '0' as int
  }

  function DigitChar(d: nat): (c: char)
    requires d < 10
    ensures IsDigit(c) && DigitValue(c) == d
  {
    ('0' as int + d) as char
  }

  /** The value of a non-empty string of decimal digits; `None` for anything else. */
  function ParseNat(s: string): Option<nat>
  {
    if s == [] || !IsDigit(s[|s| - 1]) then None
    else if |s| == 1 then Some(DigitValue(s[0]))
    else match ParseNat(s[..|s| - 1])
      case None => None
      case Some(n) => Some(10 * n + DigitValue(s[|s| - 1]))
  }

  /** The decimal rendering of `n`, as JSON serialisation and URL building produce it. */
  function ShowNat(n: nat): (s: string)
    ensures s != []
    ensures forall i :: 0 <= i < |s| ==> IsDigit(s[i])
  {
    if n < 10 then [DigitChar(n)] else ShowNat(n / 10) + [DigitChar(n % 10)]
  }

  /** Reading back a rendered id gives the id. */
  lemma {:induction false} ParseShowNat(n: nat)
    ensures ParseNat(ShowNat(n)) == Some(n)
  {
    if n >= 10 {
      var s := ShowNat(n);
      assert s[..|s| - 1] == ShowNat(n / 10);
      ParseShowNat(n / 10);
    }
  }

  /** The SQL comparison `column = ?` of an integer column with a string parameter. */
  predicate Matches(param: string, id: nat) {
    ParseNat(param) == Some(id)
  }

  /** The key a stored `branch_location_id` value denotes, if any. */
  function AsKey(v: Value): Option<nat> {
    match v
    case Num(r) => if r >= 0.0 && r == r.Floor as real then Some(r.Floor as nat) else None
    case Str(s) => ParseNat(s)
    case _ => None
  }

  /** The SQL join condition `fi.branch_location_id = bl.id`. */
  predicate RefersTo(v: Value, id: nat) {
    AsKey(v) == Some(id)
  }

  /** What the driver writes for a bound parameter: `undefined` becomes NULL. */
  function Stored(v: Value): Value {
    if v.Undefined? then Null else v
  }

  function StoredFacts(f: Facts): Facts {
    Facts(Stored(f.name), Stored(f.servingSize), Stored(f.calories), Stored(f.totalFat),
          Stored(f.saturatedFat), Stored(f.transFat), Stored(f.cholesterol), Stored(f.sodium),
          Stored(f.carbohydrates), Stored(f.sugars), Stored(f.protein))
  }
}
