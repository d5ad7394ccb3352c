/**
 The item page: it reads `id` from the query string, asks the backend for
 that item once, and shows its nutrition facts with an "N/A" fallback.
 */
module ItemPage {
  import opened Wrappers
  import opened Js
  import opened Store
  import opened Router

  /** The decoded query string of the page, as (name, value) pairs in order. */
  type Params = seq<(string, string)>

  /** `new URLSearchParams(search).get(name)`: the first value given for `name`. */
  function ParamGet(params: Params, name: string): (r: Option<string>)
    ensures r.None? <==> forall i :: 0 <= i < |params| ==> params[i].0 != name
    ensures r.Some? ==> exists i :: 0 <= i < |params| && params[i] == (name, r.value)
                          && forall j :: 0 <= j < i ==> params[j].0 != name
  {
    if params == [] then None
    else if params[0].0 == name then Some(params[0].1)
    else
      var r := ParamGet(params[1..], name);
      assert forall i :: 0 < i < |params| ==> params[i] == params[1..][i - 1];
      if r.Some? then
        var i :| 0 <= i < |params[1..]| && params[1..][i] == (name, r.value)
                 && forall j :: 0 <= j < i ==> params[1..][j].0 != name;
        assert params[i + 1] == (name, r.value);
        r
      else r
  }

  /** The raw value is unusable as an id: blank, or the text a missing id renders to. */
  ghost predicate Unusable(val: string) {
    AllWhitespace(val) || val == "undefined"
  }

  /** `getQueryParam`: the value, untrimmed, unless it is absent, blank or "undefined". */
  function GetQueryParam(params: Params, name: string): (r: Option<string>)
    ensures r.None? <==> ParamGet(params, name).None? || Unusable(ParamGet(params, name).value)
    ensures r.Some? ==> r == ParamGet(params, name)
  {
    match ParamGet(params, name)
    case None => None
    case Some(val) =>
      TrimEmptyIff(val);
      if val != "" && Trim(val) != "" && val != "undefined" then Some(val) else None
  }

  /** `value || "N/A"`: what the page shows for one field. */
  function Shown(v: Value): (r: Value)
    ensures Truthy(r)
    ensures Truthy(v) ==> r == v
    ensures !Truthy(v) ==> r == Str("N/A")
  {
    Or(v, Str("N/A"))
  }

  /** A stored 0 is falsy, so zero calories read "N/A"; a DECIMAL column the
      driver hands over as the string "0.00" is shown as it is. */
  lemma ZeroShowsNotAvailable()
    ensures Shown(Num(0.0)) == Str("N/A")
    ensures Shown(Str("0.00")) == Str("0.00")
    ensures Shown(Null) == Str("N/A")
  {
  }

  /** The eleven fields the page fills in, in page order. */
  function FactList(f: Facts): seq<Value> {
    [f.name, f.servingSize, f.calories, f.totalFat, f.saturatedFat, f.transFat,
     f.cholesterol, f.sodium, f.carbohydrates, f.sugars, f.protein]
  }

  /** The texts of the page for one item record. */
  function Details(item: FoodItem): (shown: seq<Value>)
    ensures |shown| == 11
    ensures forall k :: 0 <= k < 11 ==>
      && Truthy(shown[k])
      && (Truthy(FactList(item.facts)[k]) ==> shown[k] == FactList(item.facts)[k])
      && (!Truthy(FactList(item.facts)[k]) ==> shown[k] == Str("N/A"))
  {
    var facts := FactList(item.facts);
    seq(11, k requires 0 <= k < 11 => Shown(facts[k]))
  }

  /** What the page does once loaded: alert, or fetch one item. */
  datatype Effect = ShowAlert(message: string) | FetchItem(id: string)

  /** The page's top-level code: no usable id, an alert; otherwise one fetch of `/item?id=`. */
  function OnLoad(params: Params): (effects: seq<Effect>)
    ensures |effects| == 1
    ensures effects[0].FetchItem? <==>
      ParamGet(params, "id").Some? && !Unusable(ParamGet(params, "id").value)
    ensures effects[0].FetchItem? ==> effects[0].id == ParamGet(params, "id").value
    ensures !effects[0].FetchItem? ==> effects[0] == ShowAlert("No valid item ID provided in the URL")
  {
    match GetQueryParam(params, "id")
    case None => [ShowAlert("No valid item ID provided in the URL")]
    case Some(id) => [FetchItem(id)]
  }

  /** What the page ends up showing after the fetch. */
  datatype Screen =
    | DetailsShown(fields: seq<Value>)
    | Alerted(message: string)
    | EmptyBodyError

  /** `fetchFoodDetails` once the response arrives: a non-2xx status raises the
      alert; a JSON object is read field by field (missing fields are
      `undefined`); an empty body cannot be parsed as JSON. */
  function OnResponse(resp: Response): (s: Screen)
    ensures !(200 <= resp.status < 300) ==> s == Alerted("Failed to fetch food details")
    ensures 200 <= resp.status < 300 && resp.body.ItemRecord? ==> s == DetailsShown(Details(resp.body.item))
  {
    if !(200 <= resp.status < 300) then Alerted("Failed to fetch food details")
    else match resp.body
      case ItemRecord(item) => DetailsShown(Details(item))
      case NoContent => EmptyBodyError
      case _ => DetailsShown(seq(11, k => Str("N/A")))
  }

  lemma DigitsAreUsable(s: string)
    requires s != [] && forall i :: 0 <= i < |s| ==> IsDigit(s[i])
    ensures !Unusable(s)
  {
    assert !IsWhitespace(s[0]);
  }

  /** A link to a stored item (`item.html?id=<id>`) fetches it and shows its facts. */
  lemma StoredItemPage(db: Db, params: Params, fi: FoodItem)
    requires Valid(db)
    requires fi in db.items
    requires ParamGet(params, "id") == Some(ShowNat(fi.id))
    ensures OnLoad(params) == [FetchItem(ShowNat(fi.id))]
    ensures OnResponse(Item(db, Some(ShowNat(fi.id)), false).response) == DetailsShown(Details(fi))
  {
    DigitsAreUsable(ShowNat(fi.id));
    ParseShowNat(fi.id);
    ItemReturnsStoredRow(db, ShowNat(fi.id), fi);
  }

  /** An id no stored item has ends in the failure alert. */
  lemma MissingItemPage(db: Db, id: string)
    requires id != ""
    requires forall fi :: fi in db.items ==> !Matches(id, fi.id)
    ensures OnResponse(Item(db, Some(id), false).response) == Alerted("Failed to fetch food details")
  {
  }
}
