/**
 The pure rules of the home page: which logo a branch gets, which menu items
 the search box keeps, and how the result cards are laid out.
 */
module Home {
  import opened Wrappers
  import opened Js
  import opened Store
  import opened Router

  // ---------------------------------------------------------------------
  // Branch logos

  /** The inline SVG shown for a branch no key matches. */
  const Placeholder: string := "data:image/svg+xml;base64,PHN2ZyB4bWxucz0iaHR0cDovL3d3dy53My5vcmcvMjAwMC9zdmciIHZpZXdCb3g9IjAgMCAyNDAgMjQwIiBmaWxsPSIjMDAwIj48dGV4dCB4PSI4MCIgeT0iMTMwIiBmb250LWZhbWlseT0iQXJpYWwiIGZvbnQtc2l6ZT0iMjQiPkJyYW5jaDwvdGV4dD48L3N2Zz4="

  /** The `brandLogos` object, as (key, url) pairs in property order. */
  const BrandLogos: seq<(string, string)> := [
    ("burger king", "https://logo.clearbit.com/burgerking.com"),
    ("dominos", "https://logo.clearbit.com/dominos.com"),
    ("domino's", "https://logo.clearbit.com/dominos.com"),
    ("dunkin", "https://logo.clearbit.com/dunkindonuts.com"),
    ("dunkin'", "https://logo.clearbit.com/dunkindonuts.com"),
    ("mcdonald", "https://logo.clearbit.com/mcdonalds.com"),
    ("mcdonald's", "https://logo.clearbit.com/mcdonalds.com"),
    ("pizza hut", "https://logo.clearbit.com/pizzahut.com"),
    ("starbucks", "https://logo.clearbit.com/starbucks.com"),
    ("taco bell", "https://logo.clearbit.com/tacobell.com"),
    ("wendys", "https://logo.clearbit.com/wendys.com"),
    ("wendy's", "https://logo.clearbit.com/wendys.com"),
    ("kfc", "https://logo.clearbit.com/kfc.com"),
    ("kentucky fried chicken", "https://logo.clearbit.com/kfc.com"),
    ("subway", "https://logo.clearbit.com/subway.com")
  ]

  /** An object literal's keys are distinct and, here, every url is a non-empty string. */
  predicate WellFormedTable(table: seq<(string, string)>) {
    && (forall i, j :: 0 <= i < j < |table| ==> table[i].0 != table[j].0)
    && (forall i :: 0 <= i < |table| ==> table[i].1 != "")
  }

  /** Length, first and last character: enough to tell the brand keys apart. */
  function KeyShape(key: string): (int, char, char) {
    if key == [] then (0, ' ', ' ') else (|key|, key[0], key[|key| - 1])
  }

  lemma BrandLogosWellFormed()
    ensures WellFormedTable(BrandLogos)
  {
    forall i, j | 0 <= i < j < |BrandLogos| ensures BrandLogos[i].0 != BrandLogos[j].0 {
      assert KeyShape(BrandLogos[i].0) != KeyShape(BrandLogos[j].0);
    }
  }

  /** `table[key]` on the object's own properties. */
  function Lookup(table: seq<(string, string)>, key: string): Option<string> {
    if table == [] then None
    else if table[0].0 == key then Some(table[0].1)
    else Lookup(table[1..], key)
  }

  /** The url of the first key, in property order, that `lowerName` includes. */
  function FirstIncluded(table: seq<(string, string)>, lowerName: string): Option<string> {
    if table == [] then None
    else if Includes(lowerName, table[0].0) then Some(table[0].1)
    else FirstIncluded(table[1..], lowerName)
  }

  /** The substring scan, taken when the exact lookup finds nothing truthy. */
  function ScanOrPlaceholder(table: seq<(string, string)>, lowerName: string): string {
    match FirstIncluded(table, lowerName)
    case Some(url) => url
    case None => Placeholder
  }

  /** The logo choice for an already lower-cased name, against any table. */
  function Resolve(table: seq<(string, string)>, lowerName: string): string {
    match Lookup(table, lowerName)
    case Some(url) => if url != "" then url else ScanOrPlaceholder(table, lowerName)
    case None => ScanOrPlaceholder(table, lowerName)
  }

  /** The logo of a branch: exact key first, then the first key the name includes. */
  function ResolveLogo(name: string): (url: string)
    ensures url == Placeholder || exists k :: 0 <= k < |BrandLogos| && url == BrandLogos[k].1
  {
    ResolveIsTableUrlOrPlaceholder(BrandLogos, Lower(name));
    Resolve(BrandLogos, Lower(name))
  }

  lemma {:induction false} ResolveIsTableUrlOrPlaceholder(table: seq<(string, string)>, lowerName: string)
    ensures var url := Resolve(table, lowerName);
            url == Placeholder || exists k :: 0 <= k < |table| && url == table[k].1
  {
    LookupFindsUrl(table, lowerName);
    FirstIncludedFindsUrl(table, lowerName);
  }

  lemma {:induction false} LookupFindsUrl(table: seq<(string, string)>, key: string)
    ensures Lookup(table, key).Some? ==>
      exists k :: 0 <= k < |table| && table[k] == (key, Lookup(table, key).value)
  {
    if table != [] && table[0].0 != key {
      LookupFindsUrl(table[1..], key);
      if Lookup(table, key).Some? {
        var k :| 0 <= k < |table[1..]| && table[1..][k] == (key, Lookup(table, key).value);
        assert table[k + 1] == table[1..][k];
      }
    } else if table != [] {
      assert table[0] == (key, Lookup(table, key).value);
    }
  }

  /** `k` is the first key, in property order, that `lowerName` includes. */
  ghost predicate FirstIncludedAt(table: seq<(string, string)>, lowerName: string, k: int) {
    && 0 <= k < |table|
    && Includes(lowerName, table[k].0)
    && forall j :: 0 <= j < k ==> !Includes(lowerName, table[j].0)
  }

  lemma {:induction false} FirstIncludedFindsUrl(table: seq<(string, string)>, lowerName: string)
    ensures FirstIncluded(table, lowerName).None? <==>
      forall k :: 0 <= k < |table| ==> !Includes(lowerName, table[k].0)
    ensures FirstIncluded(table, lowerName).Some? ==>
      exists k :: FirstIncludedAt(table, lowerName, k) && FirstIncluded(table, lowerName).value == table[k].1
  {
    if table != [] {
      if Includes(lowerName, table[0].0) {
        assert FirstIncludedAt(table, lowerName, 0);
      } else {
        FirstIncludedFindsUrl(table[1..], lowerName);
        forall k | 0 < k < |table| ensures table[k] == table[1..][k - 1] { }
        if FirstIncluded(table, lowerName).Some? {
          var k :| FirstIncludedAt(table[1..], lowerName, k)
                   && FirstIncluded(table, lowerName).value == table[1..][k].1;
          assert FirstIncludedAt(table, lowerName, k + 1);
        }
      }
    }
  }

  lemma {:induction false} LookupExactKey(table: seq<(string, string)>, k: nat)
    requires WellFormedTable(table)
    requires k < |table|
    ensures Lookup(table, table[k].0) == Some(table[k].1)
  {
    if k > 0 {
      var rest := table[1..];
      assert WellFormedTable(rest) by {
        forall i, j | 0 <= i < j < |rest| ensures rest[i].0 != rest[j].0 {
          assert rest[i] == table[i + 1] && rest[j] == table[j + 1];
        }
      }
      assert rest[k - 1] == table[k];
      LookupExactKey(rest, k - 1);
    }
  }

  lemma {:induction false} LookupMissingKey(table: seq<(string, string)>, key: string)
    requires forall k :: 0 <= k < |table| ==> table[k].0 != key
    ensures Lookup(table, key) == None
  {
    if table != [] {
      assert forall k :: 0 <= k < |table[1..]| ==> table[1..][k] == table[k + 1];
      LookupMissingKey(table[1..], key);
    }
  }

  /** A lower-cased name that is exactly a key gets that key's url. */
  lemma ExactKeyWins(name: string, k: nat)
    requires k < |BrandLogos|
    requires Lower(name) == BrandLogos[k].0
    ensures ResolveLogo(name) == BrandLogos[k].1
  {
    BrandLogosWellFormed();
    LookupExactKey(BrandLogos, k);
  }

  /** Otherwise the first key, in property order, that the lower-cased name includes wins. */
  lemma FirstIncludedKeyWins(name: string, k: nat)
    requires forall j :: 0 <= j < |BrandLogos| ==> BrandLogos[j].0 != Lower(name)
    requires FirstIncludedAt(BrandLogos, Lower(name), k)
    ensures ResolveLogo(name) == BrandLogos[k].1
  {
    LookupMissingKey(BrandLogos, Lower(name));
    FirstIncludedFindsUrl(BrandLogos, Lower(name));
    var k' :| FirstIncludedAt(BrandLogos, Lower(name), k')
              && FirstIncluded(BrandLogos, Lower(name)).value == BrandLogos[k'].1;
    assert k' == k;
  }

  /** A name that includes no key gets the placeholder. */
  lemma NoKeyPlaceholder(name: string)
    requires forall j :: 0 <= j < |BrandLogos| ==> !Includes(Lower(name), BrandLogos[j].0)
    ensures ResolveLogo(name) == Placeholder
  {
    forall j | 0 <= j < |BrandLogos| ensures BrandLogos[j].0 != Lower(name) {
      IncludesSelfAndEmpty(Lower(name));
    }
    LookupMissingKey(BrandLogos, Lower(name));
    FirstIncludedFindsUrl(BrandLogos, Lower(name));
  }

  /** The choice depends on the lower-cased name only. */
  lemma LogoIgnoresCase(a: string, b: string)
    requires Lower(a) == Lower(b)
    ensures ResolveLogo(a) == ResolveLogo(b)
    ensures ResolveLogo(Lower(a)) == ResolveLogo(a)
  {
    LowerIdempotent(a);
  }

  /** What the lookup `brandLogos[key]` also reaches: the members an object
      literal inherits from `Object.prototype` whose names are all lower case,
      with the text they turn into inside the `src` attribute. */
  const InheritedMembers: seq<(string, string)> := [
    ("constructor", "function Object() { [native code] }"),
    ("__proto__", "[object Object]")
  ]

  /** The lookup as the page performs it: a truthy inherited member counts as an exact match. */
  function ResolveLogoAsWritten(name: string): (src: string)
    ensures || src == Placeholder
            || (exists k :: 0 <= k < |BrandLogos| && src == BrandLogos[k].1)
            || (exists k :: 0 <= k < |InheritedMembers| && src == InheritedMembers[k].1)
  {
    ResolveIsTableUrlOrPlaceholder(BrandLogos, Lower(name));
    LookupFindsUrl(InheritedMembers, Lower(name));
    var lower := Lower(name);
    match Lookup(BrandLogos, lower)
    case Some(url) => if url != "" then url else ScanOrPlaceholder(BrandLogos, lower)
    case None =>
      match Lookup(InheritedMembers, lower)
      case Some(text) => text
      case None => ScanOrPlaceholder(BrandLogos, lower)
  }

  /** A branch named "Constructor" gets the text of the `Object` function as its
      image source, where the placeholder was meant. */
  lemma ConstructorBranchLogo()
    ensures ResolveLogoAsWritten("Constructor") == "function Object() { [native code] }"
    ensures ResolveLogo("Constructor") == Placeholder
  {
    LowerConstructor();
    NoBrandKeyInConstructor();
    IncludesSelfAndEmpty("constructor");
    LookupMissingKey(BrandLogos, "constructor");
    assert Lookup(InheritedMembers, "constructor") == Some("function Object() { [native code] }");
    NoKeyPlaceholder("Constructor");
  }

  lemma LowerConstructor()
    ensures Lower("Constructor") == "constructor"
  {
  }

  lemma KeyAbsent(s: string, key: string, w: nat)
    requires w < |key| && key[w] !in s
    ensures !Includes(s, key)
  {
  }

  /** Every key has a letter "constructor" lacks. */
  lemma NoBrandKeyInConstructor()
    ensures forall j :: 0 <= j < |BrandLogos| ==> !Includes("constructor", BrandLogos[j].0)
  {
    forall j | 0 <= j < |BrandLogos| ensures !Includes("constructor", BrandLogos[j].0) {
      var w := if j == 9 then 1 else if j == 8 || j == 14 then 2 else 0;
      KeyAbsent("constructor", BrandLogos[j].0, w);
    }
  }

  /** Outside the two inherited names the page's lookup and the own-property one agree. */
  lemma AsWrittenAgreesElsewhere(name: string)
    requires Lower(name) != "constructor" && Lower(name) != "__proto__"
    ensures ResolveLogoAsWritten(name) == ResolveLogo(name)
  {
    LookupMissingKey(InheritedMembers, Lower(name));
  }

  // ---------------------------------------------------------------------
  // Search

  /** `xs` is `ys` with some elements deleted, order kept. */
  ghost predicate Subsequence<T>(xs: seq<T>, ys: seq<T>)
    decreases |ys|
  {
    if xs == [] then true
    else if ys == [] then false
    else (xs[0] == ys[0] && Subsequence(xs[1..], ys[1..])) || Subsequence(xs, ys[1..])
  }

  /** Every item's name is a string, so `item.name.toLowerCase()` does not throw. */
  ghost predicate NamesAreStrings(items: seq<ItemView>) {
    forall i :: 0 <= i < |items| ==> items[i].facts.name.Str?
  }

  /** The item's lower-cased name includes the (lower-cased) term. */
  predicate Hit(v: ItemView, lowerTerm: string) {
    v.facts.name.Str? && Includes(Lower(v.facts.name.s), lowerTerm)
  }

  /** `foodItems.filter(...)` with the term already lower-cased; `None` is the
      TypeError thrown by a name that is not a string. */
  function FilterLowered(items: seq<ItemView>, lowerTerm: string): (r: Option<seq<ItemView>>)
    ensures r.Some? <==> NamesAreStrings(items)
    ensures r.Some? ==> Subsequence(r.value, items)
    ensures r.Some? ==> forall v :: multiset(r.value)[v] == if Hit(v, lowerTerm) then multiset(items)[v] else 0
  {
    if items == [] then Some([])
    else if !items[0].facts.name.Str? then None
    else
      assert forall i :: 0 < i < |items| ==> items[i] == items[1..][i - 1];
      assert items == [items[0]] + items[1..];
      match FilterLowered(items[1..], lowerTerm)
      case None => None
      case Some(rest) =>
        if Hit(items[0], lowerTerm) then Some([items[0]] + rest)
        else
          SubsequenceOfTail(rest, items);
          Some(rest)
  }

  lemma SubsequenceOfTail<T>(xs: seq<T>, ys: seq<T>)
    requires ys != [] && Subsequence(xs, ys[1..])
    ensures Subsequence(xs, ys)
  {
  }

  /** The search box: items whose lower-cased name includes the lower-cased term, in list order. */
  function SearchFilter(items: seq<ItemView>, term: string): (r: Option<seq<ItemView>>)
    ensures r.Some? <==> NamesAreStrings(items)
    ensures r.Some? ==> Subsequence(r.value, items)
    ensures r.Some? ==> forall v :: multiset(r.value)[v] == if Hit(v, Lower(term)) then multiset(items)[v] else 0
  {
    FilterLowered(items, Lower(term))
  }

  lemma {:induction false} FilterLoweredIdempotent(items: seq<ItemView>, lowerTerm: string)
    requires FilterLowered(items, lowerTerm).Some?
    ensures FilterLowered(FilterLowered(items, lowerTerm).value, lowerTerm) == FilterLowered(items, lowerTerm)
  {
    if items != [] {
      FilterLoweredIdempotent(items[1..], lowerTerm);
      var rest := FilterLowered(items[1..], lowerTerm).value;
      if Hit(items[0], lowerTerm) {
        var kept := [items[0]] + rest;
        assert kept[0] == items[0] && kept[1..] == rest;
      }
    }
  }

  /** Searching the results again with the same term changes nothing. */
  lemma SearchIdempotent(items: seq<ItemView>, term: string)
    requires SearchFilter(items, term).Some?
    ensures SearchFilter(SearchFilter(items, term).value, term) == SearchFilter(items, term)
  {
    FilterLoweredIdempotent(items, Lower(term));
  }

  lemma {:induction false} FilterEmptyTerm(items: seq<ItemView>)
    requires NamesAreStrings(items)
    ensures FilterLowered(items, "") == Some(items)
  {
    if items != [] {
      assert NamesAreStrings(items[1..]) by {
        assert forall i :: 0 <= i < |items[1..]| ==> items[1..][i] == items[i + 1];
      }
      FilterEmptyTerm(items[1..]);
      IncludesSelfAndEmpty(Lower(items[0].facts.name.s));
      assert Hit(items[0], "");
      assert FilterLowered(items, "") == Some([items[0]] + items[1..]);
      assert [items[0]] + items[1..] == items;
    }
  }

  /** An empty search term keeps every item. */
  lemma EmptyTermKeepsAll(items: seq<ItemView>)
    requires NamesAreStrings(items)
    ensures SearchFilter(items, "") == Some(items)
  {
    assert Lower("") == "";
    FilterEmptyTerm(items);
  }

  // ---------------------------------------------------------------------
  // Result cards

  /** The number of `food-category-N` styles and of entries in `foodIcons`. */
  const CategoryCount := 5
  const IconCount := 5

  /** One rendered card: its style class number, its icon index, the item it opens and its title. */
  datatype Card = Card(category: nat, icon: nat, itemId: nat, title: Value)

  /** The results area: the "No menu items found" message, or a grid of cards. */
  datatype Results = NoItemsFound | CardGrid(cards: seq<Card>)

  /** `!item.id` is false: the item has a truthy id. */
  predicate HasId(v: ItemView) {
    Truthy(Num(v.id as real))
  }

  /** The card for the item at position `index` of the list being shown. */
  function CardAt(v: ItemView, index: nat): Card {
    Card(index % CategoryCount + 1, index % IconCount, v.id, v.facts.name)
  }

  /** `displayResults`: one card per item with an id, styled by its position in
      the whole list; `positions` records which item each card came from. */
  method DisplayResults(items: seq<ItemView>) returns (shown: Results, ghost positions: seq<nat>)
    ensures items == [] <==> shown == NoItemsFound
    ensures shown.CardGrid? ==>
      && |positions| == |shown.cards|
      && (forall k :: 0 <= k < |positions| ==>
            positions[k] < |items| && HasId(items[positions[k]])
            && shown.cards[k] == CardAt(items[positions[k]], positions[k]))
      && (forall k1, k2 :: 0 <= k1 < k2 < |positions| ==> positions[k1] < positions[k2])
      && (forall i :: 0 <= i < |items| && HasId(items[i]) ==> i in positions)
    ensures shown.CardGrid? ==>
      forall c :: c in shown.cards ==> 1 <= c.category <= 5 && c.icon == c.category - 1
  {
    if items == [] {
      return NoItemsFound, [];
    }
    var cards: seq<Card> := [];
    positions := [];
    var index := 0;
    while index < |items|
      invariant 0 <= index <= |items|
      invariant |positions| == |cards|
      invariant forall k :: 0 <= k < |positions| ==>
        positions[k] < index && HasId(items[positions[k]])
        && cards[k] == CardAt(items[positions[k]], positions[k])
      invariant forall k1, k2 :: 0 <= k1 < k2 < |positions| ==> positions[k1] < positions[k2]
      invariant forall i :: 0 <= i < index && HasId(items[i]) ==> i in positions
    {
      if HasId(items[index]) {
        cards := cards + [CardAt(items[index], index)];
        positions := positions + [index];
      }
      index := index + 1;
    }
    shown := CardGrid(cards);
  }

  // ---------------------------------------------------------------------
  // Random pick

  /** What the random button does: open an item page, or alert. */
  datatype RandomAction = OpenItem(id: nat) | Alert(message: string)

  /** The random button, with `pick` standing for `Math.floor(Math.random() * n)`. */
  function RandomPick(items: seq<ItemView>, pick: nat): (a: RandomAction)
    requires items != [] ==> pick < |items|
    ensures items == [] <==> a == Alert("Please select a country and branch first.")
    ensures items != [] ==> a.OpenItem? && exists i :: 0 <= i < |items| && items[i].id == a.id
  {
    if items != [] then OpenItem(items[pick].id)
    else Alert("Please select a country and branch first.")
  }
}
