/** The stock-aware sorter: orders a product sequence by a sorting rule within an in-stock
    group (`StockQuantity > 0`) and an out-of-stock group (`StockQuantity <= 0`), and lists one
    group after the other as the stock-priority flag says. */
module ProductOrdering {
  import opened Catalog
  import opened Sequences

  predicate InStock(p: Product) { p.StockQuantity > 0 }

  predicate OutOfStock(p: Product) { p.StockQuantity <= 0 }

  // The comparators of the sorting rules; each holds when its first argument may come first.

  predicate PriceAscLe(a: Product, b: Product) { a.Price <= b.Price }

  predicate PriceDescLe(a: Product, b: Product) { a.Price >= b.Price }

  /** Newest first. */
  predicate CreatedOnLe(a: Product, b: Product) { a.CreatedOnUtc >= b.CreatedOnUtc }

  /** Display order, then id. */
  predicate PositionLe(a: Product, b: Product) {
    a.DisplayOrder < b.DisplayOrder || (a.DisplayOrder == b.DisplayOrder && a.Id <= b.Id)
  }

  /** Largest stock quantity first. */
  predicate StockDescLe(a: Product, b: Product) { a.StockQuantity >= b.StockQuantity }

  lemma ComparatorsArePreorders()
    ensures TotalPreorder(PriceAscLe) && TotalPreorder(PriceDescLe) && TotalPreorder(CreatedOnLe)
    ensures TotalPreorder(PositionLe) && TotalPreorder(StockDescLe)
  {
  }

  // ---------------------------------------------------------------------------------------
  // Name sorting: the left join of products with their localized names

  /** A product paired with the name it is sorted by. */
  datatype NamedProduct = NamedProduct(SortName: string, Item: Product)

  predicate NameAscLe(a: NamedProduct, b: NamedProduct) { StrLe(a.SortName, b.SortName) }

  predicate NameDescLe(a: NamedProduct, b: NamedProduct) { StrLe(b.SortName, a.SortName) }

  function NameLe(descending: bool): (NamedProduct, NamedProduct) -> bool {
    if descending then NameDescLe else NameAscLe
  }

  lemma {:induction false} NameOrdersArePreorders(descending: bool)
    ensures TotalPreorder(NameLe(descending))
  {
    forall a: string, b: string ensures StrLe(a, b) || StrLe(b, a) {
      StrLeTotal(a, b);
    }
    forall a: string, b: string, c: string | StrLe(a, b) && StrLe(b, c) ensures StrLe(a, c) {
      StrLeTransitive(a, b, c);
    }
  }

  /** `lp` overrides the name of product `productId` in language `languageId`. */
  predicate IsNameOverride(lp: LocalizedProperty, productId: int, languageId: int) {
    lp.EntityId == productId && lp.LanguageId == languageId
    && lp.LocaleKeyGroup == "Product" && lp.LocaleKey == "Name"
  }

  /** The name overrides of one product in one language, in table order. */
  function NameOverrides(props: seq<LocalizedProperty>, productId: int, languageId: int): (r: seq<string>)
    ensures |r| <= |props|
  {
    if props == [] then []
    else if IsNameOverride(props[0], productId, languageId)
    then [props[0].LocaleValue] + NameOverrides(props[1..], productId, languageId)
    else NameOverrides(props[1..], productId, languageId)
  }

  /** The name a product is sorted by: its first name override, or its own name. */
  function SortName(p: Product, props: seq<LocalizedProperty>, languageId: int): string {
    var v := NameOverrides(props, p.Id, languageId);
    if v == [] then p.Name else v[0]
  }

  /** The localized property table holds at most one name override per product and language. */
  predicate UniqueNameOverrides(props: seq<LocalizedProperty>, languageId: int) {
    forall i, j ::
      (0 <= i < j < |props| && IsNameOverride(props[i], props[i].EntityId, languageId)
       && IsNameOverride(props[j], props[j].EntityId, languageId))
      ==> props[i].EntityId != props[j].EntityId
  }

  /** The rows the left join yields for one product: one per name override, or a single row
      carrying the product's own name when there is none. */
  function NameRows(p: Product, props: seq<LocalizedProperty>, languageId: int): (r: seq<NamedProduct>)
    ensures |r| >= 1
    ensures forall i :: 0 <= i < |r| ==> r[i].Item == p
  {
    var v := NameOverrides(props, p.Id, languageId);
    if v == [] then [NamedProduct(p.Name, p)]
    else seq(|v|, i requires 0 <= i < |v| => NamedProduct(v[i], p))
  }

  /** The left join of `products` with their name overrides. */
  function JoinSortNames(products: seq<Product>, props: seq<LocalizedProperty>, languageId: int): seq<NamedProduct> {
    if products == [] then []
    else NameRows(products[0], props, languageId) + JoinSortNames(products[1..], props, languageId)
  }

  /** The products of the joined rows (`select item.product`). */
  function Items(rows: seq<NamedProduct>): (r: seq<Product>)
    ensures |r| == |rows|
  {
    seq(|rows|, i requires 0 <= i < |rows| => rows[i].Item)
  }

  /** The products ordered by sort name, before the stock split. */
  function SortByName(products: seq<Product>, props: seq<LocalizedProperty>, languageId: int, descending: bool): seq<Product> {
    Items(Sort(JoinSortNames(products, props, languageId), NameLe(descending)))
  }

  // ---------------------------------------------------------------------------------------
  // The sorter

  /** Joins the two groups: in-stock first when `isChecked`, out-of-stock first otherwise. */
  function ConcatQueries(inStock: seq<Product>, outOfStock: seq<Product>, isChecked: bool): seq<Product> {
    if isChecked then inStock + outOfStock else outOfStock + inStock
  }

  /** The name path of the public `OrderBy`: sort by name first, split by stock afterwards. */
  function OrderByName(products: seq<Product>, props: seq<LocalizedProperty>, languageId: int,
                       descending: bool, isChecked: bool): seq<Product>
  {
    var sorted := SortByName(products, props, languageId, descending);
    ConcatQueries(Filter(sorted, InStock), Filter(sorted, OutOfStock), isChecked)
  }

  /** The primary ordering of one group. `preordered` says whether the query object already
      counts as ordered, which makes `Position` keep the current order. */
  function PrimaryOrder(group: seq<Product>, rule: SortRule, preordered: bool): seq<Product> {
    match rule
    case PriceAsc => Sort(group, PriceAscLe)
    case PriceDesc => Sort(group, PriceDescLe)
    case CreatedOn => Sort(group, CreatedOnLe)
    case Position => if preordered then group else Sort(group, PositionLe)
    case _ => Sort(group, PositionLe)
  }

  /** The private `OrderBy`: the primary ordering, then, when `isChecked`, a last ordering by
      stock quantity descending, which dominates the primary one. */
  function OrderGroup(group: seq<Product>, rule: SortRule, preordered: bool, isChecked: bool): seq<Product> {
    var primary := PrimaryOrder(group, rule, preordered);
    if isChecked then Sort(primary, StockDescLe) else primary
  }

  /** The generic path: split by stock first, order each group, join. */
  function Result(products: seq<Product>, rule: SortRule, preordered: bool, isChecked: bool): seq<Product> {
    ConcatQueries(OrderGroup(Filter(products, InStock), rule, preordered, isChecked),
                  OrderGroup(Filter(products, OutOfStock), rule, preordered, isChecked),
                  isChecked)
  }

  /** The public `OrderBy`: name rules take the name path, every other rule the generic one. */
  function OrderBy(products: seq<Product>, props: seq<LocalizedProperty>, languageId: int,
                   rule: SortRule, preordered: bool, isChecked: bool): seq<Product>
  {
    if rule == NameAsc || rule == NameDesc
    then OrderByName(products, props, languageId, rule == NameDesc, isChecked)
    else Result(products, rule, preordered, isChecked)
  }

  // ---------------------------------------------------------------------------------------
  // Properties of results

  /** With `inStockFirst`, every in-stock product precedes every out-of-stock product; without,
      every out-of-stock product precedes every in-stock product. */
  predicate StockGrouped(r: seq<Product>, inStockFirst: bool) {
    forall i, j ::
      (0 <= i < |r| && 0 <= j < |r| && InStock(r[i]) == inStockFirst && InStock(r[j]) != inStockFirst)
      ==> i < j
  }

  /** Within each stock group, the products are in `le` order. */
  predicate GroupSortedBy(r: seq<Product>, le: (Product, Product) -> bool) {
    forall i, j :: 0 <= i < j < |r| && InStock(r[i]) == InStock(r[j]) ==> le(r[i], r[j])
  }

  /** The order the name rules promise on products, through their sort names. */
  function NameOrder(props: seq<LocalizedProperty>, languageId: int, descending: bool): (Product, Product) -> bool {
    (a: Product, b: Product) =>
      if descending then StrLe(SortName(b, props, languageId), SortName(a, props, languageId))
      else StrLe(SortName(a, props, languageId), SortName(b, props, languageId))
  }

  // ---------------------------------------------------------------------------------------
  // Lemmas about joined rows

  lemma ItemsAt(rows: seq<NamedProduct>, i: int)
    requires 0 <= i < |rows|
    ensures Items(rows)[i] == rows[i].Item
  {
  }

  lemma {:induction false} ItemsAppend(a: seq<NamedProduct>, b: seq<NamedProduct>)
    ensures Items(a + b) == Items(a) + Items(b)
  {
    forall i | 0 <= i < |a + b| ensures Items(a + b)[i] == (Items(a) + Items(b))[i] {
      ItemsAt(a + b, i);
      if i < |a| { ItemsAt(a, i); } else { ItemsAt(b, i - |a|); }
    }
  }

  lemma ItemsInsert(x: NamedProduct, t: seq<NamedProduct>, le: (NamedProduct, NamedProduct) -> bool)
    ensures multiset(Items(Insert(x, t, le))) == multiset(Items(t)) + multiset{x.Item}
  {
    var i := ItemsInsertSplits(x, t, le);
  }

  /** The products of the rows after an insertion: those before the insertion point, the
      inserted row's product, those after. */
  lemma ItemsInsertSplits(x: NamedProduct, t: seq<NamedProduct>, le: (NamedProduct, NamedProduct) -> bool) returns (i: nat)
    ensures i <= |t|
    ensures Items(Insert(x, t, le)) == Items(t[..i]) + [x.Item] + Items(t[i..])
    ensures Items(t) == Items(t[..i]) + Items(t[i..])
  {
    i := InsertSplits(x, t, le);
    ItemsAppend(t[..i] + [x], t[i..]);
    ItemsAppend(t[..i], [x]);
    assert Items([x]) == [x.Item];
    assert t == t[..i] + t[i..];
    ItemsAppend(t[..i], t[i..]);
  }

  /** Sorting the joined rows keeps the products they carry. */
  lemma {:induction false} ItemsSort(rows: seq<NamedProduct>, le: (NamedProduct, NamedProduct) -> bool)
    ensures multiset(Items(Sort(rows, le))) == multiset(Items(rows))
  {
    if rows != [] {
      var rest := Sort(rows[1..], le);
      assert Sort(rows, le) == Insert(rows[0], rest, le);
      ItemsSort(rows[1..], le);
      ItemsInsert(rows[0], rest, le);
      ItemsCons(rows);
    }
  }

  lemma ItemsCons(rows: seq<NamedProduct>)
    requires rows != []
    ensures Items(rows) == [rows[0].Item] + Items(rows[1..])
  {
  }

  /** Selecting rows by a property of their product selects those products. */
  lemma {:induction false} ItemsFilter(rows: seq<NamedProduct>, p: Product -> bool, q: NamedProduct -> bool)
    requires forall x :: x in rows ==> q(x) == p(x.Item)
    ensures Items(Filter(rows, q)) == Filter(Items(rows), p)
  {
    if rows != [] {
      assert rows[0] in rows;
      ItemsFilter(rows[1..], p, q);
      assert Items(rows)[1..] == Items(rows[1..]);
      if q(rows[0]) {
        ItemsAppend([rows[0]], Filter(rows[1..], q));
      }
    }
  }

  /** Selecting joined rows by a property of their product is joining the selected products. */
  lemma {:induction false} JoinFilter(s: seq<Product>, props: seq<LocalizedProperty>, languageId: int,
                                      p: Product -> bool, q: NamedProduct -> bool)
    requires forall x :: q(x) == p(x.Item)
    ensures Filter(JoinSortNames(s, props, languageId), q) == JoinSortNames(Filter(s, p), props, languageId)
  {
    if s != [] {
      var rows := NameRows(s[0], props, languageId);
      JoinFilter(s[1..], props, languageId, p, q);
      FilterAppend(rows, JoinSortNames(s[1..], props, languageId), q);
      if p(s[0]) {
        FilterAll(rows, q);
        assert ([s[0]] + Filter(s[1..], p))[1..] == Filter(s[1..], p);
      } else {
        FilterNone(rows, q);
      }
    }
  }

  /** Every product of the input has at least one joined row, and only those have rows. */
  lemma {:induction false} JoinMembers(s: seq<Product>, props: seq<LocalizedProperty>, languageId: int)
    ensures forall x :: x in Items(JoinSortNames(s, props, languageId)) <==> x in s
  {
    if s != [] {
      JoinMembers(s[1..], props, languageId);
      var rows := NameRows(s[0], props, languageId);
      ItemsAppend(rows, JoinSortNames(s[1..], props, languageId));
      ItemsAt(rows, 0);
      forall i | 0 <= i < |rows| ensures Items(rows)[i] == s[0] {
        ItemsAt(rows, i);
      }
      assert s == [s[0]] + s[1..];
    }
  }

  lemma {:induction false} NoOverrides(props: seq<LocalizedProperty>, productId: int, languageId: int)
    requires forall k :: 0 <= k < |props| ==> !IsNameOverride(props[k], productId, languageId)
    ensures NameOverrides(props, productId, languageId) == []
  {
    if props != [] {
      NoOverrides(props[1..], productId, languageId);
    }
  }

  lemma {:induction false} AtMostOneOverride(props: seq<LocalizedProperty>, productId: int, languageId: int)
    requires UniqueNameOverrides(props, languageId)
    ensures |NameOverrides(props, productId, languageId)| <= 1
  {
    if props != [] {
      AtMostOneOverride(props[1..], productId, languageId);
      if IsNameOverride(props[0], productId, languageId) {
        forall k | 0 <= k < |props[1..]| ensures !IsNameOverride(props[1..][k], productId, languageId) {
          assert props[1..][k] == props[k + 1];
        }
        NoOverrides(props[1..], productId, languageId);
      }
    }
  }

  /** The sort name is the first name override of the product in the language, in table order,
      or the product's own name when it has none; with at most one override per product and
      language, it is that override's value. */
  lemma {:induction false} SortNameKey(p: Product, props: seq<LocalizedProperty>, languageId: int)
    ensures (forall k :: 0 <= k < |props| ==> !IsNameOverride(props[k], p.Id, languageId))
            ==> SortName(p, props, languageId) == p.Name
    ensures forall k :: 0 <= k < |props| && IsNameOverride(props[k], p.Id, languageId)
                        && UniqueNameOverrides(props, languageId)
                        ==> SortName(p, props, languageId) == props[k].LocaleValue
  {
    if forall k :: 0 <= k < |props| ==> !IsNameOverride(props[k], p.Id, languageId) {
      NoOverrides(props, p.Id, languageId);
    }
    forall k | 0 <= k < |props| && IsNameOverride(props[k], p.Id, languageId) && UniqueNameOverrides(props, languageId)
      ensures SortName(p, props, languageId) == props[k].LocaleValue
    {
      OverrideAt(props, p.Id, languageId, k);
    }
  }

  lemma {:induction false} OverrideAt(props: seq<LocalizedProperty>, productId: int, languageId: int, k: int)
    requires 0 <= k < |props| && IsNameOverride(props[k], productId, languageId)
    requires UniqueNameOverrides(props, languageId)
    ensures NameOverrides(props, productId, languageId) == [props[k].LocaleValue]
  {
    if k == 0 {
      AtMostOneOverride(props, productId, languageId);
    } else {
      assert !IsNameOverride(props[0], productId, languageId);
      assert props[1..][k - 1] == props[k];
      OverrideAt(props[1..], productId, languageId, k - 1);
    }
  }

  /** A row whose name is the product's sort name. */
  predicate Canonical(row: NamedProduct, props: seq<LocalizedProperty>, languageId: int) {
    row.SortName == SortName(row.Item, props, languageId)
  }

  /** With at most one name override per product, a product has a single joined row, carrying
      its sort name. */
  lemma SingleRow(p: Product, props: seq<LocalizedProperty>, languageId: int)
    requires UniqueNameOverrides(props, languageId)
    ensures NameRows(p, props, languageId) == [NamedProduct(SortName(p, props, languageId), p)]
  {
    AtMostOneOverride(props, p.Id, languageId);
  }

  /** With at most one name override per product, the join yields exactly one row per product,
      carrying its sort name. */
  lemma {:induction false} JoinUnique(s: seq<Product>, props: seq<LocalizedProperty>, languageId: int)
    requires UniqueNameOverrides(props, languageId)
    ensures Items(JoinSortNames(s, props, languageId)) == s
    ensures forall i :: 0 <= i < |JoinSortNames(s, props, languageId)| ==>
              Canonical(JoinSortNames(s, props, languageId)[i], props, languageId)
  {
    if s != [] {
      var row := NamedProduct(SortName(s[0], props, languageId), s[0]);
      var tail := JoinSortNames(s[1..], props, languageId);
      SingleRow(s[0], props, languageId);
      JoinUnique(s[1..], props, languageId);
      assert JoinSortNames(s, props, languageId) == [row] + tail;
      ItemsAppend([row], tail);
      assert s == [s[0]] + s[1..];
    }
  }

  /** Joining the products of canonical rows gives those rows back. */
  lemma {:induction false} JoinItems(rows: seq<NamedProduct>, props: seq<LocalizedProperty>, languageId: int)
    requires UniqueNameOverrides(props, languageId)
    requires forall i :: 0 <= i < |rows| ==> Canonical(rows[i], props, languageId)
    ensures JoinSortNames(Items(rows), props, languageId) == rows
  {
    if rows != [] {
      var items := Items(rows);
      SingleRow(rows[0].Item, props, languageId);
      assert NameRows(items[0], props, languageId) == [rows[0]];
      JoinItems(rows[1..], props, languageId);
      assert items[1..] == Items(rows[1..]);
      assert JoinSortNames(items, props, languageId) == [rows[0]] + JoinSortNames(items[1..], props, languageId);
      assert rows == [rows[0]] + rows[1..];
    }
  }

  // ---------------------------------------------------------------------------------------
  // Lemmas about the sorter

  /** Two groups, each wholly on its side of the stock split, joined: the result is stock
      grouped, and splitting it again gives the groups back. */
  lemma ConcatGroups(a: seq<Product>, b: seq<Product>, isChecked: bool)
    requires forall i :: 0 <= i < |a| ==> InStock(a[i])
    requires forall i :: 0 <= i < |b| ==> OutOfStock(b[i])
    ensures StockGrouped(ConcatQueries(a, b, isChecked), isChecked)
    ensures Filter(ConcatQueries(a, b, isChecked), InStock) == a
    ensures Filter(ConcatQueries(a, b, isChecked), OutOfStock) == b
  {
    ConcatStockGrouped(a, b, isChecked);
    FilterAll(a, InStock);
    FilterNone(b, InStock);
    FilterAll(b, OutOfStock);
    FilterNone(a, OutOfStock);
    if isChecked {
      FilterAppend(a, b, InStock);
      FilterAppend(a, b, OutOfStock);
    } else {
      FilterAppend(b, a, InStock);
      FilterAppend(b, a, OutOfStock);
    }
  }

  lemma ConcatStockGrouped(a: seq<Product>, b: seq<Product>, isChecked: bool)
    requires forall i :: 0 <= i < |a| ==> InStock(a[i])
    requires forall i :: 0 <= i < |b| ==> OutOfStock(b[i])
    ensures StockGrouped(ConcatQueries(a, b, isChecked), isChecked)
  {
    var c := ConcatQueries(a, b, isChecked);
    var first, second := if isChecked then a else b, if isChecked then b else a;
    assert c == first + second;
    assert forall k :: 0 <= k < |first| ==> InStock(c[k]) == isChecked;
    assert forall k :: |first| <= k < |c| ==> c[k] == second[k - |first|] && InStock(c[k]) != isChecked;
  }

  /** An order both groups keep holds within each group of their join. */
  lemma ConcatSorted(a: seq<Product>, b: seq<Product>, isChecked: bool, le: (Product, Product) -> bool)
    requires forall i :: 0 <= i < |a| ==> InStock(a[i])
    requires forall i :: 0 <= i < |b| ==> OutOfStock(b[i])
    requires SortedBy(a, le) && SortedBy(b, le)
    ensures GroupSortedBy(ConcatQueries(a, b, isChecked), le)
  {
    var c := ConcatQueries(a, b, isChecked);
    var first, second := if isChecked then a else b, if isChecked then b else a;
    assert c == first + second;
    assert forall k :: 0 <= k < |first| ==> c[k] == first[k] && InStock(c[k]) == isChecked;
    assert forall k :: |first| <= k < |c| ==> c[k] == second[k - |first|] && InStock(c[k]) != isChecked;
  }

  lemma OrderGroupPermutes(group: seq<Product>, rule: SortRule, preordered: bool, isChecked: bool)
    ensures multiset(OrderGroup(group, rule, preordered, isChecked)) == multiset(group)
  {
  }

  /** Each ordered group of the generic path holds only products of its side of the split. */
  lemma ResultGroups(s: seq<Product>, rule: SortRule, preordered: bool, isChecked: bool)
    ensures forall i :: 0 <= i < |OrderGroup(Filter(s, InStock), rule, preordered, isChecked)| ==>
              InStock(OrderGroup(Filter(s, InStock), rule, preordered, isChecked)[i])
    ensures forall i :: 0 <= i < |OrderGroup(Filter(s, OutOfStock), rule, preordered, isChecked)| ==>
              OutOfStock(OrderGroup(Filter(s, OutOfStock), rule, preordered, isChecked)[i])
  {
    var a := OrderGroup(Filter(s, InStock), rule, preordered, isChecked);
    var b := OrderGroup(Filter(s, OutOfStock), rule, preordered, isChecked);
    OrderGroupPermutes(Filter(s, InStock), rule, preordered, isChecked);
    OrderGroupPermutes(Filter(s, OutOfStock), rule, preordered, isChecked);
    FilterMembersAll(s, InStock);
    FilterMembersAll(s, OutOfStock);
    forall i | 0 <= i < |a| ensures InStock(a[i]) {
      assert a[i] in multiset(Filter(s, InStock));
    }
    forall i | 0 <= i < |b| ensures OutOfStock(b[i]) {
      assert b[i] in multiset(Filter(s, OutOfStock));
    }
  }

  /** The products sorted by name are those of the input. */
  lemma SortByNameMembers(s: seq<Product>, props: seq<LocalizedProperty>, languageId: int, descending: bool)
    ensures forall x :: x in SortByName(s, props, languageId, descending) <==> x in s
  {
    var rows := JoinSortNames(s, props, languageId);
    ItemsSort(rows, NameLe(descending));
    JoinMembers(s, props, languageId);
    forall x ensures x in SortByName(s, props, languageId, descending) <==> x in s {
      calc {
        x in SortByName(s, props, languageId, descending);
        x in multiset(Items(Sort(rows, NameLe(descending))));
        x in multiset(Items(rows));
        x in s;
      }
    }
  }

  /** Name path and generic path alike list the in-stock group wholly before the out-of-stock
      group when `isChecked`, and wholly after it otherwise. */
  lemma OrderByStockGrouped(s: seq<Product>, props: seq<LocalizedProperty>, languageId: int,
                            rule: SortRule, preordered: bool, isChecked: bool)
    ensures StockGrouped(OrderBy(s, props, languageId, rule, preordered, isChecked), isChecked)
  {
    if rule == NameAsc || rule == NameDesc {
      var sorted := SortByName(s, props, languageId, rule == NameDesc);
      FilterMembersAll(sorted, InStock);
      FilterMembersAll(sorted, OutOfStock);
      ConcatGroups(Filter(sorted, InStock), Filter(sorted, OutOfStock), isChecked);
    } else {
      ResultGroups(s, rule, preordered, isChecked);
      ConcatGroups(OrderGroup(Filter(s, InStock), rule, preordered, isChecked),
                   OrderGroup(Filter(s, OutOfStock), rule, preordered, isChecked), isChecked);
    }
  }

  /** The sorter returns exactly the products it was given, each as often as given. On the name
      path this needs at most one name override per product: with more, the left join lists a
      product once per override. */
  lemma OrderByPermutation(s: seq<Product>, props: seq<LocalizedProperty>, languageId: int,
                           rule: SortRule, preordered: bool, isChecked: bool)
    requires (rule == NameAsc || rule == NameDesc) ==> UniqueNameOverrides(props, languageId)
    ensures multiset(OrderBy(s, props, languageId, rule, preordered, isChecked)) == multiset(s)
  {
    if rule == NameAsc || rule == NameDesc {
      var sorted := SortByName(s, props, languageId, rule == NameDesc);
      SortByNamePermutes(s, props, languageId, rule == NameDesc);
      SplitPermutes(sorted, isChecked);
    } else {
      FilterComplement(s, InStock, OutOfStock);
    }
  }

  /** With at most one name override per product, sorting by name permutes the products. */
  lemma SortByNamePermutes(s: seq<Product>, props: seq<LocalizedProperty>, languageId: int, descending: bool)
    requires UniqueNameOverrides(props, languageId)
    ensures multiset(SortByName(s, props, languageId, descending)) == multiset(s)
  {
    var rows := JoinSortNames(s, props, languageId);
    ItemsSort(rows, NameLe(descending));
    JoinUnique(s, props, languageId);
  }

  /** Splitting by stock and joining the groups again permutes the products. */
  lemma SplitPermutes(s: seq<Product>, isChecked: bool)
    ensures multiset(ConcatQueries(Filter(s, InStock), Filter(s, OutOfStock), isChecked)) == multiset(s)
  {
    FilterComplement(s, InStock, OutOfStock);
  }

  /** Whatever the localized table holds, the sorter's result contains exactly the products
      of its input. */
  lemma OrderByMembers(s: seq<Product>, props: seq<LocalizedProperty>, languageId: int,
                       rule: SortRule, preordered: bool, isChecked: bool)
    ensures forall x :: x in OrderBy(s, props, languageId, rule, preordered, isChecked) <==> x in s
  {
    if rule == NameAsc || rule == NameDesc {
      var sorted := SortByName(s, props, languageId, rule == NameDesc);
      SortByNameMembers(s, props, languageId, rule == NameDesc);
      FilterMembersAll(sorted, InStock);
      FilterMembersAll(sorted, OutOfStock);
    } else {
      OrderGroupPermutes(Filter(s, InStock), rule, preordered, isChecked);
      OrderGroupPermutes(Filter(s, OutOfStock), rule, preordered, isChecked);
      FilterMembersAll(s, InStock);
      FilterMembersAll(s, OutOfStock);
      var r := OrderBy(s, props, languageId, rule, preordered, isChecked);
      forall x ensures x in r <==> x in s {
        calc {
          x in r;
          x in multiset(Filter(s, InStock)) || x in multiset(Filter(s, OutOfStock));
          x in s;
        }
      }
    }
  }

  /** Selecting by stock after sorting by name is sorting the selection by name. */
  lemma FilterSortByName(s: seq<Product>, props: seq<LocalizedProperty>, languageId: int, descending: bool,
                         p: Product -> bool, q: NamedProduct -> bool)
    requires forall x :: q(x) == p(x.Item)
    ensures Filter(SortByName(s, props, languageId, descending), p)
            == SortByName(Filter(s, p), props, languageId, descending)
  {
    var rows := JoinSortNames(s, props, languageId);
    NameOrdersArePreorders(descending);
    ItemsFilter(Sort(rows, NameLe(descending)), p, q);
    FilterSort(rows, q, NameLe(descending));
    JoinFilter(s, props, languageId, p, q);
  }

  /** Path equivalence: the name path, which sorts first and splits afterwards, gives the same
      sequence as splitting first and sorting each group by name. */
  lemma OrderByNamePartitionFirst(s: seq<Product>, props: seq<LocalizedProperty>, languageId: int,
                                  descending: bool, isChecked: bool)
    ensures OrderByName(s, props, languageId, descending, isChecked)
            == ConcatQueries(SortByName(Filter(s, InStock), props, languageId, descending),
                             SortByName(Filter(s, OutOfStock), props, languageId, descending), isChecked)
  {
    FilterSortByName(s, props, languageId, descending, InStock, (x: NamedProduct) => InStock(x.Item));
    FilterSortByName(s, props, languageId, descending, OutOfStock, (x: NamedProduct) => OutOfStock(x.Item));
  }

  /** The rows sorted by name carry their products' sort names. */
  lemma SortedRowsCanonical(s: seq<Product>, props: seq<LocalizedProperty>, languageId: int, descending: bool)
    requires UniqueNameOverrides(props, languageId)
    ensures forall i :: 0 <= i < |Sort(JoinSortNames(s, props, languageId), NameLe(descending))| ==>
              Canonical(Sort(JoinSortNames(s, props, languageId), NameLe(descending))[i], props, languageId)
  {
    var joined := JoinSortNames(s, props, languageId);
    var rows := Sort(joined, NameLe(descending));
    JoinUnique(s, props, languageId);
    forall i | 0 <= i < |rows| ensures Canonical(rows[i], props, languageId) {
      assert rows[i] in multiset(joined);
      var k :| 0 <= k < |joined| && joined[k] == rows[i];
    }
  }

  /** Sorting by name orders the products by their sort names. */
  lemma SortByNameSorted(s: seq<Product>, props: seq<LocalizedProperty>, languageId: int, descending: bool)
    requires UniqueNameOverrides(props, languageId)
    ensures SortedBy(SortByName(s, props, languageId, descending), NameOrder(props, languageId, descending))
  {
    var rows := Sort(JoinSortNames(s, props, languageId), NameLe(descending));
    var sorted := Items(rows);
    NameOrdersArePreorders(descending);
    SortSorted(JoinSortNames(s, props, languageId), NameLe(descending));
    SortedRowsCanonical(s, props, languageId, descending);
    forall i, j | 0 <= i < j < |sorted| ensures NameOrder(props, languageId, descending)(sorted[i], sorted[j]) {
      ItemsAt(rows, i);
      ItemsAt(rows, j);
      assert Canonical(rows[i], props, languageId) && Canonical(rows[j], props, languageId);
      if descending {
        assert NameDescLe(rows[i], rows[j]);
      } else {
        assert NameAscLe(rows[i], rows[j]);
      }
    }
  }

  /** On the name path, the products of each stock group are in sort-name order, ascending for
      `NameAsc` and descending for `NameDesc`, whatever `isChecked` is: no stock ordering is
      applied on this path. */
  lemma OrderByNameSorted(s: seq<Product>, props: seq<LocalizedProperty>, languageId: int,
                          descending: bool, isChecked: bool)
    requires UniqueNameOverrides(props, languageId)
    ensures GroupSortedBy(OrderByName(s, props, languageId, descending, isChecked),
                          NameOrder(props, languageId, descending))
  {
    var sorted := SortByName(s, props, languageId, descending);
    var le := NameOrder(props, languageId, descending);
    SortByNameSorted(s, props, languageId, descending);
    FilterSorted(sorted, InStock, le);
    FilterSorted(sorted, OutOfStock, le);
    FilterMembersAll(sorted, InStock);
    FilterMembersAll(sorted, OutOfStock);
    ConcatSorted(Filter(sorted, InStock), Filter(sorted, OutOfStock), isChecked, le);
  }

  /** Generic path with `isChecked` false: within each group, price ascending for `PriceAsc`,
      price descending for `PriceDesc`, newest first for `CreatedOn`, and display order then id
      for `Position` on an input not already ordered and for any other rule; for `Position` on
      an already ordered input, each group keeps the input order. */
  lemma OrderByPrimarySorted(s: seq<Product>, props: seq<LocalizedProperty>, languageId: int,
                             rule: SortRule, preordered: bool)
    ensures var r := OrderBy(s, props, languageId, rule, preordered, false);
            && (rule == PriceAsc ==> GroupSortedBy(r, PriceAscLe))
            && (rule == PriceDesc ==> GroupSortedBy(r, PriceDescLe))
            && (rule == CreatedOn ==> GroupSortedBy(r, CreatedOnLe))
            && (rule == Position && preordered ==> r == Filter(s, OutOfStock) + Filter(s, InStock))
            && ((rule == Position && !preordered) || rule == Unlisted ==> GroupSortedBy(r, PositionLe))
  {
    var ins, outs := Filter(s, InStock), Filter(s, OutOfStock);
    var a := OrderGroup(ins, rule, preordered, false);
    var b := OrderGroup(outs, rule, preordered, false);
    ResultGroups(s, rule, preordered, false);
    ComparatorsArePreorders();
    match rule {
      case PriceAsc =>
        SortSorted(ins, PriceAscLe);
        SortSorted(outs, PriceAscLe);
        ConcatSorted(a, b, false, PriceAscLe);
      case PriceDesc =>
        SortSorted(ins, PriceDescLe);
        SortSorted(outs, PriceDescLe);
        ConcatSorted(a, b, false, PriceDescLe);
      case CreatedOn =>
        SortSorted(ins, CreatedOnLe);
        SortSorted(outs, CreatedOnLe);
        ConcatSorted(a, b, false, CreatedOnLe);
      case Position =>
        if !preordered {
          SortSorted(ins, PositionLe);
          SortSorted(outs, PositionLe);
          ConcatSorted(a, b, false, PositionLe);
        }
      case Unlisted =>
        SortSorted(ins, PositionLe);
        SortSorted(outs, PositionLe);
        ConcatSorted(a, b, false, PositionLe);
      case NameAsc =>
      case NameDesc =>
    }
  }

  /** Generic path with `isChecked` true: the last ordering, by stock quantity descending,
      dominates, so each group ends non-increasing in stock quantity (the primary order is not
      promised among equal quantities). */
  lemma OrderByStockSorted(s: seq<Product>, props: seq<LocalizedProperty>, languageId: int,
                           rule: SortRule, preordered: bool)
    ensures rule != NameAsc && rule != NameDesc ==>
              GroupSortedBy(OrderBy(s, props, languageId, rule, preordered, true), StockDescLe)
  {
    var a := OrderGroup(Filter(s, InStock), rule, preordered, true);
    var b := OrderGroup(Filter(s, OutOfStock), rule, preordered, true);
    ResultGroups(s, rule, preordered, true);
    ComparatorsArePreorders();
    SortSorted(PrimaryOrder(Filter(s, InStock), rule, preordered), StockDescLe);
    SortSorted(PrimaryOrder(Filter(s, OutOfStock), rule, preordered), StockDescLe);
    ConcatSorted(a, b, true, StockDescLe);
  }

  /** An empty input gives an empty output; an input wholly on one side of the stock split
      comes out as that one group, ordered. */
  lemma OrderByOneGroup(s: seq<Product>, props: seq<LocalizedProperty>, languageId: int,
                        rule: SortRule, preordered: bool, isChecked: bool)
    ensures s == [] ==> OrderBy(s, props, languageId, rule, preordered, isChecked) == []
    ensures (forall i :: 0 <= i < |s| ==> InStock(s[i])) || (forall i :: 0 <= i < |s| ==> OutOfStock(s[i])) ==>
              OrderBy(s, props, languageId, rule, preordered, isChecked)
              == if rule == NameAsc || rule == NameDesc then SortByName(s, props, languageId, rule == NameDesc)
                 else OrderGroup(s, rule, preordered, isChecked)
  {
    if rule == NameAsc || rule == NameDesc {
      NameOneGroup(s, props, languageId, rule == NameDesc, isChecked);
    } else {
      ResultOneGroup(s, rule, preordered, isChecked);
    }
  }

  lemma NameOneGroup(s: seq<Product>, props: seq<LocalizedProperty>, languageId: int, descending: bool, isChecked: bool)
    ensures s == [] ==> OrderByName(s, props, languageId, descending, isChecked) == []
    ensures (forall i :: 0 <= i < |s| ==> InStock(s[i])) || (forall i :: 0 <= i < |s| ==> OutOfStock(s[i])) ==>
              OrderByName(s, props, languageId, descending, isChecked) == SortByName(s, props, languageId, descending)
  {
    var sorted := SortByName(s, props, languageId, descending);
    SortByNameMembers(s, props, languageId, descending);
    if forall i :: 0 <= i < |s| ==> InStock(s[i]) {
      OneSide(sorted, s, true, isChecked);
    } else if forall i :: 0 <= i < |s| ==> OutOfStock(s[i]) {
      OneSide(sorted, s, false, isChecked);
    }
  }

  /** A selection of products that all lie on one side of the stock split comes back whole
      from splitting and joining. */
  lemma OneSide(sorted: seq<Product>, s: seq<Product>, inStock: bool, isChecked: bool)
    requires forall x :: x in sorted ==> x in s
    requires forall i :: 0 <= i < |s| ==> InStock(s[i]) == inStock
    ensures ConcatQueries(Filter(sorted, InStock), Filter(sorted, OutOfStock), isChecked) == sorted
  {
    assert forall x :: x in sorted ==> InStock(x) == inStock by {
      forall x | x in sorted ensures InStock(x) == inStock {
        var i :| 0 <= i < |s| && s[i] == x;
      }
    }
    if inStock {
      FilterAll(sorted, InStock);
      FilterNone(sorted, OutOfStock);
      assert sorted + [] == sorted && [] + sorted == sorted;
    } else {
      FilterAll(sorted, OutOfStock);
      FilterNone(sorted, InStock);
      assert sorted + [] == sorted && [] + sorted == sorted;
    }
  }

  lemma ResultOneGroup(s: seq<Product>, rule: SortRule, preordered: bool, isChecked: bool)
    ensures s == [] ==> Result(s, rule, preordered, isChecked) == []
    ensures (forall i :: 0 <= i < |s| ==> InStock(s[i])) || (forall i :: 0 <= i < |s| ==> OutOfStock(s[i])) ==>
              Result(s, rule, preordered, isChecked) == OrderGroup(s, rule, preordered, isChecked)
  {
    OrderGroupPermutes([], rule, preordered, isChecked);
    if forall i :: 0 <= i < |s| ==> InStock(s[i]) {
      FilterAll(s, InStock);
      FilterNone(s, OutOfStock);
    }
    if forall i :: 0 <= i < |s| ==> OutOfStock(s[i]) {
      FilterAll(s, OutOfStock);
      FilterNone(s, InStock);
    }
  }

  lemma PrimaryOrderIdempotent(g: seq<Product>, rule: SortRule, preordered: bool)
    ensures PrimaryOrder(PrimaryOrder(g, rule, preordered), rule, preordered) == PrimaryOrder(g, rule, preordered)
  {
    ComparatorsArePreorders();
    match rule {
      case PriceAsc => SortSorted(g, PriceAscLe); SortOfSorted(Sort(g, PriceAscLe), PriceAscLe);
      case PriceDesc => SortSorted(g, PriceDescLe); SortOfSorted(Sort(g, PriceDescLe), PriceDescLe);
      case CreatedOn => SortSorted(g, CreatedOnLe); SortOfSorted(Sort(g, CreatedOnLe), CreatedOnLe);
      case Position => if !preordered { SortSorted(g, PositionLe); SortOfSorted(Sort(g, PositionLe), PositionLe); }
      case _ => SortSorted(g, PositionLe); SortOfSorted(Sort(g, PositionLe), PositionLe);
    }
  }

  lemma SortByNameIdempotent(s: seq<Product>, props: seq<LocalizedProperty>, languageId: int, descending: bool)
    requires UniqueNameOverrides(props, languageId)
    ensures SortByName(SortByName(s, props, languageId, descending), props, languageId, descending)
            == SortByName(s, props, languageId, descending)
  {
    var rows := Sort(JoinSortNames(s, props, languageId), NameLe(descending));
    SortedRowsCanonical(s, props, languageId, descending);
    JoinItems(rows, props, languageId);
    NameOrdersArePreorders(descending);
    SortSorted(JoinSortNames(s, props, languageId), NameLe(descending));
    SortOfSorted(rows, NameLe(descending));
  }

  /** Sorting a sorted result again with the same rule and flag changes nothing: on the name
      path (given at most one name override per product), and on the generic path when
      `isChecked` is false. */
  lemma OrderByIdempotent(s: seq<Product>, props: seq<LocalizedProperty>, languageId: int,
                          rule: SortRule, preordered: bool, isChecked: bool)
    requires (rule == NameAsc || rule == NameDesc) ==> UniqueNameOverrides(props, languageId)
    requires (rule != NameAsc && rule != NameDesc) ==> !isChecked
    ensures var r := OrderBy(s, props, languageId, rule, preordered, isChecked);
            OrderBy(r, props, languageId, rule, preordered, isChecked) == r
  {
    if rule == NameAsc || rule == NameDesc {
      NameIdempotent(s, props, languageId, rule == NameDesc, isChecked);
    } else {
      ResultIdempotent(s, rule, preordered);
    }
  }

  lemma NameIdempotent(s: seq<Product>, props: seq<LocalizedProperty>, languageId: int, descending: bool, isChecked: bool)
    requires UniqueNameOverrides(props, languageId)
    ensures var r := OrderByName(s, props, languageId, descending, isChecked);
            OrderByName(r, props, languageId, descending, isChecked) == r
  {
    var ins, outs := Filter(s, InStock), Filter(s, OutOfStock);
    var a := SortByName(ins, props, languageId, descending);
    var b := SortByName(outs, props, languageId, descending);
    var r := ConcatQueries(a, b, isChecked);
    OrderByNamePartitionFirst(s, props, languageId, descending, isChecked);
    assert OrderByName(s, props, languageId, descending, isChecked) == r;
    SortByNameMembers(ins, props, languageId, descending);
    SortByNameMembers(outs, props, languageId, descending);
    FilterMembersAll(s, InStock);
    FilterMembersAll(s, OutOfStock);
    forall i | 0 <= i < |a| ensures InStock(a[i]) {
      assert a[i] in ins;
    }
    forall i | 0 <= i < |b| ensures OutOfStock(b[i]) {
      assert b[i] in outs;
    }
    ConcatGroups(a, b, isChecked);
    OrderByNamePartitionFirst(r, props, languageId, descending, isChecked);
    SortByNameIdempotent(ins, props, languageId, descending);
    SortByNameIdempotent(outs, props, languageId, descending);
    calc {
      OrderByName(r, props, languageId, descending, isChecked);
      ConcatQueries(SortByName(Filter(r, InStock), props, languageId, descending),
                    SortByName(Filter(r, OutOfStock), props, languageId, descending), isChecked);
      ConcatQueries(SortByName(a, props, languageId, descending),
                    SortByName(b, props, languageId, descending), isChecked);
      r;
    }
  }

  lemma ResultIdempotent(s: seq<Product>, rule: SortRule, preordered: bool)
    ensures var r := Result(s, rule, preordered, false);
            Result(r, rule, preordered, false) == r
  {
    var ins, outs := Filter(s, InStock), Filter(s, OutOfStock);
    ResultGroups(s, rule, preordered, false);
    ConcatGroups(OrderGroup(ins, rule, preordered, false), OrderGroup(outs, rule, preordered, false), false);
    PrimaryOrderIdempotent(ins, rule, preordered);
    PrimaryOrderIdempotent(outs, rule, preordered);
  }

  // ---------------------------------------------------------------------------------------
  // Worked examples

  /** A product that differs from others only in id, price and stock quantity. */
  function Stocked(id: int, price: int, stock: int): Product {
    Product(id, "", "", "", "", "", price, stock, 0, 0, true, false, true, 0, 0, false, 0, None, None)
  }

  /** A (stock 5, price 10), B (stock 0, price 5), C (stock 3, price 20) by price ascending:
      [A, C, B] when in-stock products come first, [B, A, C] otherwise. */
  lemma PriceAscExample()
    ensures var a, b, c := Stocked(1, 10, 5), Stocked(2, 5, 0), Stocked(3, 20, 3);
            && OrderBy([a, b, c], [], 0, PriceAsc, false, true) == [a, c, b]
            && OrderBy([a, b, c], [], 0, PriceAsc, false, false) == [b, a, c]
  {
    var a, b, c := Stocked(1, 10, 5), Stocked(2, 5, 0), Stocked(3, 20, 3);
    ExampleGroups(a, b, c);
    SortTwo(a, c, PriceAscLe);
    SortTwo(a, c, StockDescLe);
    SortOne(b, PriceAscLe);
    SortOne(b, StockDescLe);
  }

  /** Sorting one element. */
  lemma SortOne<T>(x: T, le: (T, T) -> bool)
    ensures Sort([x], le) == [x]
  {
    assert [x][1..] == [];
  }

  /** Sorting two elements: they keep their order when the first may come first, and swap
      otherwise. */
  lemma SortTwo<T>(x: T, y: T, le: (T, T) -> bool)
    ensures Sort([x, y], le) == if le(x, y) then [x, y] else [y, x]
  {
    assert [x, y][1..] == [y];
    SortOne(y, le);
    assert Insert(y, [], le) == [y];
    if !le(x, y) {
      assert Insert(x, [y], le) == [y] + Insert(x, [], le);
    }
  }

  /** Splitting three products, the second of them out of stock, by stock. */
  lemma ExampleGroups(a: Product, b: Product, c: Product)
    requires InStock(a) && !InStock(b) && InStock(c)
    ensures Filter([a, b, c], InStock) == [a, c] && Filter([a, b, c], OutOfStock) == [b]
  {
    assert [a, b, c][1..] == [b, c] && [b, c][1..] == [c] && [c][1..] == [];
    assert Filter([c], InStock) == [c] && Filter([c], OutOfStock) == [];
    assert Filter([b, c], InStock) == [c] && Filter([b, c], OutOfStock) == [b];
  }

  /** With `isChecked`, the generic path does not keep the price order within a group: A
      (price 5, stock 3) and C (price 10, stock 7) come out as [C, A]. */
  lemma StockOrderOverridesPrice()
    ensures var a, c := Stocked(1, 5, 3), Stocked(2, 10, 7);
            && OrderBy([a, c], [], 0, PriceAsc, false, true) == [c, a]
            && !GroupSortedBy(OrderBy([a, c], [], 0, PriceAsc, false, true), PriceAscLe)
  {
    var a, c := Stocked(1, 5, 3), Stocked(2, 10, 7);
    assert [a, c][1..] == [c];
    assert Filter([a, c], InStock) == [a, c];
    assert Filter([a, c], OutOfStock) == [];
    SortTwo(a, c, PriceAscLe);
    SortTwo(a, c, StockDescLe);
    var r := [c, a];
    assert r[0] == c && r[1] == a && !PriceAscLe(r[0], r[1]);
  }

  /** With two name overrides for one product in the language, the name path lists that
      product twice. */
  lemma DuplicateOverridesRepeatProduct()
    ensures var p := Stocked(1, 0, 1);
            var props := [LocalizedProperty(1, 2, "Product", "Name", "A"), LocalizedProperty(1, 2, "Product", "Name", "B")];
            OrderBy([p], props, 2, NameAsc, false, true) == [p, p]
  {
    var p := Stocked(1, 0, 1);
    var props := [LocalizedProperty(1, 2, "Product", "Name", "A"), LocalizedProperty(1, 2, "Product", "Name", "B")];
    DuplicateRows(p, props);
    DuplicateRowsSorted(p);
    assert SortByName([p], props, 2, false) == [p, p];
    assert Filter([p, p], InStock) == [p, p];
  }

  /** The two rows of the product, named "A" and "B", are already in ascending name order. */
  lemma DuplicateRowsSorted(p: Product)
    ensures Items(Sort([NamedProduct("A", p), NamedProduct("B", p)], NameLe(false))) == [p, p]
  {
    var x, y := NamedProduct("A", p), NamedProduct("B", p);
    assert StrLe("A", "B");
    SortTwo(x, y, NameLe(false));
    assert Items([x, y]) == [p, p];
  }

  /** Two name overrides of one product give it two joined rows. */
  lemma DuplicateRows(p: Product, props: seq<LocalizedProperty>)
    requires p.Id == 1
    requires props == [LocalizedProperty(1, 2, "Product", "Name", "A"), LocalizedProperty(1, 2, "Product", "Name", "B")]
    ensures JoinSortNames([p], props, 2) == [NamedProduct("A", p), NamedProduct("B", p)]
  {
    assert props[1..] == [props[1]] && [props[1]][1..] == [];
    assert NameOverrides(props, 1, 2) == ["A", "B"];
    assert NameRows(p, props, 2) == [NamedProduct("A", p), NamedProduct("B", p)];
    assert [p][1..] == [];
    assert JoinSortNames([p], props, 2) == NameRows(p, props, 2) + JoinSortNames([], props, 2);
  }
}
