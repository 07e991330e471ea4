/** The pure criteria of the product search: each filter as a predicate over one product, the
    keyword candidate-id union, the localized-search flag, the id-list cleaning and the
    grouping of specification options by attribute. */
module ProductFilters {
  import opened Catalog
  import opened Sequences

  /** The ids of products, categories and manufacturers an external visibility filter (store
      mapping for the requested store, or ACL for the current customer) lets through. */
  datatype Visibility = Visibility(Products: set<int>, Categories: set<int>, Manufacturers: set<int>)

  /** What the search reads besides the catalog tables: the current time, all languages
      (hidden ones included), the working language, the primary search plugin if one is
      configured (it maps the keywords and the localized-search flag to product ids), the two
      catalog settings for searching by category and manufacturer names, and the store-mapping
      and ACL filters. */
  datatype Environment = Environment(
    Now: int,
    AllLanguages: seq<Language>,
    WorkingLanguageId: int,
    SearchProvider: Option<(string, bool) -> set<int>>,
    AllowCustomersToSearchWithCategoryName: bool,
    AllowCustomersToSearchWithManufacturerName: bool,
    StoreMapping: Visibility,
    Acl: Visibility)

  /** The search criteria, except the category and manufacturer id lists. A null keyword is
      the empty string and a null specification-option list the empty sequence. */
  datatype SearchRequest = SearchRequest(
    PageIndex: int,
    PageSize: int,
    StoreId: int,
    VendorId: int,
    WarehouseId: int,
    ProductType: Option<int>,
    VisibleIndividuallyOnly: bool,
    ExcludeFeaturedProducts: bool,
    PriceMin: Option<int>,
    PriceMax: Option<int>,
    ProductTagId: int,
    Keywords: string,
    SearchDescriptions: bool,
    SearchManufacturerPartNumber: bool,
    SearchSku: bool,
    SearchProductTags: bool,
    LanguageId: int,
    FilteredSpecOptions: seq<SpecificationAttributeOption>,
    OrderBy: SortRule,
    ShowHidden: bool,
    OverridePublished: Option<bool>,
    IsBoxChecked: bool)

  /** Some databases reject `int.MaxValue` as a page size, so it becomes one less. */
  function ClampPageSize(pageSize: int): (r: int)
    ensures r != IntMaxValue
    ensures pageSize != IntMaxValue ==> r == pageSize
    ensures pageSize <= IntMaxValue ==> r <= pageSize && pageSize - r <= 1
  {
    if pageSize == IntMaxValue then IntMaxValue - 1 else pageSize
  }

  // ---------------------------------------------------------------------------------------
  // Criteria on the product row

  /** The published rule, shared by products, categories and manufacturers: without hidden
      records only published ones; with hidden records, those whose flag equals
      `overridePublished` when it is given, and all otherwise. */
  predicate PublishedAdmits(published: bool, showHidden: bool, overridePublished: Option<bool>) {
    if !showHidden then published
    else if overridePublished.Some? then published == overridePublished.value
    else true
  }

  /** Store mapping is applied unless hidden records are shown for all stores. */
  predicate StoreMappingApplies(req: SearchRequest) {
    !req.ShowHidden || req.StoreId > 0
  }

  /** A product, category or manufacturer passes the published, store-mapping and ACL filters. */
  predicate EntityVisible(id: int, published: bool, req: SearchRequest, store: set<int>, acl: set<int>) {
    && PublishedAdmits(published, req.ShowHidden, req.OverridePublished)
    && (StoreMappingApplies(req) ==> id in store)
    && (!req.ShowHidden ==> id in acl)
  }

  /** "now" lies in the availability window; an absent bound is open. */
  predicate Available(p: Product, now: int) {
    && (p.AvailableStartDateTimeUtc.None? || now >= p.AvailableStartDateTimeUtc.value)
    && (p.AvailableEndDateTimeUtc.None? || now <= p.AvailableEndDateTimeUtc.value)
  }

  /** The warehouse criterion: a single-warehouse product must be in the warehouse, a
      multi-warehouse product must have an inventory row for it. */
  predicate InWarehouse(p: Product, inventory: seq<ProductWarehouseInventory>, warehouseId: int) {
    if !p.UseMultipleWarehouses then p.WarehouseId == warehouseId
    else exists w :: w in inventory && w.WarehouseId == warehouseId && w.ProductId == p.Id
  }

  /** The criteria on the product row itself: not deleted, individually visible if asked,
      vendor, warehouse, product type, availability window (only when hidden records are not
      shown) and inclusive price bounds. A zero id or an absent value imposes nothing. */
  predicate MeetsRowCriteria(p: Product, inventory: seq<ProductWarehouseInventory>, req: SearchRequest, now: int) {
    && !p.Deleted
    && (!req.VisibleIndividuallyOnly || p.VisibleIndividually)
    && (req.VendorId == 0 || p.VendorId == req.VendorId)
    && (req.WarehouseId == 0 || InWarehouse(p, inventory, req.WarehouseId))
    && (req.ProductType.None? || p.ProductTypeId == req.ProductType.value)
    && (req.ShowHidden || Available(p, now))
    && (req.PriceMin.None? || p.Price >= req.PriceMin.value)
    && (req.PriceMax.None? || p.Price <= req.PriceMax.value)
  }

  // ---------------------------------------------------------------------------------------
  // Keyword candidates

  predicate IsPublishedLanguage(l: Language) { l.Published }

  /** Localized values are searched too when a language is given and there are at least two
      languages, of which at least two are published unless hidden records are shown. */
  function SearchLocalizedValue(languageId: int, languages: seq<Language>, showHidden: bool): (r: bool)
    ensures r <==> languageId > 0 && |languages| >= 2
                   && (showHidden || exists i, j :: 0 <= i < j < |languages| && languages[i].Published && languages[j].Published)
  {
    var published := Filter(languages, IsPublishedLanguage);
    TwoPublished(languages);
    languageId > 0 && |languages| >= 2 && (showHidden || |published| >= 2)
  }

  /** At least two languages are published exactly when two distinct positions hold published
      languages. */
  lemma TwoPublished(languages: seq<Language>)
    ensures |Filter(languages, IsPublishedLanguage)| >= 2 <==>
            exists i, j :: 0 <= i < j < |languages| && languages[i].Published && languages[j].Published
  {
    if |Filter(languages, IsPublishedLanguage)| >= 2 {
      PublishedPairFound(languages);
    }
    if exists i, j :: 0 <= i < j < |languages| && languages[i].Published && languages[j].Published {
      var i, j :| 0 <= i < j < |languages| && languages[i].Published && languages[j].Published;
      PublishedPairCounted(languages, i, j);
    }
  }

  lemma {:induction false} PublishedPairFound(languages: seq<Language>)
    requires |Filter(languages, IsPublishedLanguage)| >= 2
    ensures exists i, j :: 0 <= i < j < |languages| && languages[i].Published && languages[j].Published
  {
    var published := Filter(languages, IsPublishedLanguage);
    if languages[0].Published {
      assert published == [languages[0]] + Filter(languages[1..], IsPublishedLanguage);
      var x := published[1];
      assert x in Filter(languages[1..], IsPublishedLanguage);
      FilterMembers(languages[1..], IsPublishedLanguage, x);
      var k :| 0 <= k < |languages[1..]| && languages[1..][k] == x;
      assert languages[k + 1] == x;
    } else {
      PublishedPairFound(languages[1..]);
      var i, j :| 0 <= i < j < |languages[1..]| && languages[1..][i].Published && languages[1..][j].Published;
      assert languages[i + 1] == languages[1..][i] && languages[j + 1] == languages[1..][j];
    }
  }

  lemma {:induction false} PublishedPairCounted(languages: seq<Language>, i: int, j: int)
    requires 0 <= i < j < |languages| && languages[i].Published && languages[j].Published
    ensures |Filter(languages, IsPublishedLanguage)| >= 2
  {
    var rest := languages[1..];
    if i == 0 {
      assert rest[j - 1] == languages[j];
      FilterMembers(rest, IsPublishedLanguage, languages[j]);
      assert Filter(languages, IsPublishedLanguage) == [languages[0]] + Filter(rest, IsPublishedLanguage);
    } else {
      assert rest[i - 1] == languages[i] && rest[j - 1] == languages[j];
      PublishedPairCounted(rest, i - 1, j - 1);
    }
  }

  /** The built-in match on the product row: the name contains the keywords, or a description
      does (when descriptions are searched), or the manufacturer part number or the SKU equals
      them (when those are searched). */
  predicate BuiltInMatch(p: Product, req: SearchRequest) {
    var k := req.Keywords;
    || Contains(p.Name, k)
    || (req.SearchDescriptions && (Contains(p.ShortDescription, k) || Contains(p.FullDescription, k)))
    || (req.SearchManufacturerPartNumber && p.ManufacturerPartNumber == k)
    || (req.SearchSku && p.Sku == k)
  }

  function BuiltInMatches(products: seq<Product>, req: SearchRequest): set<int> {
    set p | p in products && BuiltInMatch(p, req) :: p.Id
  }

  /** Localized product names (and short descriptions, when descriptions are searched) in the
      requested language that contain the keywords. */
  function LocalizedProductMatches(props: seq<LocalizedProperty>, req: SearchRequest): set<int> {
    set lp | lp in props && lp.LocaleKeyGroup == "Product" && lp.LanguageId == req.LanguageId
                         && ((lp.LocaleKey == "Name" && Contains(lp.LocaleValue, req.Keywords))
                             || (req.SearchDescriptions && lp.LocaleKey == "ShortDescription"
                                 && Contains(lp.LocaleValue, req.Keywords)))
      :: lp.EntityId
  }

  /** Products with an attribute combination whose SKU equals the keywords. */
  function CombinationSkuMatches(combinations: seq<ProductAttributeCombination>, keywords: string): set<int> {
    set c | c in combinations && c.Sku == keywords :: c.ProductId
  }

  /** Products mapped to a visible, undeleted category or manufacturer whose name contains the
      keywords. */
  function EntityNameMatches(entities: seq<CatalogEntity>, mappings: seq<EntityMapping>, req: SearchRequest,
                             store: set<int>, acl: set<int>): set<int>
  {
    set m, e | m in mappings && e in entities && m.EntityId == e.Id
               && EntityVisible(e.Id, e.Published, req, store, acl)
               && Contains(e.Name, req.Keywords) && !e.Deleted
      :: m.ProductId
  }

  /** Products mapped to a category or manufacturer whose localized name in the requested
      language contains the keywords (no published, deleted, store or ACL check here). */
  function LocalizedEntityNameMatches(mappings: seq<EntityMapping>, props: seq<LocalizedProperty>,
                                      keyGroup: string, req: SearchRequest): set<int>
  {
    set m, lp | m in mappings && lp in props && m.EntityId == lp.EntityId
                && lp.LocaleKeyGroup == keyGroup && lp.LocaleKey == "Name"
                && Contains(lp.LocaleValue, req.Keywords) && lp.LanguageId == req.LanguageId
      :: m.ProductId
  }

  /** Products tagged with a tag whose name contains the keywords. */
  function TagNameMatches(tags: seq<ProductTag>, mappings: seq<ProductTagMapping>, keywords: string): set<int> {
    set m, t | m in mappings && t in tags && m.ProductTagId == t.Id && Contains(t.Name, keywords) :: m.ProductId
  }

  /** Products tagged with a tag whose localized name in the requested language contains the
      keywords. */
  function LocalizedTagNameMatches(mappings: seq<ProductTagMapping>, props: seq<LocalizedProperty>,
                                   req: SearchRequest): set<int>
  {
    set m, lp | m in mappings && lp in props && m.ProductTagId == lp.EntityId
                && lp.LocaleKeyGroup == "ProductTag" && lp.LocaleKey == "Name"
                && Contains(lp.LocaleValue, req.Keywords) && lp.LanguageId == req.LanguageId
      :: m.ProductId
  }

  /** The candidate product ids for non-empty keywords: the search plugin's ids, or the
      built-in matches with their localized variant, then, by union, attribute-combination
      SKUs, category names, manufacturer names and tag names as the flags and settings say. */
  function KeywordCandidates(cat: CatalogSnapshot, env: Environment, req: SearchRequest): set<int> {
    var localized := SearchLocalizedValue(req.LanguageId, env.AllLanguages, req.ShowHidden);
    var base :=
      match env.SearchProvider
      case Some(provider) => provider(req.Keywords, localized)
      case None =>
        BuiltInMatches(cat.Products, req)
        + (if localized then LocalizedProductMatches(cat.LocalizedProperties, req) else {});
    var bySku := if req.SearchSku then CombinationSkuMatches(cat.AttributeCombinations, req.Keywords) else {};
    var byCategory :=
      if env.AllowCustomersToSearchWithCategoryName then
        EntityNameMatches(cat.Categories, cat.ProductCategories, req, env.StoreMapping.Categories, env.Acl.Categories)
        + (if localized then LocalizedEntityNameMatches(cat.ProductCategories, cat.LocalizedProperties, "Category", req) else {})
      else {};
    var byManufacturer :=
      if env.AllowCustomersToSearchWithManufacturerName then
        EntityNameMatches(cat.Manufacturers, cat.ProductManufacturers, req, env.StoreMapping.Manufacturers, env.Acl.Manufacturers)
        + (if localized then LocalizedEntityNameMatches(cat.ProductManufacturers, cat.LocalizedProperties, "Manufacturer", req) else {})
      else {};
    var byTag :=
      if req.SearchProductTags then
        TagNameMatches(cat.ProductTags, cat.ProductTagMappings, req.Keywords)
        + (if localized then LocalizedTagNameMatches(cat.ProductTagMappings, cat.LocalizedProperties, req) else {})
      else {};
    base + bySku + byCategory + byManufacturer + byTag
  }

  // ---------------------------------------------------------------------------------------
  // Category, manufacturer and tag mappings

  /** The position of the first occurrence of `x` in `s`. */
  function IndexOf(s: seq<int>, x: int): (i: nat)
    requires x in s
    ensures i < |s| && s[i] == x && x !in s[..i]
  {
    if s[0] == x then 0
    else
      var j := IndexOf(s[1..], x);
      assert s[..j + 1] == [s[0]] + s[1..][..j];
      j + 1
  }

  /** `List.Remove`: deletes the first occurrence of `x`, if any, and keeps the rest in order. */
  function RemoveFirst(s: seq<int>, x: int): (r: seq<int>)
    ensures x !in s ==> r == s
    ensures x in s ==> |r| == |s| - 1 && multiset(r) == multiset(s) - multiset{x}
    ensures x in s ==> r[..IndexOf(s, x)] == s[..IndexOf(s, x)] && r[IndexOf(s, x)..] == s[IndexOf(s, x) + 1..]
  {
    if s == [] then []
    else if s[0] == x then
      assert s == [x] + s[1..];
      s[1..]
    else
      var rest := RemoveFirst(s[1..], x);
      KeepHead(s, x, rest);
      [s[0]] + rest
  }

  /** The step of `RemoveFirst` past a head that is not `x`. */
  lemma KeepHead(s: seq<int>, x: int, rest: seq<int>)
    requires s != [] && s[0] != x
    requires x !in s[1..] ==> rest == s[1..]
    requires x in s[1..] ==> |rest| == |s| - 2 && multiset(rest) == multiset(s[1..]) - multiset{x}
    requires x in s[1..] ==> rest[..IndexOf(s[1..], x)] == s[1..][..IndexOf(s[1..], x)]
                             && rest[IndexOf(s[1..], x)..] == s[1..][IndexOf(s[1..], x) + 1..]
    ensures x !in s ==> [s[0]] + rest == s
    ensures x in s ==> |[s[0]] + rest| == |s| - 1 && multiset([s[0]] + rest) == multiset(s) - multiset{x}
    ensures x in s ==> ([s[0]] + rest)[..IndexOf(s, x)] == s[..IndexOf(s, x)]
                       && ([s[0]] + rest)[IndexOf(s, x)..] == s[IndexOf(s, x) + 1..]
  {
    assert s == [s[0]] + s[1..];
    if x in s {
      KeepHeadSlices(s, x, rest, IndexOf(s[1..], x));
    }
  }

  /** The slice half of `KeepHead`, with the position of `x` in the tail named `j`. */
  lemma KeepHeadSlices(s: seq<int>, x: int, rest: seq<int>, j: nat)
    requires s != [] && s[0] != x && x in s[1..] && j == IndexOf(s[1..], x)
    requires |rest| == |s| - 2
    requires rest[..j] == s[1..][..j] && rest[j..] == s[1..][j + 1..]
    ensures IndexOf(s, x) == j + 1
    ensures ([s[0]] + rest)[..j + 1] == s[..j + 1] && ([s[0]] + rest)[j + 1..] == s[j + 2..]
  {
    assert s == [s[0]] + s[1..];
    assert ([s[0]] + rest)[..j + 1] == [s[0]] + rest[..j];
    assert s[..j + 1] == [s[0]] + s[1..][..j];
    assert ([s[0]] + rest)[j + 1..] == rest[j..];
    assert s[j + 2..] == s[1..][j + 1..];
  }

  /** The lists that one removal of `0` leaves empty, or leaves as `[0]`. */
  lemma ShortAfterRemoval(list: seq<int>)
    ensures RemoveFirst(list, 0) == [] <==> list == [] || list == [0]
    ensures RemoveFirst(list, 0) == [0] <==> list == [0, 0]
  {
    EmptyAfterRemoval(list);
    ZeroAfterRemoval(list);
  }

  lemma EmptyAfterRemoval(list: seq<int>)
    ensures RemoveFirst(list, 0) == [] <==> list == [] || list == [0]
  {
    assert RemoveFirst([0], 0) == [];
    if 0 in list && RemoveFirst(list, 0) == [] {
      assert |list| == 1 && list[IndexOf(list, 0)] == 0;
    }
  }

  lemma ZeroAfterRemoval(list: seq<int>)
    ensures RemoveFirst(list, 0) == [0] <==> list == [0, 0]
  {
    assert RemoveFirst([0, 0], 0) == [0] by {
      assert [0, 0][1..] == [0];
    }
    var r := RemoveFirst(list, 0);
    if r == [0] && 0 in list {
      var i := IndexOf(list, 0);
      assert |list| == 2;
      assert i == 0;
      assert list[1..] == r[0..];
      assert list == [list[0]] + list[1..];
    }
  }

  /** The id list a category or manufacturer criterion works with: none when the caller gave
      none, and none when nothing is left after one `0` is removed, that is, for `[]` and
      `[0]`. */
  function EffectiveIds(ids: Option<seq<int>>): (r: Option<seq<int>>)
    ensures r.None? <==> ids.None? || ids.value == [] || ids.value == [0]
    ensures ids.Some? ==> (r.None? <==> RemoveFirst(ids.value, 0) == [])
    ensures r.Some? ==> r.value == RemoveFirst(ids.value, 0) && multiset(r.value) <= multiset(ids.value)
    ensures ids.Some? && 0 !in ids.value && ids.value != [] ==> r == ids
  {
    match ids
    case None => None
    case Some(list) =>
      var rest := RemoveFirst(list, 0);
      ShortAfterRemoval(list);
      if rest == [] then None else Some(rest)
  }

  /** The ids the category join matches, or `None` when the search adds no category join.
      Whether the join is added is decided right after the category list loses its first `0`;
      the ids it matches are read only when the query runs, after the manufacturer step, which
      removes one more `0` when the caller passed one list object for both. */
  function CategoryConstraint(categoryIds: Option<seq<int>>, shared: bool): (r: Option<seq<int>>)
    ensures !shared ==> r == EffectiveIds(categoryIds)
    ensures r.None? <==> categoryIds.None? || categoryIds.value == [] || categoryIds.value == [0]
    ensures shared && r.Some? ==> r.value == RemoveFirst(RemoveFirst(categoryIds.value, 0), 0)
  {
    var joined := EffectiveIds(categoryIds);
    if shared && joined.Some? then Some(RemoveFirst(joined.value, 0)) else joined
  }

  /** The ids the manufacturer join matches, or `None` when it adds none: the list as the
      manufacturer step finds it, less one `0`. When the caller passed one list object for
      both, the category step has already taken one `0` out of it. */
  function ManufacturerConstraint(manufacturerIds: Option<seq<int>>, shared: bool): (r: Option<seq<int>>)
    ensures !shared ==> r == EffectiveIds(manufacturerIds)
    ensures shared && manufacturerIds.Some? && r.Some? ==> r.value == RemoveFirst(RemoveFirst(manufacturerIds.value, 0), 0)
    ensures shared ==> (r.None? <==> manufacturerIds.None? || manufacturerIds.value in {[], [0], [0, 0]})
  {
    if shared && manufacturerIds.Some? then
      var list := manufacturerIds.value;
      var afterCategoryStep := RemoveFirst(list, 0);
      ShortAfterRemoval(list);
      EffectiveIds(Some(afterCategoryStep))
    else EffectiveIds(manufacturerIds)
  }

  /** A mapping row counts for the listed ids, skipping featured mappings when asked. */
  predicate MappingQualifies(m: EntityMapping, ids: seq<int>, excludeFeaturedProducts: bool) {
    (!excludeFeaturedProducts || !m.IsFeaturedProduct) && m.EntityId in ids
  }

  predicate HasMapping(productId: int, mappings: seq<EntityMapping>, ids: seq<int>, excludeFeaturedProducts: bool) {
    exists m :: m in mappings && m.ProductId == productId && MappingQualifies(m, ids, excludeFeaturedProducts)
  }

  /** The display order of the product's first qualifying mapping (0 when it has none). */
  function MappingDisplayOrder(productId: int, mappings: seq<EntityMapping>, ids: seq<int>, excludeFeaturedProducts: bool): int {
    if mappings == [] then 0
    else if mappings[0].ProductId == productId && MappingQualifies(mappings[0], ids, excludeFeaturedProducts)
    then mappings[0].DisplayOrder
    else MappingDisplayOrder(productId, mappings[1..], ids, excludeFeaturedProducts)
  }

  /** The order a category or manufacturer join imposes: the mapping's display order, then the
      product name. */
  function MappingOrder(mappings: seq<EntityMapping>, ids: seq<int>, excludeFeaturedProducts: bool): (Product, Product) -> bool {
    (a: Product, b: Product) =>
      var da := MappingDisplayOrder(a.Id, mappings, ids, excludeFeaturedProducts);
      var db := MappingDisplayOrder(b.Id, mappings, ids, excludeFeaturedProducts);
      da < db || (da == db && StrLe(a.Name, b.Name))
  }

  predicate HasTag(productId: int, mappings: seq<ProductTagMapping>, tagId: int) {
    exists m :: m in mappings && m.ProductId == productId && m.ProductTagId == tagId
  }

  // ---------------------------------------------------------------------------------------
  // Specification options

  /** The product has a filterable mapping to one of the listed options of attribute `a`. */
  predicate AttributeMatched(p: Product, a: int, options: seq<SpecificationAttributeOption>,
                             psas: seq<ProductSpecificationAttribute>)
  {
    exists m :: m in psas && m.ProductId == p.Id && m.AllowFiltering
      && exists o :: o in options && o.SpecificationAttributeId == a && o.Id == m.SpecificationAttributeOptionId
  }

  /** For every attribute of the listed options, the product matches one of its options: OR
      within an attribute, AND across attributes. */
  predicate SpecOptionsAdmit(p: Product, options: seq<SpecificationAttributeOption>,
                             psas: seq<ProductSpecificationAttribute>)
  {
    forall i :: 0 <= i < |options| ==> AttributeMatched(p, options[i].SpecificationAttributeId, options, psas)
  }

  /** The distinct attribute ids of the options, in order of first occurrence. */
  function DistinctAttributeIds(options: seq<SpecificationAttributeOption>): (r: seq<int>)
    ensures forall i :: 0 <= i < |options| ==> options[i].SpecificationAttributeId in r
    ensures forall i :: 0 <= i < |r| ==> exists j :: 0 <= j < |options| && options[j].SpecificationAttributeId == r[i]
    ensures forall i, j :: 0 <= i < j < |r| ==> r[i] != r[j]
  {
    if options == [] then []
    else
      var init := options[..|options| - 1];
      var a := options[|options| - 1].SpecificationAttributeId;
      var d := DistinctAttributeIds(init);
      assert forall i :: 0 <= i < |init| ==> init[i] == options[i];
      if a in d then d else d + [a]
  }

  // ---------------------------------------------------------------------------------------
  // Properties

  /** Without a search plugin, every product the built-in match accepts is a candidate. */
  lemma BuiltInMatchIsCandidate(cat: CatalogSnapshot, env: Environment, req: SearchRequest, p: Product)
    requires env.SearchProvider.None? && p in cat.Products && BuiltInMatch(p, req)
    ensures p.Id in KeywordCandidates(cat, env, req)
  {
    assert p.Id in BuiltInMatches(cat.Products, req);
  }

  /** Without a search plugin, a product whose name equals the keywords is a candidate. */
  lemma ExactNameIsCandidate(cat: CatalogSnapshot, env: Environment, req: SearchRequest, p: Product)
    requires env.SearchProvider.None? && p in cat.Products && p.Name == req.Keywords
    ensures p.Id in KeywordCandidates(cat, env, req)
  {
    assert p.Name[0..] == p.Name;
    BuiltInMatchIsCandidate(cat, env, req, p);
  }

  /** An attribute combination whose SKU equals the keywords makes its product a candidate
      when SKUs are searched, even when a search plugin supplied the base set. */
  lemma CombinationSkuIsCandidate(cat: CatalogSnapshot, env: Environment, req: SearchRequest,
                                  c: ProductAttributeCombination)
    requires req.SearchSku && c in cat.AttributeCombinations && c.Sku == req.Keywords
    ensures c.ProductId in KeywordCandidates(cat, env, req)
  {
    assert c.ProductId in CombinationSkuMatches(cat.AttributeCombinations, req.Keywords);
  }

  /** With only the built-in product search in play (no plugin, no localized search, no name
      or tag search), a product id is a candidate exactly when a product row matches or an
      attribute-combination SKU equals the keywords. */
  lemma BuiltInCandidatesExact(cat: CatalogSnapshot, env: Environment, req: SearchRequest, id: int)
    requires env.SearchProvider.None?
    requires !SearchLocalizedValue(req.LanguageId, env.AllLanguages, req.ShowHidden)
    requires !env.AllowCustomersToSearchWithCategoryName && !env.AllowCustomersToSearchWithManufacturerName
    requires !req.SearchProductTags
    ensures id in KeywordCandidates(cat, env, req) <==>
              (exists p :: p in cat.Products && p.Id == id && BuiltInMatch(p, req))
              || (req.SearchSku && exists c :: c in cat.AttributeCombinations && c.ProductId == id && c.Sku == req.Keywords)
  {
    assert KeywordCandidates(cat, env, req) ==
           BuiltInMatches(cat.Products, req)
           + (if req.SearchSku then CombinationSkuMatches(cat.AttributeCombinations, req.Keywords) else {});
  }

  /** With a search plugin and no extra sources, the candidates are exactly the plugin's ids
      for the keywords and the localized-search flag. */
  lemma ProviderReplacesBuiltIn(cat: CatalogSnapshot, env: Environment, req: SearchRequest)
    requires env.SearchProvider.Some?
    requires !req.SearchSku && !req.SearchProductTags
    requires !env.AllowCustomersToSearchWithCategoryName && !env.AllowCustomersToSearchWithManufacturerName
    ensures KeywordCandidates(cat, env, req) ==
              env.SearchProvider.value(req.Keywords, SearchLocalizedValue(req.LanguageId, env.AllLanguages, req.ShowHidden))
  {
  }

  /** A list holding only `0`, an empty list and no list all impose no constraint, whether or
      not one list object serves for both categories and manufacturers. */
  lemma ZeroOnlyMeansNoConstraint(shared: bool)
    ensures EffectiveIds(Some([0])) == None && EffectiveIds(Some([])) == None && EffectiveIds(None) == None
    ensures CategoryConstraint(Some([0]), shared) == None && CategoryConstraint(Some([]), shared) == None
    ensures ManufacturerConstraint(Some([0]), shared) == None && ManufacturerConstraint(Some([]), shared) == None
  {
  }

  /** Only the first `0` is removed, so `[0, 0]` still constrains to id 0. */
  lemma DoubleZeroConstrainsToZero()
    ensures EffectiveIds(Some([0, 0])) == Some([0])
    ensures CategoryConstraint(Some([0, 0]), false) == Some([0])
  {
    assert RemoveFirst([0, 0], 0) == [0];
  }

  /** One list object passed for both categories and manufacturers: the category join matches
      the list as it is after both steps. `[0, 0, 5]` matches categories `[5]`, where a separate
      list would match `[0, 5]`; `[0, 0]` adds a category join (one `0` is left when the
      category step looks) that matches no ids, and no manufacturer join. */
  lemma SharedListReadLate()
    ensures CategoryConstraint(Some([0, 0, 5]), false) == Some([0, 5])
    ensures CategoryConstraint(Some([0, 0, 5]), true) == Some([5])
    ensures ManufacturerConstraint(Some([0, 0, 5]), true) == Some([5])
    ensures CategoryConstraint(Some([0, 0]), true) == Some([])
    ensures ManufacturerConstraint(Some([0, 0]), true) == None
  {
    ZeroRemovals();
  }

  /** The removals of `0` behind `SharedListReadLate`. */
  lemma ZeroRemovals()
    ensures RemoveFirst([0, 0, 5], 0) == [0, 5] && RemoveFirst([0, 5], 0) == [5]
    ensures RemoveFirst([0, 0], 0) == [0] && RemoveFirst([0], 0) == []
  {
    assert [0, 0, 5][1..] == [0, 5];
    assert [0, 5][1..] == [5];
    assert [0, 0][1..] == [0];
  }

  /** The specification-option criterion checked one distinct attribute at a time. */
  lemma {:induction false} SpecOptionsByAttribute(p: Product, options: seq<SpecificationAttributeOption>,
                                                  psas: seq<ProductSpecificationAttribute>)
    ensures SpecOptionsAdmit(p, options, psas) <==>
              forall k :: 0 <= k < |DistinctAttributeIds(options)| ==>
                AttributeMatched(p, DistinctAttributeIds(options)[k], options, psas)
  {
    var ids := DistinctAttributeIds(options);
    if SpecOptionsAdmit(p, options, psas) {
      forall k | 0 <= k < |ids| ensures AttributeMatched(p, ids[k], options, psas) {
        var j :| 0 <= j < |options| && options[j].SpecificationAttributeId == ids[k];
        assert AttributeMatched(p, options[j].SpecificationAttributeId, options, psas);
      }
    } else {
      var i :| 0 <= i < |options| && !AttributeMatched(p, options[i].SpecificationAttributeId, options, psas);
      var a := options[i].SpecificationAttributeId;
      assert a in ids;
      var k :| 0 <= k < |ids| && ids[k] == a;
      assert !AttributeMatched(p, ids[k], options, psas);
      assert ids == DistinctAttributeIds(options);
      assert !(forall k :: 0 <= k < |ids| ==> AttributeMatched(p, ids[k], options, psas));
    }
  }

  /** Options 10 and 11 of attribute 1 and option 20 of attribute 2: a product mapped to 10
      and 20 passes; one mapped to 10 and 11 fails, as nothing matches attribute 2; and a
      mapping that does not allow filtering does not count. */
  lemma SpecOptionsExample(p: Product)
    ensures SpecOptionsAdmit(p, SampleOptions(),
                             [ProductSpecificationAttribute(p.Id, 10, true), ProductSpecificationAttribute(p.Id, 20, true)])
    ensures !SpecOptionsAdmit(p, SampleOptions(),
                              [ProductSpecificationAttribute(p.Id, 10, true), ProductSpecificationAttribute(p.Id, 11, true)])
    ensures !SpecOptionsAdmit(p, SampleOptions(),
                              [ProductSpecificationAttribute(p.Id, 10, true), ProductSpecificationAttribute(p.Id, 20, false)])
  {
    var options := SampleOptions();
    var both := [ProductSpecificationAttribute(p.Id, 10, true), ProductSpecificationAttribute(p.Id, 20, true)];
    assert AttributeMatched(p, 1, options, both) by {
      assert options[0] in options;
    }
    assert AttributeMatched(p, 2, options, both) by {
      assert both[1] in both && options[2] in options;
    }
    var sameAttribute := [ProductSpecificationAttribute(p.Id, 10, true), ProductSpecificationAttribute(p.Id, 11, true)];
    assert options[2].SpecificationAttributeId == 2;
    assert !AttributeMatched(p, 2, options, sameAttribute);
    var notFilterable := [ProductSpecificationAttribute(p.Id, 10, true), ProductSpecificationAttribute(p.Id, 20, false)];
    assert !AttributeMatched(p, 2, options, notFilterable);
  }

  function SampleOptions(): seq<SpecificationAttributeOption> {
    [SpecificationAttributeOption(10, 1), SpecificationAttributeOption(11, 1), SpecificationAttributeOption(20, 2)]
  }
}
