/** The product search: the stepwise narrowing of the catalog, the in-place cleaning of the
    caller's category and manufacturer id lists, and the final stock-aware ordering. The
    search is proved against `Candidates`, one filter by the conjunction of all criteria
    followed by the category and manufacturer orderings. */
module ProductSearch {
  import opened Catalog
  import opened Sequences
  import opened ProductFilters
  import ProductOrdering

  /** A caller-owned `List<int>` of ids that the search edits in place. */
  class IdList {
    var Items: seq<int>

    constructor (items: seq<int>)
      ensures Items == items
    {
      Items := items;
    }

    /** `List.Remove`: deletes the first occurrence of `x`, if any. */
    method Remove(x: int)
      modifies this
      ensures Items == RemoveFirst(old(Items), x)
      ensures x in old(Items) ==> multiset(Items) == multiset(old(Items)) - multiset{x}
    {
      Items := RemoveFirst(Items, x);
    }
  }

  /** What one search filters by beyond the request: the keyword candidate ids, and the ids
      the category and manufacturer joins match; `None` is no constraint. */
  datatype Scope = Scope(KeywordMatches: Option<set<int>>, Categories: Option<seq<int>>, Manufacturers: Option<seq<int>>)

  /** The scope of a search given the ids its category and manufacturer joins match:
      keyword candidates only for non-empty keywords. */
  function SearchScope(cat: CatalogSnapshot, env: Environment, req: SearchRequest,
                       categories: Option<seq<int>>, manufacturers: Option<seq<int>>): Scope
  {
    Scope(if req.Keywords != "" then Some(KeywordCandidates(cat, env, req)) else None, categories, manufacturers)
  }

  /** The criteria in the order the search applies them. */
  predicate Criterion(i: nat, p: Product, cat: CatalogSnapshot, env: Environment, req: SearchRequest, scope: Scope) {
    match i
    case 1 => PublishedAdmits(p.Published, req.ShowHidden, req.OverridePublished)
    case 2 => StoreMappingApplies(req) ==> p.Id in env.StoreMapping.Products
    case 3 => !req.ShowHidden ==> p.Id in env.Acl.Products
    case 4 => MeetsRowCriteria(p, cat.WarehouseInventory, req, env.Now)
    case 5 => scope.KeywordMatches.Some? ==> p.Id in scope.KeywordMatches.value
    case 6 => scope.Categories.Some? ==>
                HasMapping(p.Id, cat.ProductCategories, scope.Categories.value, req.ExcludeFeaturedProducts)
    case 7 => scope.Manufacturers.Some? ==>
                HasMapping(p.Id, cat.ProductManufacturers, scope.Manufacturers.value, req.ExcludeFeaturedProducts)
    case 8 => req.ProductTagId > 0 ==> HasTag(p.Id, cat.ProductTagMappings, req.ProductTagId)
    case 9 => SpecOptionsAdmit(p, req.FilteredSpecOptions, cat.ProductSpecificationAttributes)
    case _ => true
  }

  /** The product meets the first `k` criteria. */
  predicate Passes(k: nat, p: Product, cat: CatalogSnapshot, env: Environment, req: SearchRequest, scope: Scope) {
    k == 0 || (Passes(k - 1, p, cat, env, req, scope) && Criterion(k, p, cat, env, req, scope))
  }

  function Stage(k: nat, cat: CatalogSnapshot, env: Environment, req: SearchRequest, scope: Scope): Product -> bool {
    (p: Product) => Passes(k, p, cat, env, req, scope)
  }

  /** The product meets every criterion of the search. */
  predicate Admitted(p: Product, cat: CatalogSnapshot, env: Environment, req: SearchRequest, scope: Scope) {
    Passes(9, p, cat, env, req, scope)
  }

  /** The published flag equals `v`. */
  function PublishedFilter(v: bool): Product -> bool {
    (p: Product) => p.Published == v
  }

  /** The product id is one of `ids`: the store-mapping, ACL and keyword filters. */
  function IdFilter(ids: set<int>): Product -> bool {
    (p: Product) => p.Id in ids
  }

  /** The criteria on the product row, as a filter. */
  function RowFilter(inventory: seq<ProductWarehouseInventory>, req: SearchRequest, now: int): Product -> bool {
    (p: Product) => MeetsRowCriteria(p, inventory, req, now)
  }

  /** The join with a category or manufacturer list, as a filter. */
  function MappingFilter(mappings: seq<EntityMapping>, ids: seq<int>, excludeFeaturedProducts: bool): Product -> bool {
    (p: Product) => HasMapping(p.Id, mappings, ids, excludeFeaturedProducts)
  }

  /** The join with the tag mappings, as a filter. */
  function TagFilter(mappings: seq<ProductTagMapping>, tagId: int): Product -> bool {
    (p: Product) => HasTag(p.Id, mappings, tagId)
  }

  /** The specification-option criterion, as a filter. */
  function SpecFilter(options: seq<SpecificationAttributeOption>, psas: seq<ProductSpecificationAttribute>): Product -> bool {
    (p: Product) => SpecOptionsAdmit(p, options, psas)
  }

  /** Sorts by a category or manufacturer join when the list constrains. */
  function MappingSort(s: seq<Product>, mappings: seq<EntityMapping>, ids: Option<seq<int>>,
                       excludeFeaturedProducts: bool): seq<Product>
  {
    if ids.Some? then Sort(s, MappingOrder(mappings, ids.value, excludeFeaturedProducts)) else s
  }

  /** A category or manufacturer join when the step added one: the products mapped to one of
      the ids, in the join's order. */
  function MappingJoin(s: seq<Product>, mappings: seq<EntityMapping>, ids: Option<seq<int>>,
                       excludeFeaturedProducts: bool): seq<Product>
  {
    if ids.Some? then MappingSort(Filter(s, MappingFilter(mappings, ids.value, excludeFeaturedProducts)),
                                  mappings, ids, excludeFeaturedProducts)
    else s
  }

  /** The order the category join, then the manufacturer join, impose. */
  function JoinOrder(s: seq<Product>, cat: CatalogSnapshot, req: SearchRequest, scope: Scope): seq<Product> {
    var byCategory := MappingSort(s, cat.ProductCategories, scope.Categories, req.ExcludeFeaturedProducts);
    MappingSort(byCategory, cat.ProductManufacturers, scope.Manufacturers, req.ExcludeFeaturedProducts)
  }

  /** The products a search selects, before the final ordering: the admitted catalog products
      in the order the joins give them. `categories` and `manufacturers` are the ids the joins
      match (`CategoryConstraint` and `ManufacturerConstraint` of the caller's lists). */
  function Candidates(cat: CatalogSnapshot, env: Environment, req: SearchRequest,
                      categories: Option<seq<int>>, manufacturers: Option<seq<int>>): seq<Product>
  {
    var scope := SearchScope(cat, env, req, categories, manufacturers);
    JoinOrder(Filter(cat.Products, Stage(9, cat, env, req, scope)), cat, req, scope)
  }

  // ---------------------------------------------------------------------------------------
  // Proof helpers

  lemma MappingOrderIsPreorder(mappings: seq<EntityMapping>, ids: seq<int>, excludeFeaturedProducts: bool)
    ensures TotalPreorder(MappingOrder(mappings, ids, excludeFeaturedProducts))
  {
    var le := MappingOrder(mappings, ids, excludeFeaturedProducts);
    forall a: Product, b: Product ensures le(a, b) || le(b, a) {
      StrLeTotal(a.Name, b.Name);
    }
    forall a: Product, b: Product, c: Product | le(a, b) && le(b, c) ensures le(a, c) {
      if StrLe(a.Name, b.Name) && StrLe(b.Name, c.Name) {
        StrLeTransitive(a.Name, b.Name, c.Name);
      }
    }
  }

  /** Filtering commutes with a join ordering. */
  lemma MappingSortFilter(s: seq<Product>, g: Product -> bool, mappings: seq<EntityMapping>, ids: Option<seq<int>>,
                          excludeFeaturedProducts: bool)
    ensures Filter(MappingSort(s, mappings, ids, excludeFeaturedProducts), g)
         == MappingSort(Filter(s, g), mappings, ids, excludeFeaturedProducts)
  {
    if ids.Some? {
      MappingOrderIsPreorder(mappings, ids.value, excludeFeaturedProducts);
      FilterSort(s, g, MappingOrder(mappings, ids.value, excludeFeaturedProducts));
    }
  }

  lemma JoinOrderFilter(s: seq<Product>, g: Product -> bool, cat: CatalogSnapshot, req: SearchRequest, scope: Scope)
    ensures Filter(JoinOrder(s, cat, req, scope), g) == JoinOrder(Filter(s, g), cat, req, scope)
  {
    var excl := req.ExcludeFeaturedProducts;
    MappingSortFilter(s, g, cat.ProductCategories, scope.Categories, excl);
    MappingSortFilter(MappingSort(s, cat.ProductCategories, scope.Categories, excl), g,
                      cat.ProductManufacturers, scope.Manufacturers, excl);
  }

  /** Adding criterion `k` by a filter that agrees with it. */
  lemma Narrow(s: seq<Product>, k: nat, g: Product -> bool, cat: CatalogSnapshot, env: Environment,
               req: SearchRequest, scope: Scope)
    requires k >= 1
    requires forall p :: g(p) == Criterion(k, p, cat, env, req, scope)
    ensures Filter(Filter(s, Stage(k - 1, cat, env, req, scope)), g) == Filter(s, Stage(k, cat, env, req, scope))
  {
    FilterFilter(s, Stage(k - 1, cat, env, req, scope), g, Stage(k, cat, env, req, scope));
  }

  /** Criterion `k` holds throughout, so the search skips it. */
  lemma Skip(s: seq<Product>, k: nat, cat: CatalogSnapshot, env: Environment, req: SearchRequest, scope: Scope)
    requires k >= 1
    requires forall p :: Criterion(k, p, cat, env, req, scope)
    ensures Filter(s, Stage(k - 1, cat, env, req, scope)) == Filter(s, Stage(k, cat, env, req, scope))
  {
    FilterCongruent(s, Stage(k - 1, cat, env, req, scope), Stage(k, cat, env, req, scope));
  }

  // Each criterion agrees with the filter the search applies for it, or holds throughout when
  // the search skips it.

  lemma PublishedAgrees(cat: CatalogSnapshot, env: Environment, req: SearchRequest, scope: Scope)
    ensures !req.ShowHidden ==> forall p :: PublishedFilter(true)(p) == Criterion(1, p, cat, env, req, scope)
    ensures req.ShowHidden && req.OverridePublished.Some? ==>
              forall p :: PublishedFilter(req.OverridePublished.value)(p) == Criterion(1, p, cat, env, req, scope)
    ensures req.ShowHidden && req.OverridePublished.None? ==> forall p :: Criterion(1, p, cat, env, req, scope)
  {
  }

  lemma StoreAgrees(cat: CatalogSnapshot, env: Environment, req: SearchRequest, scope: Scope)
    ensures StoreMappingApplies(req) ==> forall p :: IdFilter(env.StoreMapping.Products)(p) == Criterion(2, p, cat, env, req, scope)
    ensures !StoreMappingApplies(req) ==> forall p :: Criterion(2, p, cat, env, req, scope)
  {
  }

  lemma AclAgrees(cat: CatalogSnapshot, env: Environment, req: SearchRequest, scope: Scope)
    ensures !req.ShowHidden ==> forall p :: IdFilter(env.Acl.Products)(p) == Criterion(3, p, cat, env, req, scope)
    ensures req.ShowHidden ==> forall p :: Criterion(3, p, cat, env, req, scope)
  {
  }

  lemma RowAgrees(cat: CatalogSnapshot, env: Environment, req: SearchRequest, scope: Scope)
    ensures forall p :: RowFilter(cat.WarehouseInventory, req, env.Now)(p) == Criterion(4, p, cat, env, req, scope)
  {
    forall p ensures RowFilter(cat.WarehouseInventory, req, env.Now)(p) == Criterion(4, p, cat, env, req, scope) {
      assert RowFilter(cat.WarehouseInventory, req, env.Now)(p) == MeetsRowCriteria(p, cat.WarehouseInventory, req, env.Now);
    }
  }

  lemma KeywordAgrees(cat: CatalogSnapshot, env: Environment, req: SearchRequest, scope: Scope)
    ensures scope.KeywordMatches.Some? ==>
              forall p :: IdFilter(scope.KeywordMatches.value)(p) == Criterion(5, p, cat, env, req, scope)
    ensures scope.KeywordMatches.None? ==> forall p :: Criterion(5, p, cat, env, req, scope)
  {
  }

  lemma CategoryAgrees(cat: CatalogSnapshot, env: Environment, req: SearchRequest, scope: Scope)
    ensures scope.Categories.Some? ==>
              forall p :: MappingFilter(cat.ProductCategories, scope.Categories.value, req.ExcludeFeaturedProducts)(p)
                          == Criterion(6, p, cat, env, req, scope)
    ensures scope.Categories.None? ==> forall p :: Criterion(6, p, cat, env, req, scope)
  {
    if scope.Categories.Some? {
      var g := MappingFilter(cat.ProductCategories, scope.Categories.value, req.ExcludeFeaturedProducts);
      forall p ensures g(p) == Criterion(6, p, cat, env, req, scope) {
        assert g(p) == HasMapping(p.Id, cat.ProductCategories, scope.Categories.value, req.ExcludeFeaturedProducts);
      }
    }
  }

  lemma ManufacturerAgrees(cat: CatalogSnapshot, env: Environment, req: SearchRequest, scope: Scope)
    ensures scope.Manufacturers.Some? ==>
              forall p :: MappingFilter(cat.ProductManufacturers, scope.Manufacturers.value, req.ExcludeFeaturedProducts)(p)
                          == Criterion(7, p, cat, env, req, scope)
    ensures scope.Manufacturers.None? ==> forall p :: Criterion(7, p, cat, env, req, scope)
  {
    if scope.Manufacturers.Some? {
      var g := MappingFilter(cat.ProductManufacturers, scope.Manufacturers.value, req.ExcludeFeaturedProducts);
      forall p ensures g(p) == Criterion(7, p, cat, env, req, scope) {
        assert g(p) == HasMapping(p.Id, cat.ProductManufacturers, scope.Manufacturers.value, req.ExcludeFeaturedProducts);
      }
    }
  }

  lemma TagAgrees(cat: CatalogSnapshot, env: Environment, req: SearchRequest, scope: Scope)
    ensures req.ProductTagId > 0 ==>
              forall p :: TagFilter(cat.ProductTagMappings, req.ProductTagId)(p) == Criterion(8, p, cat, env, req, scope)
    ensures req.ProductTagId <= 0 ==> forall p :: Criterion(8, p, cat, env, req, scope)
  {
    if req.ProductTagId > 0 {
      var g := TagFilter(cat.ProductTagMappings, req.ProductTagId);
      forall p ensures g(p) == Criterion(8, p, cat, env, req, scope) {
        assert g(p) == HasTag(p.Id, cat.ProductTagMappings, req.ProductTagId);
      }
    }
  }

  lemma SpecAgrees(cat: CatalogSnapshot, env: Environment, req: SearchRequest, scope: Scope)
    ensures forall p :: SpecFilter(req.FilteredSpecOptions, cat.ProductSpecificationAttributes)(p)
                        == Criterion(9, p, cat, env, req, scope)
    ensures |req.FilteredSpecOptions| == 0 ==> forall p :: Criterion(9, p, cat, env, req, scope)
  {
    var g := SpecFilter(req.FilteredSpecOptions, cat.ProductSpecificationAttributes);
    forall p ensures g(p) == Criterion(9, p, cat, env, req, scope) {
      assert g(p) == SpecOptionsAdmit(p, req.FilteredSpecOptions, cat.ProductSpecificationAttributes);
    }
  }

  /** The category step leaves the products meeting six criteria, in the category join's order. */
  lemma CategoryStep(cat: CatalogSnapshot, env: Environment, req: SearchRequest, scope: Scope,
                     before: seq<Product>, after: seq<Product>)
    requires before == Filter(cat.Products, Stage(5, cat, env, req, scope))
    requires after == MappingJoin(before, cat.ProductCategories, scope.Categories, req.ExcludeFeaturedProducts)
    ensures after == MappingSort(Filter(cat.Products, Stage(6, cat, env, req, scope)), cat.ProductCategories,
                                 scope.Categories, req.ExcludeFeaturedProducts)
  {
    if scope.Categories.Some? {
      var ids, excl := scope.Categories.value, req.ExcludeFeaturedProducts;
      assert after == Sort(Filter(before, MappingFilter(cat.ProductCategories, ids, excl)),
                           MappingOrder(cat.ProductCategories, ids, excl));
      CategoryNarrows(cat, env, req, scope);
    } else {
      CategorySkips(cat, env, req, scope);
    }
  }

  lemma CategoryNarrows(cat: CatalogSnapshot, env: Environment, req: SearchRequest, scope: Scope)
    requires scope.Categories.Some?
    ensures Filter(Filter(cat.Products, Stage(5, cat, env, req, scope)),
                   MappingFilter(cat.ProductCategories, scope.Categories.value, req.ExcludeFeaturedProducts))
         == Filter(cat.Products, Stage(6, cat, env, req, scope))
  {
    CategoryAgrees(cat, env, req, scope);
    Narrow(cat.Products, 6, MappingFilter(cat.ProductCategories, scope.Categories.value, req.ExcludeFeaturedProducts),
           cat, env, req, scope);
  }

  lemma CategorySkips(cat: CatalogSnapshot, env: Environment, req: SearchRequest, scope: Scope)
    requires scope.Categories.None?
    ensures Filter(cat.Products, Stage(5, cat, env, req, scope)) == Filter(cat.Products, Stage(6, cat, env, req, scope))
  {
    CategoryAgrees(cat, env, req, scope);
    Skip(cat.Products, 6, cat, env, req, scope);
  }

  /** The manufacturer step leaves the products meeting seven criteria, in the join order. */
  lemma ManufacturerStep(cat: CatalogSnapshot, env: Environment, req: SearchRequest, scope: Scope,
                         before: seq<Product>, after: seq<Product>)
    requires before == MappingSort(Filter(cat.Products, Stage(6, cat, env, req, scope)), cat.ProductCategories,
                                   scope.Categories, req.ExcludeFeaturedProducts)
    requires after == MappingJoin(before, cat.ProductManufacturers, scope.Manufacturers, req.ExcludeFeaturedProducts)
    ensures after == JoinOrder(Filter(cat.Products, Stage(7, cat, env, req, scope)), cat, req, scope)
  {
    var excl := req.ExcludeFeaturedProducts;
    var admitted6 := Filter(cat.Products, Stage(6, cat, env, req, scope));
    var admitted7 := Filter(cat.Products, Stage(7, cat, env, req, scope));
    if scope.Manufacturers.Some? {
      var g := MappingFilter(cat.ProductManufacturers, scope.Manufacturers.value, excl);
      assert after == Sort(Filter(before, g), MappingOrder(cat.ProductManufacturers, scope.Manufacturers.value, excl));
      ManufacturerNarrows(cat, env, req, scope);
      MappingSortFilter(admitted6, g, cat.ProductCategories, scope.Categories, excl);
    } else {
      ManufacturerSkips(cat, env, req, scope);
    }
  }

  lemma ManufacturerNarrows(cat: CatalogSnapshot, env: Environment, req: SearchRequest, scope: Scope)
    requires scope.Manufacturers.Some?
    ensures Filter(Filter(cat.Products, Stage(6, cat, env, req, scope)),
                   MappingFilter(cat.ProductManufacturers, scope.Manufacturers.value, req.ExcludeFeaturedProducts))
         == Filter(cat.Products, Stage(7, cat, env, req, scope))
  {
    ManufacturerAgrees(cat, env, req, scope);
    Narrow(cat.Products, 7, MappingFilter(cat.ProductManufacturers, scope.Manufacturers.value, req.ExcludeFeaturedProducts),
           cat, env, req, scope);
  }

  lemma ManufacturerSkips(cat: CatalogSnapshot, env: Environment, req: SearchRequest, scope: Scope)
    requires scope.Manufacturers.None?
    ensures Filter(cat.Products, Stage(6, cat, env, req, scope)) == Filter(cat.Products, Stage(7, cat, env, req, scope))
  {
    ManufacturerAgrees(cat, env, req, scope);
    Skip(cat.Products, 7, cat, env, req, scope);
  }

  /** The tag step leaves the products meeting eight criteria, in the join order. */
  lemma TagStep(cat: CatalogSnapshot, env: Environment, req: SearchRequest, scope: Scope,
                before: seq<Product>, after: seq<Product>)
    requires before == JoinOrder(Filter(cat.Products, Stage(7, cat, env, req, scope)), cat, req, scope)
    requires after == if req.ProductTagId > 0 then Filter(before, TagFilter(cat.ProductTagMappings, req.ProductTagId)) else before
    ensures after == JoinOrder(Filter(cat.Products, Stage(8, cat, env, req, scope)), cat, req, scope)
  {
    var admitted7 := Filter(cat.Products, Stage(7, cat, env, req, scope));
    if req.ProductTagId > 0 {
      TagNarrows(cat, env, req, scope);
      JoinOrderFilter(admitted7, TagFilter(cat.ProductTagMappings, req.ProductTagId), cat, req, scope);
    } else {
      TagSkips(cat, env, req, scope);
    }
  }

  lemma TagNarrows(cat: CatalogSnapshot, env: Environment, req: SearchRequest, scope: Scope)
    requires req.ProductTagId > 0
    ensures Filter(Filter(cat.Products, Stage(7, cat, env, req, scope)), TagFilter(cat.ProductTagMappings, req.ProductTagId))
         == Filter(cat.Products, Stage(8, cat, env, req, scope))
  {
    TagAgrees(cat, env, req, scope);
    Narrow(cat.Products, 8, TagFilter(cat.ProductTagMappings, req.ProductTagId), cat, env, req, scope);
  }

  lemma TagSkips(cat: CatalogSnapshot, env: Environment, req: SearchRequest, scope: Scope)
    requires req.ProductTagId <= 0
    ensures Filter(cat.Products, Stage(7, cat, env, req, scope)) == Filter(cat.Products, Stage(8, cat, env, req, scope))
  {
    TagAgrees(cat, env, req, scope);
    Skip(cat.Products, 8, cat, env, req, scope);
  }

  /** The specification-option step leaves the admitted products, in the join order. */
  lemma SpecStep(cat: CatalogSnapshot, env: Environment, req: SearchRequest, scope: Scope,
                 before: seq<Product>, after: seq<Product>)
    requires before == JoinOrder(Filter(cat.Products, Stage(8, cat, env, req, scope)), cat, req, scope)
    requires after == if |req.FilteredSpecOptions| > 0
                      then Filter(before, SpecFilter(req.FilteredSpecOptions, cat.ProductSpecificationAttributes))
                      else before
    ensures after == JoinOrder(Filter(cat.Products, Stage(9, cat, env, req, scope)), cat, req, scope)
  {
    var admitted8 := Filter(cat.Products, Stage(8, cat, env, req, scope));
    if |req.FilteredSpecOptions| > 0 {
      SpecNarrows(cat, env, req, scope);
      JoinOrderFilter(admitted8, SpecFilter(req.FilteredSpecOptions, cat.ProductSpecificationAttributes), cat, req, scope);
    } else {
      SpecSkips(cat, env, req, scope);
    }
  }

  lemma SpecNarrows(cat: CatalogSnapshot, env: Environment, req: SearchRequest, scope: Scope)
    ensures Filter(Filter(cat.Products, Stage(8, cat, env, req, scope)),
                   SpecFilter(req.FilteredSpecOptions, cat.ProductSpecificationAttributes))
         == Filter(cat.Products, Stage(9, cat, env, req, scope))
  {
    SpecAgrees(cat, env, req, scope);
    Narrow(cat.Products, 9, SpecFilter(req.FilteredSpecOptions, cat.ProductSpecificationAttributes), cat, env, req, scope);
  }

  lemma SpecSkips(cat: CatalogSnapshot, env: Environment, req: SearchRequest, scope: Scope)
    requires |req.FilteredSpecOptions| == 0
    ensures Filter(cat.Products, Stage(8, cat, env, req, scope)) == Filter(cat.Products, Stage(9, cat, env, req, scope))
  {
    SpecAgrees(cat, env, req, scope);
    Skip(cat.Products, 9, cat, env, req, scope);
  }

  // ---------------------------------------------------------------------------------------
  // The search

  /** Keeps the products that, for every distinct attribute of the options, have a filterable
      mapping to one of that attribute's options. */
  method NarrowBySpecOptions(products: seq<Product>, options: seq<SpecificationAttributeOption>,
                             psas: seq<ProductSpecificationAttribute>) returns (r: seq<Product>)
    ensures r == Filter(products, SpecFilter(options, psas))
  {
    var attributeIds := DistinctAttributeIds(options);
    r := products;
    FilterAll(products, AttributesFilter(attributeIds[..0], options, psas));
    var k := 0;
    while k < |attributeIds|
      invariant 0 <= k <= |attributeIds|
      invariant r == Filter(products, AttributesFilter(attributeIds[..k], options, psas))
    {
      var a := attributeIds[k];
      AttributeStep(products, attributeIds[..k], a, options, psas);
      assert attributeIds[..k + 1] == attributeIds[..k] + [a];
      r := Filter(r, AttributeFilter(a, options, psas));
      k := k + 1;
    }
    assert attributeIds[..k] == attributeIds;
    EveryAttribute(products, options, psas);
  }

  /** The product matches every attribute in `ids`. */
  predicate MatchesAttributes(p: Product, ids: seq<int>, options: seq<SpecificationAttributeOption>,
                              psas: seq<ProductSpecificationAttribute>)
  {
    forall k :: 0 <= k < |ids| ==> AttributeMatched(p, ids[k], options, psas)
  }

  function AttributeFilter(a: int, options: seq<SpecificationAttributeOption>,
                           psas: seq<ProductSpecificationAttribute>): Product -> bool {
    (p: Product) => AttributeMatched(p, a, options, psas)
  }

  function AttributesFilter(ids: seq<int>, options: seq<SpecificationAttributeOption>,
                            psas: seq<ProductSpecificationAttribute>): Product -> bool {
    (p: Product) => MatchesAttributes(p, ids, options, psas)
  }

  /** One more attribute narrows the products matching the earlier ones. */
  lemma AttributeStep(products: seq<Product>, ids: seq<int>, a: int, options: seq<SpecificationAttributeOption>,
                      psas: seq<ProductSpecificationAttribute>)
    ensures Filter(Filter(products, AttributesFilter(ids, options, psas)), AttributeFilter(a, options, psas))
         == Filter(products, AttributesFilter(ids + [a], options, psas))
  {
    var before := AttributesFilter(ids, options, psas);
    var g := AttributeFilter(a, options, psas);
    var after := AttributesFilter(ids + [a], options, psas);
    forall p | p in products ensures after(p) == (before(p) && g(p)) {
      assert after(p) == MatchesAttributes(p, ids + [a], options, psas);
      assert before(p) == MatchesAttributes(p, ids, options, psas);
      if MatchesAttributes(p, ids + [a], options, psas) {
        assert (ids + [a])[|ids|] == a;
        forall k | 0 <= k < |ids| ensures AttributeMatched(p, ids[k], options, psas) {
          assert (ids + [a])[k] == ids[k];
        }
      }
    }
    FilterFilter(products, before, g, after);
  }

  /** Matching every distinct attribute of the options is what the options admit. */
  lemma EveryAttribute(products: seq<Product>, options: seq<SpecificationAttributeOption>,
                       psas: seq<ProductSpecificationAttribute>)
    ensures Filter(products, AttributesFilter(DistinctAttributeIds(options), options, psas))
         == Filter(products, SpecFilter(options, psas))
  {
    var f := AttributesFilter(DistinctAttributeIds(options), options, psas);
    var g := SpecFilter(options, psas);
    forall p | p in products ensures f(p) == g(p) {
      SpecOptionsByAttribute(p, options, psas);
    }
    FilterCongruent(products, f, g);
  }

  /** The contents of a nullable id list. */
  function Contents(list: IdList?): Option<seq<int>>
    reads list
  {
    if list == null then None else Some(list.Items)
  }

  /** The caller passed one list object for both categories and manufacturers. */
  predicate Shared(categoryIds: IdList?, manufacturerIds: IdList?) {
    categoryIds != null && categoryIds == manufacturerIds
  }

  /** The criteria on the product row and the keywords, applied step by step: the published
      rule, store mapping, ACL, the row criteria and the keyword candidates. */
  method NarrowByRowAndKeywords(cat: CatalogSnapshot, env: Environment, req: SearchRequest, ghost scope: Scope)
    returns (products: seq<Product>)
    requires scope.KeywordMatches == if req.Keywords != "" then Some(KeywordCandidates(cat, env, req)) else None
    ensures products == Filter(cat.Products, Stage(5, cat, env, req, scope))
  {
    ghost var all := cat.Products;
    products := cat.Products;
    if !req.ShowHidden {
      products := Filter(products, PublishedFilter(true));
    } else if req.OverridePublished.Some? {
      products := Filter(products, PublishedFilter(req.OverridePublished.value));
    }
    assert products == Filter(all, Stage(1, cat, env, req, scope)) by {
      FilterAll(all, Stage(0, cat, env, req, scope));
      PublishedAgrees(cat, env, req, scope);
      if !req.ShowHidden {
        Narrow(all, 1, PublishedFilter(true), cat, env, req, scope);
      } else if req.OverridePublished.Some? {
        Narrow(all, 1, PublishedFilter(req.OverridePublished.value), cat, env, req, scope);
      } else {
        Skip(all, 1, cat, env, req, scope);
      }
    }

    if !req.ShowHidden || req.StoreId > 0 {
      products := Filter(products, IdFilter(env.StoreMapping.Products));
    }
    assert products == Filter(all, Stage(2, cat, env, req, scope)) by {
      StoreAgrees(cat, env, req, scope);
      if StoreMappingApplies(req) {
        Narrow(all, 2, IdFilter(env.StoreMapping.Products), cat, env, req, scope);
      } else {
        Skip(all, 2, cat, env, req, scope);
      }
    }

    if !req.ShowHidden {
      products := Filter(products, IdFilter(env.Acl.Products));
    }
    assert products == Filter(all, Stage(3, cat, env, req, scope)) by {
      AclAgrees(cat, env, req, scope);
      if !req.ShowHidden {
        Narrow(all, 3, IdFilter(env.Acl.Products), cat, env, req, scope);
      } else {
        Skip(all, 3, cat, env, req, scope);
      }
    }

    products := Filter(products, RowFilter(cat.WarehouseInventory, req, env.Now));
    assert products == Filter(all, Stage(4, cat, env, req, scope)) by {
      RowAgrees(cat, env, req, scope);
      Narrow(all, 4, RowFilter(cat.WarehouseInventory, req, env.Now), cat, env, req, scope);
    }

    if req.Keywords != "" {
      var candidates := KeywordCandidates(cat, env, req);
      products := Filter(products, IdFilter(candidates));
    }
    assert products == Filter(all, Stage(5, cat, env, req, scope)) by {
      KeywordAgrees(cat, env, req, scope);
      if req.Keywords != "" {
        Narrow(all, 5, IdFilter(scope.KeywordMatches.value), cat, env, req, scope);
      } else {
        Skip(all, 5, cat, env, req, scope);
      }
    }
  }

  /** The list edit of the category or manufacturer step: removes the first `0` from the
      caller's list in place and says whether ids remain, that is, whether the step adds its
      join. The join itself reads the list only when the query runs. */
  method RemoveZero(list: IdList?) returns (joins: bool)
    modifies list
    ensures list != null ==> list.Items == RemoveFirst(old(list.Items), 0)
    ensures joins <==> list != null && list.Items != []
  {
    joins := false;
    if list != null {
      if 0 in list.Items {
        list.Remove(0);
      }
      joins := |list.Items| > 0;
    }
  }

  /** The category and manufacturer steps' list edits, made while the query is built, and the
      ids the two joins match when the query runs: the lists as the edits leave them, for each
      join the step added. */
  method EditIdLists(categoryIds: IdList?, manufacturerIds: IdList?)
    returns (categoryJoin: Option<seq<int>>, manufacturerJoin: Option<seq<int>>)
    modifies categoryIds, manufacturerIds
    ensures categoryIds != null && !Shared(categoryIds, manufacturerIds) ==>
              categoryIds.Items == RemoveFirst(old(categoryIds.Items), 0)
    ensures manufacturerIds != null && !Shared(categoryIds, manufacturerIds) ==>
              manufacturerIds.Items == RemoveFirst(old(manufacturerIds.Items), 0)
    ensures Shared(categoryIds, manufacturerIds) ==>
              categoryIds.Items == RemoveFirst(RemoveFirst(old(categoryIds.Items), 0), 0)
    ensures categoryJoin == CategoryConstraint(old(Contents(categoryIds)), Shared(categoryIds, manufacturerIds))
    ensures manufacturerJoin == ManufacturerConstraint(old(Contents(manufacturerIds)), Shared(categoryIds, manufacturerIds))
  {
    var joinCategories := RemoveZero(categoryIds);
    var joinManufacturers := RemoveZero(manufacturerIds);
    categoryJoin := if joinCategories then Some(categoryIds.Items) else None;
    manufacturerJoin := if joinManufacturers then Some(manufacturerIds.Items) else None;
  }

  /** Searches the catalog: narrows the products criterion by criterion, removes one `0` from
      each given id list in place, and orders the result with the stock-aware sorter in the
      working language. The query is built step by step but runs only when it is paged, so the
      category and manufacturer joins match the lists as they are at the end, while whether
      each join is added was decided at its own step. Returns the page size the pager receives
      and the ordered products. */
  method SearchProducts(cat: CatalogSnapshot, env: Environment, req: SearchRequest,
                        categoryIds: IdList?, manufacturerIds: IdList?, preordered: bool)
    returns (pageSize: int, result: seq<Product>)
    modifies categoryIds, manufacturerIds
    ensures pageSize == ClampPageSize(req.PageSize)
    ensures categoryIds != null && !Shared(categoryIds, manufacturerIds) ==>
              categoryIds.Items == RemoveFirst(old(categoryIds.Items), 0)
    ensures manufacturerIds != null && !Shared(categoryIds, manufacturerIds) ==>
              manufacturerIds.Items == RemoveFirst(old(manufacturerIds.Items), 0)
    ensures Shared(categoryIds, manufacturerIds) ==>
              categoryIds.Items == RemoveFirst(RemoveFirst(old(categoryIds.Items), 0), 0)
    ensures result == ProductOrdering.OrderBy(
              Candidates(cat, env, req,
                         CategoryConstraint(old(Contents(categoryIds)), Shared(categoryIds, manufacturerIds)),
                         ManufacturerConstraint(old(Contents(manufacturerIds)), Shared(categoryIds, manufacturerIds))),
              cat.LocalizedProperties, env.WorkingLanguageId, req.OrderBy, preordered, req.IsBoxChecked)
  {
    pageSize := ClampPageSize(req.PageSize);
    ghost var shared := Shared(categoryIds, manufacturerIds);
    ghost var categories := CategoryConstraint(Contents(categoryIds), shared);
    ghost var manufacturers := ManufacturerConstraint(Contents(manufacturerIds), shared);
    ghost var scope := SearchScope(cat, env, req, categories, manufacturers);
    var excl := req.ExcludeFeaturedProducts;

    var products := NarrowByRowAndKeywords(cat, env, req, scope);

    var categoryJoin, manufacturerJoin := EditIdLists(categoryIds, manufacturerIds);
    assert categoryJoin == scope.Categories && manufacturerJoin == scope.Manufacturers;

    ghost var before := products;
    products := MappingJoin(products, cat.ProductCategories, categoryJoin, excl);
    CategoryStep(cat, env, req, scope, before, products);

    before := products;
    products := MappingJoin(products, cat.ProductManufacturers, manufacturerJoin, excl);
    ManufacturerStep(cat, env, req, scope, before, products);

    before := products;
    if req.ProductTagId > 0 {
      products := Filter(products, TagFilter(cat.ProductTagMappings, req.ProductTagId));
    }
    TagStep(cat, env, req, scope, before, products);

    before := products;
    if |req.FilteredSpecOptions| > 0 {
      products := NarrowBySpecOptions(products, req.FilteredSpecOptions, cat.ProductSpecificationAttributes);
    }
    SpecStep(cat, env, req, scope, before, products);
    assert products == Candidates(cat, env, req, categories, manufacturers);

    result := ProductOrdering.OrderBy(products, cat.LocalizedProperties, env.WorkingLanguageId,
                                      req.OrderBy, preordered, req.IsBoxChecked);
  }

  // ---------------------------------------------------------------------------------------
  // Properties of the search

  /** Spelled out: a product is admitted when it passes the published rule, store mapping
      (unless hidden records are shown for all stores), ACL (unless hidden records are shown),
      the row criteria, the keyword candidates (for non-empty keywords), the category and
      manufacturer joins (for lists that constrain), the tag join (for a positive tag id) and
      the specification options. */
  lemma AdmittedMeans(p: Product, cat: CatalogSnapshot, env: Environment, req: SearchRequest, scope: Scope)
    ensures Admitted(p, cat, env, req, scope) <==>
              && PublishedAdmits(p.Published, req.ShowHidden, req.OverridePublished)
              && (!req.ShowHidden || req.StoreId > 0 ==> p.Id in env.StoreMapping.Products)
              && (!req.ShowHidden ==> p.Id in env.Acl.Products)
              && MeetsRowCriteria(p, cat.WarehouseInventory, req, env.Now)
              && (scope.KeywordMatches.Some? ==> p.Id in scope.KeywordMatches.value)
              && (scope.Categories.Some? ==>
                    HasMapping(p.Id, cat.ProductCategories, scope.Categories.value, req.ExcludeFeaturedProducts))
              && (scope.Manufacturers.Some? ==>
                    HasMapping(p.Id, cat.ProductManufacturers, scope.Manufacturers.value, req.ExcludeFeaturedProducts))
              && (req.ProductTagId > 0 ==> HasTag(p.Id, cat.ProductTagMappings, req.ProductTagId))
              && SpecOptionsAdmit(p, req.FilteredSpecOptions, cat.ProductSpecificationAttributes)
  {
    assert Passes(9, p, cat, env, req, scope) == (Passes(8, p, cat, env, req, scope) && Criterion(9, p, cat, env, req, scope));
    assert Passes(8, p, cat, env, req, scope) == (Passes(7, p, cat, env, req, scope) && Criterion(8, p, cat, env, req, scope));
    assert Passes(7, p, cat, env, req, scope) == (Passes(6, p, cat, env, req, scope) && Criterion(7, p, cat, env, req, scope));
    assert Passes(6, p, cat, env, req, scope) == (Passes(5, p, cat, env, req, scope) && Criterion(6, p, cat, env, req, scope));
    assert Passes(5, p, cat, env, req, scope) == (Passes(4, p, cat, env, req, scope) && Criterion(5, p, cat, env, req, scope));
    assert Passes(4, p, cat, env, req, scope) == (Passes(3, p, cat, env, req, scope) && Criterion(4, p, cat, env, req, scope));
    assert Passes(3, p, cat, env, req, scope) == (Passes(2, p, cat, env, req, scope) && Criterion(3, p, cat, env, req, scope));
    assert Passes(2, p, cat, env, req, scope) == (Passes(1, p, cat, env, req, scope) && Criterion(2, p, cat, env, req, scope));
    assert Passes(1, p, cat, env, req, scope) == (Passes(0, p, cat, env, req, scope) && Criterion(1, p, cat, env, req, scope));
  }

  /** What an admitted product looks like: the published rule in its three cases, not deleted,
      the vendor, product type, visibility and warehouse asked for, the price within the
      inclusive bounds and, unless hidden records are shown, "now" inside its availability
      window. */
  lemma AdmittedMeetsCriteria(p: Product, cat: CatalogSnapshot, env: Environment, req: SearchRequest, scope: Scope)
    requires Admitted(p, cat, env, req, scope)
    ensures !req.ShowHidden ==> p.Published
    ensures req.ShowHidden && req.OverridePublished.Some? ==> p.Published == req.OverridePublished.value
    ensures !p.Deleted
    ensures req.VendorId == 0 || p.VendorId == req.VendorId
    ensures req.ProductType.None? || p.ProductTypeId == req.ProductType.value
    ensures req.VisibleIndividuallyOnly ==> p.VisibleIndividually
    ensures req.WarehouseId != 0 && !p.UseMultipleWarehouses ==> p.WarehouseId == req.WarehouseId
    ensures req.WarehouseId != 0 && p.UseMultipleWarehouses ==>
              exists w :: w in cat.WarehouseInventory && w.WarehouseId == req.WarehouseId && w.ProductId == p.Id
    ensures req.PriceMin.Some? ==> p.Price >= req.PriceMin.value
    ensures req.PriceMax.Some? ==> p.Price <= req.PriceMax.value
    ensures !req.ShowHidden && p.AvailableStartDateTimeUtc.Some? ==> env.Now >= p.AvailableStartDateTimeUtc.value
    ensures !req.ShowHidden && p.AvailableEndDateTimeUtc.Some? ==> env.Now <= p.AvailableEndDateTimeUtc.value
  {
    AdmittedMeans(p, cat, env, req, scope);
  }

  lemma JoinOrderMultiset(s: seq<Product>, cat: CatalogSnapshot, req: SearchRequest, scope: Scope)
    ensures multiset(JoinOrder(s, cat, req, scope)) == multiset(s)
  {
  }

  /** A product is a candidate exactly when it is a catalog product meeting every criterion. */
  lemma CandidatesMembers(cat: CatalogSnapshot, env: Environment, req: SearchRequest,
                          categories: Option<seq<int>>, manufacturers: Option<seq<int>>, p: Product)
    ensures p in Candidates(cat, env, req, categories, manufacturers) <==>
              p in cat.Products && Admitted(p, cat, env, req, SearchScope(cat, env, req, categories, manufacturers))
  {
    var scope := SearchScope(cat, env, req, categories, manufacturers);
    var admitted := Filter(cat.Products, Stage(9, cat, env, req, scope));
    JoinOrderMultiset(admitted, cat, req, scope);
    assert p in Candidates(cat, env, req, categories, manufacturers) <==> p in multiset(admitted);
    FilterMembers(cat.Products, Stage(9, cat, env, req, scope), p);
  }

  /** The search returns every admitted catalog product and nothing else, with the in-stock
      group first exactly when the box is checked. */
  lemma SearchResultMembers(cat: CatalogSnapshot, env: Environment, req: SearchRequest,
                            categories: Option<seq<int>>, manufacturers: Option<seq<int>>,
                            preordered: bool, p: Product)
    ensures var r := ProductOrdering.OrderBy(Candidates(cat, env, req, categories, manufacturers),
                                             cat.LocalizedProperties, env.WorkingLanguageId, req.OrderBy,
                                             preordered, req.IsBoxChecked);
            && (p in r <==> p in cat.Products
                            && Admitted(p, cat, env, req, SearchScope(cat, env, req, categories, manufacturers)))
            && ProductOrdering.StockGrouped(r, req.IsBoxChecked)
  {
    var c := Candidates(cat, env, req, categories, manufacturers);
    CandidatesMembers(cat, env, req, categories, manufacturers, p);
    ProductOrdering.OrderByMembers(c, cat.LocalizedProperties, env.WorkingLanguageId, req.OrderBy, preordered, req.IsBoxChecked);
    ProductOrdering.OrderByStockGrouped(c, cat.LocalizedProperties, env.WorkingLanguageId, req.OrderBy, preordered, req.IsBoxChecked);
  }

  /** With at most one localized name per product and language when sorting by name, the
      search returns each admitted catalog row as often as the catalog holds it, so a catalog
      without repeated rows gives a result without repeated products. */
  lemma SearchResultCounts(cat: CatalogSnapshot, env: Environment, req: SearchRequest,
                           categories: Option<seq<int>>, manufacturers: Option<seq<int>>, preordered: bool)
    requires (req.OrderBy == NameAsc || req.OrderBy == NameDesc) ==>
               ProductOrdering.UniqueNameOverrides(cat.LocalizedProperties, env.WorkingLanguageId)
    ensures var scope := SearchScope(cat, env, req, categories, manufacturers);
            var r := ProductOrdering.OrderBy(Candidates(cat, env, req, categories, manufacturers),
                                             cat.LocalizedProperties, env.WorkingLanguageId, req.OrderBy,
                                             preordered, req.IsBoxChecked);
            && multiset(r) == multiset(Filter(cat.Products, Stage(9, cat, env, req, scope)))
            && ((forall x :: multiset(cat.Products)[x] <= 1) ==> forall x :: multiset(r)[x] <= 1)
  {
    var scope := SearchScope(cat, env, req, categories, manufacturers);
    var admitted := Filter(cat.Products, Stage(9, cat, env, req, scope));
    var c := Candidates(cat, env, req, categories, manufacturers);
    JoinOrderMultiset(admitted, cat, req, scope);
    ProductOrdering.OrderByPermutation(c, cat.LocalizedProperties, env.WorkingLanguageId, req.OrderBy, preordered, req.IsBoxChecked);
    FilterSubMultiset(cat.Products, Stage(9, cat, env, req, scope));
  }

  /** A category or manufacturer list `[0]` or `[]` gives the same search as no list, whether
      or not one list object serves for both. */
  lemma ZeroListMeansNoList(cat: CatalogSnapshot, env: Environment, req: SearchRequest, shared: bool,
                            categories: Option<seq<int>>, manufacturers: Option<seq<int>>)
    ensures Candidates(cat, env, req, CategoryConstraint(Some([0]), shared), manufacturers)
         == Candidates(cat, env, req, CategoryConstraint(None, shared), manufacturers)
    ensures Candidates(cat, env, req, CategoryConstraint(Some([]), shared), manufacturers)
         == Candidates(cat, env, req, CategoryConstraint(None, shared), manufacturers)
    ensures Candidates(cat, env, req, categories, ManufacturerConstraint(Some([0]), shared))
         == Candidates(cat, env, req, categories, ManufacturerConstraint(None, shared))
    ensures Candidates(cat, env, req, categories, ManufacturerConstraint(Some([]), shared))
         == Candidates(cat, env, req, categories, ManufacturerConstraint(None, shared))
  {
    ZeroOnlyMeansNoConstraint(shared);
  }

  /** A category join that matches no ids selects nothing. */
  lemma EmptyCategoryJoinSelectsNothing(cat: CatalogSnapshot, env: Environment, req: SearchRequest,
                                        manufacturers: Option<seq<int>>)
    ensures Candidates(cat, env, req, Some([]), manufacturers) == []
  {
    var scope := SearchScope(cat, env, req, Some([]), manufacturers);
    forall p | p in cat.Products ensures !Stage(9, cat, env, req, scope)(p) {
      AdmittedMeans(p, cat, env, req, scope);
    }
    FilterNone(cat.Products, Stage(9, cat, env, req, scope));
  }

  /** One list object `[0, 0]` passed for both categories and manufacturers finds nothing: the
      category step still sees a `0` and adds its join, which matches the list as the
      manufacturer step leaves it, empty. */
  lemma SharedDoubleZeroFindsNothing(cat: CatalogSnapshot, env: Environment, req: SearchRequest)
    ensures Candidates(cat, env, req, CategoryConstraint(Some([0, 0]), true), ManufacturerConstraint(Some([0, 0]), true)) == []
  {
    SharedListReadLate();
    EmptyCategoryJoinSelectsNothing(cat, env, req, None);
  }
}
