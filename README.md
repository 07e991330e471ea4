# Product stock plugin: product search and stock-aware sorting

This project is a Dafny model of the product search in the nopCommerce "Product Stock" widget plugin. The plugin replaces the catalog's product search in two ways. It narrows the catalog criterion by criterion, as the stock search does. It also orders the result so that in-stock products (`StockQuantity > 0`) come first when the shopper ticks the "in stock first" box (`isBoxChecked`), and out-of-stock products (`StockQuantity <= 0`) come first otherwise.

The project has four modules.

- `Sequences` (`sequences.dfy`) holds the sequence toolkit the model is written in:
  - a stable insertion sort over a comparator, which models LINQ `OrderBy`;
  - `Filter`, which models `Where`;
  - lemmas about sortedness, permutation and how filtering commutes with sorting.
- `Catalog` (`catalog.dfy`) holds the catalog records:
  - the product and the tables the search joins against: localized properties, category, manufacturer and tag mappings, warehouse inventory, attribute combinations and specification attributes;
  - the sort rules;
  - a `CatalogSnapshot` of all tables.
- `ProductOrdering` (`ordering.dfy`) is the stock-aware sorter of `ExtendedProductExtensions.cs`:
  - the name path: a left join with the localized names, a sort by name, then the stock split;
  - the generic path: the stock split, a primary sort per group, and an extra sort by stock quantity when the box is checked;
  - `ConcatQueries`, which puts the two groups together in the order the flag asks for.
- `ProductFilters` (`filters.dfy`) and `ProductSearch` (`search.dfy`) are `SearchProductsAsync` of `ExtendedProductService.cs`:
  - the per-criterion predicates and the keyword candidate set;
  - the `searchLocalizedValue` flag and the page-size clamp;
  - a `SearchProducts` method that narrows the catalog stage by stage;
  - the caller's category and manufacturer lists, which are `IdList` objects whose first `0` the search removes in place;
  - the deferred execution of the query: each step decides whether to add its category or manufacturer join, but the join reads the list only when the query runs, so a list object passed for both is matched after both removals;
  - a loop over the distinct specification attributes.

`SearchProducts` is proved against a specification function, `Candidates`: one filter by the conjunction of all criteria, followed by the orderings that the category and manufacturer joins impose. The properties of the search are proved about `Candidates` and the sorter's `OrderBy`.

Some inputs of the source become values the caller passes in:

- the current time;
- the store-mapping and ACL services, as sets of admitted ids per entity kind;
- the search plugin's answer, if there is one;
- the language list, the working language and the catalog settings;
- whether the query handed to the sorter is already ordered. This is the `Position when query is IOrderedQueryable` case, and it is a property of the query object.

## Model

| member | source | states |
|---|---|---|
| ProductFilters.ClampPageSize | Nop.Plugin.Widgets.ProductStock/Services/Catalog/ExtendedProductService.cs:102-104 | the page size handed to the pager is never `int.MaxValue`; any other value passes through unchanged, and `int.MaxValue` loses exactly one |
| ProductFilters.SearchLocalizedValue | Nop.Plugin.Widgets.ProductStock/Services/Catalog/ExtendedProductService.cs:150-153 | localized values are searched exactly when a language id was given, at least two languages exist, and either hidden records are shown or two distinct languages are published |
| ProductFilters.TwoPublished | Nop.Plugin.Widgets.ProductStock/Services/Catalog/ExtendedProductService.cs:153 | counting at least two published languages is the same as finding two distinct published languages in the list |
| ProductFilters.BuiltInMatchIsCandidate | Nop.Plugin.Widgets.ProductStock/Services/Catalog/ExtendedProductService.cs:164-171 | without a search plugin, a catalog product whose name contains the keywords (or descriptions, MPN or SKU when enabled) is a keyword candidate |
| ProductFilters.ExactNameIsCandidate | Nop.Plugin.Widgets.ProductStock/Services/Catalog/ExtendedProductService.cs:164-171 | without a search plugin, a catalog product named exactly the keywords is a keyword candidate |
| ProductFilters.CombinationSkuIsCandidate | Nop.Plugin.Widgets.ProductStock/Services/Catalog/ExtendedProductService.cs:189-196 | with SKU search on, the product of an attribute combination whose SKU equals the keywords is a candidate, even when a search plugin supplied the base set |
| ProductFilters.BuiltInCandidatesExact | Nop.Plugin.Widgets.ProductStock/Services/Catalog/ExtendedProductService.cs:164-196 | with no plugin and no localized, category, manufacturer or tag search, an id is a candidate exactly when a catalog product with that id matches the built-in rule or an attribute combination with that SKU belongs to it |
| ProductFilters.ProviderReplacesBuiltIn | Nop.Plugin.Widgets.ProductStock/Services/Catalog/ExtendedProductService.cs:156-161 | when a search plugin is active and no other source is enabled, the candidates are exactly the ids the plugin returns for the keywords and the localized-search flag |
| ProductFilters.IndexOf | Nop.Plugin.Widgets.ProductStock/Services/Catalog/ExtendedProductService.cs:300-301 | the index found holds `x` and is the first occurrence of `x` |
| ProductFilters.RemoveFirst | Nop.Plugin.Widgets.ProductStock/Services/Catalog/ExtendedProductService.cs:300-301 | `List.Remove`: a list without `x` is unchanged; otherwise the list is one shorter, has lost exactly one copy of `x`, and keeps every other element in order: what precedes the first `x` stays, what follows it moves up one place |
| ProductFilters.ShortAfterRemoval | Nop.Plugin.Widgets.ProductStock/Services/Catalog/ExtendedProductService.cs:300-303 | removing the first `0` leaves an empty list exactly for `[]` and `[0]`, and leaves `[0]` exactly for `[0, 0]` |
| ProductFilters.EffectiveIds | Nop.Plugin.Widgets.ProductStock/Services/Catalog/ExtendedProductService.cs:298-303 | a list adds no join exactly when it is absent, empty or `[0]`; otherwise the join matches the list with its first `0` removed, a sub-multiset of the caller's list; a non-empty list without `0` matches as given |
| ProductFilters.CategoryConstraint | Nop.Plugin.Widgets.ProductStock/Services/Catalog/ExtendedProductService.cs:298-322 | the category step adds its join exactly when the list is given and not `[]` or `[0]`; the join matches the list with its first `0` removed, or, when the same list object is also the manufacturer list, with its first two `0`s removed, because the join reads the list only when the query runs (`:383`) |
| ProductFilters.ManufacturerConstraint | Nop.Plugin.Widgets.ProductStock/Services/Catalog/ExtendedProductService.cs:324-348 | the manufacturer step on its own list matches as `EffectiveIds`; on a list shared with the category step it sees the list after the category step's removal, so it adds a join exactly when the list is not `[]`, `[0]` or `[0, 0]`, and that join matches the list with two `0`s removed |
| ProductFilters.ZeroOnlyMeansNoConstraint | Nop.Plugin.Widgets.ProductStock/Services/Catalog/ExtendedProductService.cs:298-303 | a list `[0]`, an empty list and no list add no category or manufacturer join, whether or not one list object serves for both |
| ProductFilters.DoubleZeroConstrainsToZero | Nop.Plugin.Widgets.ProductStock/Services/Catalog/ExtendedProductService.cs:300-303 | because only the first `0` is removed, an unshared `[0, 0]` still constrains the search to id `0` |
| ProductFilters.SharedListReadLate | Nop.Plugin.Widgets.ProductStock/Services/Catalog/ExtendedProductService.cs:298-348 | worked case of one list object for both: `[0, 0, 5]` makes both joins match `[5]`, where an unshared list would match `[0, 5]`; `[0, 0]` adds a category join that matches nothing and no manufacturer join |
| ProductFilters.DistinctAttributeIds | Nop.Plugin.Widgets.ProductStock/Services/Catalog/ExtendedProductService.cs:361-363 | the attribute ids looped over are exactly the attributes of the filtered options, each once |
| ProductFilters.SpecOptionsByAttribute | Nop.Plugin.Widgets.ProductStock/Services/Catalog/ExtendedProductService.cs:359-381 | a product passes the specification options exactly when, for every attribute among the options, it has a filterable mapping to one of that attribute's options (OR within an attribute, AND across attributes), so an empty option list admits every product |
| ProductFilters.SpecOptionsExample | Nop.Plugin.Widgets.ProductStock/Services/Catalog/ExtendedProductService.cs:365-380 | worked case with options 10 and 11 of attribute 1 and option 20 of attribute 2: mappings to 10 and 20 pass; 10 and 11 fail, as nothing matches attribute 2; a mapping to 20 that does not allow filtering does not count |
| ProductSearch.IdList.Remove | Nop.Plugin.Widgets.ProductStock/Services/Catalog/ExtendedProductService.cs:300-301 | the caller's list loses its first occurrence of `x` and nothing else |
| ProductSearch.NarrowByRowAndKeywords | Nop.Plugin.Widgets.ProductStock/Services/Catalog/ExtendedProductService.cs:106-296 | the published rule, store mapping, ACL, row criteria and keyword join, applied one by one, keep exactly the catalog products that meet the first five criteria, in catalog order |
| ProductSearch.RemoveZero | Nop.Plugin.Widgets.ProductStock/Services/Catalog/ExtendedProductService.cs:298-303 | the category step, and likewise the manufacturer step (`:324-329`): a given list loses its first `0` in place, and the step adds its join exactly when the list is given and not empty afterwards |
| ProductSearch.EditIdLists | Nop.Plugin.Widgets.ProductStock/Services/Catalog/ExtendedProductService.cs:298-348 | the lists are edited as `SearchProducts` states, and the joins added match `CategoryConstraint` and `ManufacturerConstraint` of the caller's lists, that is, the lists as they stand once both steps have run, when the query runs (`:383`) |
| ProductSearch.NarrowBySpecOptions | Nop.Plugin.Widgets.ProductStock/Services/Catalog/ExtendedProductService.cs:359-381 | narrowing once per distinct attribute keeps exactly the products that pass the specification-option criterion, in their order |
| ProductSearch.SearchProducts | Nop.Plugin.Widgets.ProductStock/Services/Catalog/ExtendedProductService.cs:100-384 | the page size is clamped; each given id list loses its first `0`, and a list object passed for both loses its first two; the result is the stock-aware ordering, in the working language, of the candidates whose category and manufacturer joins are decided at their own steps but match the lists as they stand when the query runs (`CategoryConstraint`, `ManufacturerConstraint`) |
| ProductSearch.AdmittedMeans | Nop.Plugin.Widgets.ProductStock/Services/Catalog/ExtendedProductService.cs:108-381 | a product is admitted exactly when it passes every criterion, each with the condition under which the source applies it |
| ProductSearch.AdmittedMeetsCriteria | Nop.Plugin.Widgets.ProductStock/Services/Catalog/ExtendedProductService.cs:108-146 | an admitted product obeys the published rule, is not deleted, has the vendor, type, visibility and warehouse asked for, has its price within the inclusive bounds and, unless hidden records are shown, is inside its availability window |
| ProductSearch.JoinOrderMultiset | Nop.Plugin.Widgets.ProductStock/Services/Catalog/ExtendedProductService.cs:316-320 | the category and manufacturer orderings only reorder the products |
| ProductSearch.CandidatesMembers | Nop.Plugin.Widgets.ProductStock/Services/Catalog/ExtendedProductService.cs:106-381 | a product is a candidate exactly when it is a catalog product that meets every criterion |
| ProductSearch.SearchResultMembers | Nop.Plugin.Widgets.ProductStock/Services/Catalog/ExtendedProductService.cs:383 | the search returns every admitted catalog product and nothing else, in-stock first exactly when the box is checked |
| ProductSearch.SearchResultCounts | Nop.Plugin.Widgets.ProductStock/Services/Catalog/ExtendedProductService.cs:106-383 | with at most one name override per product when sorting by name, the result of the search and the stock-aware sorter holds each admitted catalog row exactly as often as the catalog does, so a catalog without repeated products gives a result without repeated products |
| ProductSearch.ZeroListMeansNoList | Nop.Plugin.Widgets.ProductStock/Services/Catalog/ExtendedProductService.cs:298-348 | a category or manufacturer list `[0]` or `[]` gives the same result as no list, shared or not |
| ProductSearch.EmptyCategoryJoinSelectsNothing | Nop.Plugin.Widgets.ProductStock/Services/Catalog/ExtendedProductService.cs:303-320 | a category join whose id list is empty when the query runs selects no product |
| ProductSearch.SharedDoubleZeroFindsNothing | Nop.Plugin.Widgets.ProductStock/Services/Catalog/ExtendedProductService.cs:298-348 | one list object `[0, 0]` passed for both categories and manufacturers makes the search find nothing: the category step still adds its join, and that join reads the list after the manufacturer step has emptied it |
| ProductOrdering.ComparatorsArePreorders | Nop.Plugin.Widgets.ProductStock/Services/Catalog/ExtendedProductExtensions.cs:94-104 | the price, creation-date, display-order-then-id and stock-quantity orderings are total preorders |
| ProductOrdering.NameOrdersArePreorders | Nop.Plugin.Widgets.ProductStock/Services/Catalog/ExtendedProductExtensions.cs:59-66 | ascending and descending sort-name order are total preorders |
| ProductOrdering.NameRows | Nop.Plugin.Widgets.ProductStock/Services/Catalog/ExtendedProductExtensions.cs:36-57 | the left join gives every product at least one row, and all its rows carry that product |
| ProductOrdering.SortNameKey | Nop.Plugin.Widgets.ProductStock/Services/Catalog/ExtendedProductExtensions.cs:36-57 | the sort name is the product's own name when no localized `Product`/`Name` value exists for it in the language; with one such value, it is that value |
| ProductOrdering.JoinUnique | Nop.Plugin.Widgets.ProductStock/Services/Catalog/ExtendedProductExtensions.cs:36-57 | with at most one name override per product and language, the join gives one row per product, in order, carrying its sort name |
| ProductOrdering.ConcatGroups | Nop.Plugin.Widgets.ProductStock/Services/Catalog/ExtendedProductExtensions.cs:117-124 | joining an in-stock and an out-of-stock group puts the in-stock group first exactly when the flag is set, and each group can be split off again unchanged |
| ProductOrdering.OrderByStockGrouped | Nop.Plugin.Widgets.ProductStock/Services/Catalog/ExtendedProductExtensions.cs:25-75 | on both paths, every in-stock product precedes every out-of-stock product when the flag is set, and follows it otherwise |
| ProductOrdering.OrderByPermutation | Nop.Plugin.Widgets.ProductStock/Services/Catalog/ExtendedProductExtensions.cs:25-75 | the output is a permutation of the input (on the name path, given at most one name override per product) |
| ProductOrdering.OrderByMembers | Nop.Plugin.Widgets.ProductStock/Services/Catalog/ExtendedProductExtensions.cs:25-75 | the output holds exactly the input's products, on both paths and whatever the localized names |
| ProductOrdering.OrderByNamePartitionFirst | Nop.Plugin.Widgets.ProductStock/Services/Catalog/ExtendedProductExtensions.cs:59-71 | sorting by name and then splitting equals splitting and then sorting each group by name |
| ProductOrdering.SortByNameSorted | Nop.Plugin.Widgets.ProductStock/Services/Catalog/ExtendedProductExtensions.cs:36-66 | the name sort leaves the products in sort-name order, ascending or descending |
| ProductOrdering.OrderByNameSorted | Nop.Plugin.Widgets.ProductStock/Services/Catalog/ExtendedProductExtensions.cs:59-71 | on the name path each stock group is in sort-name order, whatever the flag: no stock re-sort happens |
| ProductOrdering.OrderByPrimarySorted | Nop.Plugin.Widgets.ProductStock/Services/Catalog/ExtendedProductExtensions.cs:89-99 | with the flag clear, each group is sorted by price ascending, price descending or newest first; `Position` on an ordered input keeps the input order per group; otherwise, and for any other rule, display order then id |
| ProductOrdering.OrderByStockSorted | Nop.Plugin.Widgets.ProductStock/Services/Catalog/ExtendedProductExtensions.cs:102-105 | on the generic path with the flag set, each group ends non-increasing in stock quantity |
| ProductOrdering.OrderByOneGroup | Nop.Plugin.Widgets.ProductStock/Services/Catalog/ExtendedProductExtensions.cs:117-143 | an empty input gives an empty output; an input wholly on one side of the split comes out as that group, ordered |
| ProductOrdering.OrderByIdempotent | Nop.Plugin.Widgets.ProductStock/Services/Catalog/ExtendedProductExtensions.cs:25-75 | ordering an ordered result again with the same rule and flag changes nothing |
| ProductOrdering.PriceAscExample | Nop.Plugin.Widgets.ProductStock/Services/Catalog/ExtendedProductExtensions.cs:133-143 | worked case: A (stock 5, price 10), B (stock 0, price 5), C (stock 3, price 20) by price give [A, C, B] with the flag and [B, A, C] without |
| ProductOrdering.StockOrderOverridesPrice | Nop.Plugin.Widgets.ProductStock/Services/Catalog/ExtendedProductExtensions.cs:102-105 | with the flag set, the stock sort applied last breaks the price order within a group: A (price 5, stock 3), C (price 10, stock 7) give [C, A] |
| ProductOrdering.DuplicateOverridesRepeatProduct | Nop.Plugin.Widgets.ProductStock/Services/Catalog/ExtendedProductExtensions.cs:36-57 | two localized names for one product in the language make the name path list that product twice |
| Sequences.Sort | Nop.Plugin.Widgets.ProductStock/Services/Catalog/ExtendedProductExtensions.cs:94-98 | sorting a group only reorders it |
| Sequences.SortSorted | Nop.Plugin.Widgets.ProductStock/Services/Catalog/ExtendedProductExtensions.cs:94-104 | under a total preorder, the sort leaves its output in that order |
| Sequences.FilterSort | Nop.Plugin.Widgets.ProductStock/Services/Catalog/ExtendedProductExtensions.cs:68-69 | filtering a stably sorted sequence equals stably sorting the filtered sequence |
| Sequences.FilterComplement | Nop.Plugin.Widgets.ProductStock/Services/Catalog/ExtendedProductExtensions.cs:135-136 | for complementary predicates such as `> 0` and `<= 0`, the two filtered parts together are a permutation of the sequence: the split covers every product exactly once |

## Left out

- Pagination. `ToPagedListAsync` (`ExtendedProductService.cs:383`) is outside the model. The search returns the whole ordered sequence and the clamped page size.
- Async, `Task`, database round-trips, and the translation of LINQ to SQL.
- `DateTime.UtcNow` is the `Now` field of the environment. `DateTime.MinValue` and `MaxValue` as defaults are modelled as an absent bound (`Option`).
- `decimal` prices are modelled as `int`, which is exact as `decimal` is. Dates are integers.
- String comparison is ordinal. `Contains` is a plain substring test. Database collation and case rules are not modelled.
- Sort stability. LINQ-to-SQL leaves the order of ties unspecified, but the model's sort is stable. No contract relies on tie order, except where the same sort is compared with itself: `FilterSort`, `OrderByNamePartitionFirst` and the idempotence lemmas.
- Store mapping and ACL (`ApplyStoreMapping`, `ApplyAcl`) are given sets of admitted ids per entity kind. How the store-mapping and ACL services decide is not modelled.
- The search plugin (`ExtendedProductService.cs:156-161`) is a given set of product ids. Its own search is not modelled.
- The current customer, the language list, the working language and the catalog settings are given values.
- Duplicate join rows:
  - The keyword join (`:292-295`) is a membership test, because the candidate ids are a set and SQL `UNION` removes duplicates.
  - The tag join (`:350-357`) is a membership test too. A product with two mapping rows to the same tag would appear twice in the source's result.
  - The category and manufacturer joins join against one row per product (`group by`), so they add no duplicate rows.
- MappingDisplayOrder takes the display order of a product's first qualifying mapping in table order. The source's `pc.First()` and `pm.First()` over a SQL group (`ExtendedProductService.cs:313`, `:339`) leave open which row that is. The join order, and with it `Candidates` and the `Position` order of a pre-ordered query, rests on this choice when a product has several qualifying mappings with different display orders. Membership and counts do not depend on it.
- The widget registration, view component, factory interface, dependency-injection wiring and the service constructor carry no search or ordering logic.
- OrderByPermutation assumes at most one localized `Product`/`Name` value per product and language on the name path. With two or more, the left join repeats the product (see `DuplicateOverridesRepeatProduct`), and only membership (`OrderByMembers`) holds.
- SortByNameSorted assumes at most one name override per product and language, as `OrderByPermutation` does.
- OrderByNameSorted assumes at most one name override per product and language, as `OrderByPermutation` does.
- OrderByIdempotent is proved for the name path and for the generic path with the flag clear. With the flag set on the generic path, the model's stable stock sort keeps products with equal stock in their primary order, but the source and its query provider promise no order among such ties. Idempotence there would rest only on the model's choice of tie order, so that case is not claimed.
- OrderByStockSorted does not claim that the primary key survives among products with equal stock quantity. The query provider makes the last `OrderBy` dominant and does not promise it.
- OrderByPrimarySorted takes `preordered` as an input. Whether `query is IOrderedQueryable` holds is a property of the runtime query object.
