/** The catalog records the product search reads, as immutable values, and the two text
    operations it needs: ordinal string order and substring search. */
module Catalog {

  datatype Option<+T> = None | Some(value: T)

  /** `int.MaxValue`, the largest 32-bit signed integer. */
  const IntMaxValue: int := 0x7fff_ffff

  /** A product row. Prices are exact decimals, modelled as integers of the smallest unit;
      timestamps are integers (ticks); an absent availability bound is `None`. */
  datatype Product = Product(
    Id: int,
    Name: string,
    ShortDescription: string,
    FullDescription: string,
    Sku: string,
    ManufacturerPartNumber: string,
    Price: int,
    StockQuantity: int,
    DisplayOrder: int,
    CreatedOnUtc: int,
    Published: bool,
    Deleted: bool,
    VisibleIndividually: bool,
    VendorId: int,
    WarehouseId: int,
    UseMultipleWarehouses: bool,
    ProductTypeId: int,
    AvailableStartDateTimeUtc: Option<int>,
    AvailableEndDateTimeUtc: Option<int>)

  /** A per-language override of one field of one entity. */
  datatype LocalizedProperty = LocalizedProperty(
    EntityId: int, LanguageId: int, LocaleKeyGroup: string, LocaleKey: string, LocaleValue: string)

  datatype Language = Language(Id: int, Published: bool)

  /** A category or a manufacturer: both are searched by name and filtered alike. */
  datatype CatalogEntity = CatalogEntity(Id: int, Name: string, Published: bool, Deleted: bool)

  /** A product-to-category or product-to-manufacturer mapping row. */
  datatype EntityMapping = EntityMapping(
    ProductId: int, EntityId: int, IsFeaturedProduct: bool, DisplayOrder: int)

  datatype ProductTag = ProductTag(Id: int, Name: string)

  datatype ProductTagMapping = ProductTagMapping(ProductId: int, ProductTagId: int)

  datatype ProductWarehouseInventory = ProductWarehouseInventory(ProductId: int, WarehouseId: int)

  datatype ProductAttributeCombination = ProductAttributeCombination(ProductId: int, Sku: string)

  datatype SpecificationAttributeOption = SpecificationAttributeOption(Id: int, SpecificationAttributeId: int)

  datatype ProductSpecificationAttribute = ProductSpecificationAttribute(
    ProductId: int, SpecificationAttributeOptionId: int, AllowFiltering: bool)

  /** The product sorting rules; `Unlisted` stands for any other value of the enumeration. */
  datatype SortRule = Position | NameAsc | NameDesc | PriceAsc | PriceDesc | CreatedOn | Unlisted

  /** The tables the search reads, as one snapshot taken at call time. */
  datatype CatalogSnapshot = CatalogSnapshot(
    Products: seq<Product>,
    Categories: seq<CatalogEntity>,
    Manufacturers: seq<CatalogEntity>,
    ProductCategories: seq<EntityMapping>,
    ProductManufacturers: seq<EntityMapping>,
    ProductTags: seq<ProductTag>,
    ProductTagMappings: seq<ProductTagMapping>,
    WarehouseInventory: seq<ProductWarehouseInventory>,
    AttributeCombinations: seq<ProductAttributeCombination>,
    ProductSpecificationAttributes: seq<ProductSpecificationAttribute>,
    LocalizedProperties: seq<LocalizedProperty>)

  /** Ordinal lexicographic order on strings; a proper prefix sorts first. */
  predicate StrLe(a: string, b: string) {
    a == [] || (b != [] && (a[0] < b[0] || (a[0] == b[0] && StrLe(a[1..], b[1..]))))
  }

  lemma {:induction false} StrLeTotal(a: string, b: string)
    ensures StrLe(a, b) || StrLe(b, a)
  {
    if a != [] && b != [] && a[0] == b[0] {
      StrLeTotal(a[1..], b[1..]);
    }
  }

  lemma {:induction false} StrLeTransitive(a: string, b: string, c: string)
    requires StrLe(a, b) && StrLe(b, c)
    ensures StrLe(a, c)
  {
    if a != [] && a[0] == b[0] && b[0] == c[0] {
      StrLeTransitive(a[1..], b[1..], c[1..]);
    }
  }

  /** `k` occurs in `s` as a contiguous piece (SQL `LIKE '%k%'` without collation rules). */
  predicate Contains(s: string, k: string) {
    exists i :: 0 <= i <= |s| && k <= s[i..]
  }
}
