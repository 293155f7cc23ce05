/**
 * Product enrichment: the products table is left-merged with the
 * translation table on the raw category name and every merged row is
 * labelled with the mapper's normalised category. Reading the CSV files is
 * not modelled: the loader is given the two tables it would have read.
 */
module DataLoader {
  import opened Wrappers
  import opened CategoryMapper

  /** A row of the products table: product_id, product_category_name. */
  datatype Product = Product(productId: string, categoryName: Option<string>)

  /** A row of products left-merged with translations: the product plus product_category_name_english. */
  datatype MergedProduct = MergedProduct(productId: string, categoryName: Option<string>, english: Option<string>)

  /** A merged row with its normalized_category column. */
  datatype EnrichedProduct =
    EnrichedProduct(productId: string, categoryName: Option<string>, english: Option<string>, normalized: string)

  /**
   * The translation rows whose name equals `name`, in table order. A pandas
   * merge pairs null keys with each other, so a null name selects the rows
   * whose name is null.
   */
  function TranslationsNamed(cats: seq<CategoryTranslation>, name: Option<string>): seq<CategoryTranslation>
  {
    if cats == [] then []
    else (if cats[0].name == name then [cats[0]] else []) + TranslationsNamed(cats[1..], name)
  }

  /** The rows one product contributes to the left merge: one per matching translation, or one with no translation. */
  function MergeProduct(p: Product, cats: seq<CategoryTranslation>): seq<MergedProduct>
  {
    var ts := TranslationsNamed(cats, p.categoryName);
    if ts == [] then [MergedProduct(p.productId, p.categoryName, None)]
    else seq(|ts|, i requires 0 <= i < |ts| => MergedProduct(p.productId, p.categoryName, ts[i].english))
  }

  /** products.merge(categories, on='product_category_name', how='left') */
  function LeftMerge(products: seq<Product>, cats: seq<CategoryTranslation>): seq<MergedProduct>
  {
    if products == [] then [] else MergeProduct(products[0], cats) + LeftMerge(products[1..], cats)
  }

  /** The normalized_category column: the mapper's lookup of each row's raw category name. */
  function ApplyMapping(merged: seq<MergedProduct>, table: MappingTable): seq<EnrichedProduct>
  {
    seq(|merged|, i requires 0 <= i < |merged| =>
      EnrichedProduct(merged[i].productId, merged[i].categoryName, merged[i].english, Lookup(table, merged[i].categoryName)))
  }

  /** The table prepare_product_categories returns, once the mapper holds `table`. */
  function EnrichProducts(products: seq<Product>, cats: seq<CategoryTranslation>, table: MappingTable): seq<EnrichedProduct>
  {
    ApplyMapping(LeftMerge(products, cats), table)
  }

  /** The English translation of the first translation row with the given name, null when there is none. */
  function TranslationOf(cats: seq<CategoryTranslation>, name: Option<string>): Option<string>
  {
    if cats == [] then None
    else if cats[0].name == name then cats[0].english
    else TranslationOf(cats[1..], name)
  }

  ghost predicate UniqueNames(cats: seq<CategoryTranslation>)
  {
    forall i, j :: 0 <= i < j < |cats| ==> cats[i].name != cats[j].name
  }

  // ---------------------------------------------------------------------
  // Properties of the merge and of the labels
  // ---------------------------------------------------------------------

  lemma {:induction false} MergeProductNonEmpty(p: Product, cats: seq<CategoryTranslation>)
    ensures |MergeProduct(p, cats)| >= 1
    ensures forall k :: 0 <= k < |MergeProduct(p, cats)| ==>
              MergeProduct(p, cats)[k].productId == p.productId && MergeProduct(p, cats)[k].categoryName == p.categoryName
  {
  }

  /**
   * The left merge keeps every product: each product row reappears with its
   * id and raw category, and the merge has at least as many rows as there
   * are products.
   */
  lemma {:induction false} LeftMergeKeepsEveryProduct(products: seq<Product>, cats: seq<CategoryTranslation>)
    ensures |LeftMerge(products, cats)| >= |products|
    ensures forall i :: 0 <= i < |products| ==>
              exists k :: 0 <= k < |LeftMerge(products, cats)|
                && LeftMerge(products, cats)[k].productId == products[i].productId
                && LeftMerge(products, cats)[k].categoryName == products[i].categoryName
  {
    if products != [] {
      var head, rest := MergeProduct(products[0], cats), LeftMerge(products[1..], cats);
      var r := LeftMerge(products, cats);
      assert r == head + rest;
      MergeProductNonEmpty(products[0], cats);
      LeftMergeKeepsEveryProduct(products[1..], cats);
      forall i | 0 <= i < |products|
        ensures exists k :: 0 <= k < |r| && r[k].productId == products[i].productId
                  && r[k].categoryName == products[i].categoryName
      {
        if i == 0 {
          assert r[0] == head[0];
        } else {
          assert products[i] == products[1..][i - 1];
          var k :| 0 <= k < |rest| && rest[k].productId == products[i].productId
                   && rest[k].categoryName == products[i].categoryName;
          assert r[|head| + k] == rest[k];
        }
      }
    }
  }

  /** With unique names, a name selects at most one translation row, the one TranslationOf reads. */
  lemma {:induction false} TranslationsNamedUnique(cats: seq<CategoryTranslation>, name: Option<string>)
    requires UniqueNames(cats)
    ensures TranslationsNamed(cats, name) == [] <==> TranslationOf(cats, name).None? && !exists i :: 0 <= i < |cats| && cats[i].name == name
    ensures |TranslationsNamed(cats, name)| <= 1
    ensures |TranslationsNamed(cats, name)| == 1 ==> TranslationsNamed(cats, name)[0].english == TranslationOf(cats, name)
  {
    if cats != [] {
      assert UniqueNames(cats[1..]) by {
        forall i, j | 0 <= i < j < |cats| - 1 ensures cats[1..][i].name != cats[1..][j].name {
          assert cats[1..][i] == cats[i + 1] && cats[1..][j] == cats[j + 1];
        }
      }
      TranslationsNamedUnique(cats[1..], name);
      if cats[0].name == name {
        forall i | 0 <= i < |cats| - 1 ensures cats[1..][i].name != name {
          assert cats[1..][i] == cats[i + 1];
        }
        NoneNamed(cats[1..], name);
      } else {
        assert forall i :: 0 < i < |cats| ==> cats[i] == cats[1..][i - 1];
      }
    }
  }

  lemma {:induction false} NoneNamed(cats: seq<CategoryTranslation>, name: Option<string>)
    requires forall i :: 0 <= i < |cats| ==> cats[i].name != name
    ensures TranslationsNamed(cats, name) == []
  {
    if cats != [] {
      NoneNamed(cats[1..], name);
    }
  }

  /**
   * When the translation table has unique category names, the left merge has
   * exactly one row per product, in product order, carrying that product's
   * translation (null when its category has no translation row).
   */
  lemma {:induction false} LeftMergeOneRowPerProduct(products: seq<Product>, cats: seq<CategoryTranslation>)
    requires UniqueNames(cats)
    ensures |LeftMerge(products, cats)| == |products|
    ensures forall i :: 0 <= i < |products| ==>
              LeftMerge(products, cats)[i]
                == MergedProduct(products[i].productId, products[i].categoryName, TranslationOf(cats, products[i].categoryName))
  {
    if products != [] {
      var p := products[0];
      TranslationsNamedUnique(cats, p.categoryName);
      LeftMergeOneRowPerProduct(products[1..], cats);
      var r := LeftMerge(products, cats);
      assert r == [MergedProduct(p.productId, p.categoryName, TranslationOf(cats, p.categoryName))] + LeftMerge(products[1..], cats);
      assert forall i :: 0 < i < |products| ==> products[i] == products[1..][i - 1];
    }
  }

  /**
   * Every labelled row carries the mapper's lookup of its own raw category,
   * and a row whose raw category is null, or matches no mapping row, is
   * labelled "Unknown".
   */
  lemma {:induction false} EnrichedLabels(products: seq<Product>, cats: seq<CategoryTranslation>, table: MappingTable)
    ensures |EnrichProducts(products, cats, table)| == |LeftMerge(products, cats)|
    ensures forall k :: 0 <= k < |EnrichProducts(products, cats, table)| ==>
              var row := EnrichProducts(products, cats, table)[k];
              && row.normalized == Lookup(table, row.categoryName)
              && ((row.categoryName.None? || forall j :: 0 <= j < |table| ==> table[j].original != row.categoryName) ==>
                    row.normalized == UNKNOWN)
  {
  }

  /**
   * On a first run (the mapper builds its table from the same translation
   * table), a product's normalised category is "Unknown" for a null raw
   * category and otherwise the normalisation of the first translation of
   * that name, whatever repetitions the translation table holds; with unique
   * names that is the normalisation of the row's own merged English column.
   */
  lemma {:induction false} FirstRunLabels(products: seq<Product>, cats: seq<CategoryTranslation>)
    ensures forall k :: 0 <= k < |EnrichProducts(products, cats, BuildMapping(cats))| ==>
              var row := EnrichProducts(products, cats, BuildMapping(cats))[k];
              row.normalized == if row.categoryName.None? then UNKNOWN else Normalize(TranslationOf(cats, row.categoryName))
    ensures UniqueNames(cats) ==>
              forall k :: 0 <= k < |EnrichProducts(products, cats, BuildMapping(cats))| ==>
                var row := EnrichProducts(products, cats, BuildMapping(cats))[k];
                row.normalized == if row.categoryName.None? then UNKNOWN else Normalize(row.english)
  {
    var rows := EnrichProducts(products, cats, BuildMapping(cats));
    EnrichedLabels(products, cats, BuildMapping(cats));
    forall k | 0 <= k < |rows|
      ensures rows[k].normalized == if rows[k].categoryName.None? then UNKNOWN else Normalize(TranslationOf(cats, rows[k].categoryName))
    {
      var name := rows[k].categoryName;
      if name.Some? {
        LookupBuiltMapping(cats, name.value);
        FirstTranslation(cats, name.value);
        if i :| 0 <= i < |cats| && cats[i].name == name {
          var f := FirstNamed(cats, name.value, i);
          assert TranslationOf(cats, name) == cats[f].english;
        } else {
          assert TranslationOf(cats, name).None?;
        }
      }
    }
    if UniqueNames(cats) {
      LeftMergeOneRowPerProduct(products, cats);
    }
  }

  /** The first translation row named `name`, given that the row at `i` is one. */
  function FirstNamed(cats: seq<CategoryTranslation>, name: string, i: nat): (f: nat)
    requires i < |cats| && cats[i].name == Some(name)
    ensures f <= i && cats[f].name == Some(name) && NoNameBefore(cats, name, f)
  {
    if exists j :: 0 <= j < i && cats[j].name == Some(name) then
      var j :| 0 <= j < i && cats[j].name == Some(name);
      FirstNamed(cats, name, j)
    else i
  }

  /** TranslationOf reads the first row with the name, or gives null when there is none. */
  lemma {:induction false} FirstTranslation(cats: seq<CategoryTranslation>, name: string)
    ensures (forall i :: 0 <= i < |cats| ==> cats[i].name != Some(name)) ==> TranslationOf(cats, Some(name)).None?
    ensures forall i :: 0 <= i < |cats| && cats[i].name == Some(name) && NoNameBefore(cats, name, i) ==>
              TranslationOf(cats, Some(name)) == cats[i].english
  {
    if cats != [] {
      FirstTranslation(cats[1..], name);
      assert forall i :: 0 < i < |cats| ==> cats[i] == cats[1..][i - 1];
      forall i | 0 < i < |cats| && cats[i].name == Some(name) && NoNameBefore(cats, name, i)
        ensures NoNameBefore(cats[1..], name, i - 1)
      {
      }
    }
  }

  // ---------------------------------------------------------------------
  // The loader
  // ---------------------------------------------------------------------

  class Loader {
    /** The loader's category mapper. */
    const mapper: Mapper
    /** datasets['products'] and datasets['categories'], as load_data would have read them. */
    var products: seq<Product>
    var categories: seq<CategoryTranslation>

    constructor (products: seq<Product>, categories: seq<CategoryTranslation>, mappingFile: Option<MappingTable>)
      ensures fresh(mapper) && mapper.mapping == None && mapper.file == mappingFile
      ensures this.products == products && this.categories == categories
    {
      mapper := new Mapper(mappingFile);
      this.products := products;
      this.categories := categories;
    }

    /**
     * Builds (and saves) the mapping when no mapping file exists, loads it
     * otherwise, then returns the products left-merged with their
     * translations and labelled through the mapper.
     */
    method PrepareProductCategories() returns (rows: seq<EnrichedProduct>)
      modifies mapper
      ensures old(mapper.file).None? ==> mapper.mapping == Some(BuildMapping(categories)) && mapper.file == mapper.mapping
      ensures old(mapper.file).Some? ==> mapper.mapping == old(mapper.file) && mapper.file == old(mapper.file)
      ensures mapper.mapping.Some? && rows == EnrichProducts(products, categories, mapper.mapping.value)
    {
      if mapper.file.None? {
        mapper.CreateInitialMapping(categories);
      } else {
        var loaded := mapper.LoadMapping();
      }
      rows := ApplyMapping(LeftMerge(products, categories), mapper.mapping.value);
    }
  }
}
