/**
 * The catalog: one record per product row, and the lookups that resolve a query
 * (an asin, a title fragment, a category) to row positions.
 */
module Catalog {
  import opened Wrappers
  import opened Text

  /** The image URL given to rows without one. */
  const Placeholder: string := "https://via.placeholder.com/300x200?text=No+Image"

  /**
   * One product row. Every optional attribute is `None` when its column is
   * missing from the catalog or its cell is empty.
   */
  datatype Item = Item(
    asin: string,
    title: string,
    description: Option<string>,
    categoryId: Option<string>,
    categoryName: Option<string>,
    price: Option<real>,
    stars: Option<real>,
    numReviews: Option<int>,
    isBestSeller: Option<bool>,
    boughtInLastMonth: Option<int>,
    imgUrl: Option<string>)

  /** A row as the explainer sees it: its attributes and, for a recommended row, its score. */
  datatype Product = Product(item: Item, similarityScore: Option<real>)

  /** The row with its image URL defaulted to the placeholder. */
  function WithImage(item: Item): (r: Item)
    ensures r.imgUrl.Some?
    ensures item.imgUrl.Some? ==> r == item
    ensures item.imgUrl.None? ==> r.imgUrl == Some(Placeholder)
    ensures r.(imgUrl := item.imgUrl) == item
  {
    if item.imgUrl.Some? then item else item.(imgUrl := Some(Placeholder))
  }

  /** The first position at or after `from` whose row satisfies `p`. */
  function FirstMatch(rows: seq<Item>, p: Item -> bool, from: nat): (r: Option<nat>)
    ensures r.Some? ==> from <= r.value < |rows| && p(rows[r.value])
    ensures r.Some? ==> forall j :: from <= j < r.value ==> !p(rows[j])
    ensures r.None? ==> forall j :: from <= j < |rows| ==> !p(rows[j])
    decreases |rows| - from
  {
    if from >= |rows| then None
    else if p(rows[from]) then Some(from)
    else FirstMatch(rows, p, from + 1)
  }

  /** `data[data['asin'] == asin].iloc[0]`: the first row carrying `asin`, or `None`. */
  function FindByAsin(rows: seq<Item>, asin: string): (r: Option<nat>)
    ensures r.Some? ==> r.value < |rows| && rows[r.value].asin == asin
    ensures r.Some? ==> forall j :: 0 <= j < r.value ==> rows[j].asin != asin
    ensures r.None? <==> forall j :: 0 <= j < |rows| ==> rows[j].asin != asin
  {
    FirstMatch(rows, (x: Item) => x.asin == asin, 0)
  }

  /** The title lookup's row test: the fragment occurs in the title, ignoring case. */
  predicate TitleMatches(item: Item, fragment: string) {
    ContainsIgnoringCase(item.title, fragment)
  }

  /** The first row whose title contains `fragment` ignoring case, or `None`. */
  function FindByTitle(rows: seq<Item>, fragment: string): (r: Option<nat>)
    ensures r.Some? ==> r.value < |rows| && TitleMatches(rows[r.value], fragment)
    ensures r.Some? ==> forall j :: 0 <= j < r.value ==> !TitleMatches(rows[j], fragment)
    ensures r.None? <==> forall j :: 0 <= j < |rows| ==> !TitleMatches(rows[j], fragment)
  {
    FirstMatch(rows, (x: Item) => TitleMatches(x, fragment), 0)
  }

  /** An empty fragment occurs in every title, so it selects the first row of any non-empty catalog. */
  lemma EmptyFragmentFindsFirstRow(rows: seq<Item>)
    requires rows != []
    ensures FindByTitle(rows, "") == Some(0)
  {
    assert Lower("") <= Lower(rows[0].title)[0..];
  }

  /** No two rows share an asin. */
  predicate UniqueAsins(rows: seq<Item>) {
    forall i, j :: 0 <= i < j < |rows| ==> rows[i].asin != rows[j].asin
  }

  /** With unique asins, looking up the asin of row `k` finds row `k` again. */
  lemma FindOwnAsin(rows: seq<Item>, k: nat)
    requires UniqueAsins(rows) && k < |rows|
    ensures FindByAsin(rows, rows[k].asin) == Some(k)
  {
  }

  /** Positions, from `from` on and in catalog order, of the rows whose `category_id` is `cat`. */
  function CategoryPositions(rows: seq<Item>, cat: Option<string>, from: nat): (r: seq<nat>)
    ensures forall k :: 0 <= k < |r| ==> from <= r[k] < |rows| && rows[r[k]].categoryId == cat
    ensures forall k, m :: 0 <= k < m < |r| ==> r[k] < r[m]
    ensures forall j :: from <= j < |rows| && rows[j].categoryId == cat ==> j in r
    decreases |rows| - from
  {
    if from >= |rows| then []
    else if rows[from].categoryId == cat then [from] + CategoryPositions(rows, cat, from + 1)
    else CategoryPositions(rows, cat, from + 1)
  }
}
