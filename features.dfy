/**
 * The feature synthesiser of backend/content_based.py: one catalog row becomes the
 * space-separated token string that the TF-IDF vectoriser reads.
 */
module Features {
  import opened Wrappers
  import opened Text
  import opened Catalog

  /** Python's `int(x)` on a real: truncation toward zero. */
  function Trunc(x: real): (r: int)
    ensures x >= 0.0 ==> r >= 0 && r as real <= x < r as real + 1.0
    ensures x < 0.0 ==> r <= 0 && r as real - 1.0 < x <= r as real
  {
    if x >= 0.0 then x.Floor else -((-x).Floor)
  }

  /** The title, three times, to weight it over the synthetic tokens. */
  function TitleTokens(item: Item): seq<string> {
    [item.title, item.title, item.title]
  }

  /** `category_<id>` when the row has a category id. */
  function CategoryToken(categoryId: Option<string>): (r: seq<string>)
    ensures |r| == (if categoryId.Some? then 1 else 0)
  {
    if categoryId.Some? then ["category_" + categoryId.value] else []
  }

  /** The price bucket: one token exactly when a price is present, chosen by the thresholds 100 and 200. */
  function PriceToken(price: Option<real>): (r: seq<string>)
    ensures |r| == (if price.Some? then 1 else 0)
    ensures price.Some? ==> (r == ["budget_price"] <==> price.value < 100.0)
    ensures price.Some? ==> (r == ["mid_price"] <==> 100.0 <= price.value < 200.0)
    ensures price.Some? ==> (r == ["premium_price"] <==> 200.0 <= price.value)
  {
    match price
    case None => []
    case Some(p) =>
      if p < 100.0 then ["budget_price"]
      else if p < 200.0 then ["mid_price"]
      else ["premium_price"]
  }

  /** `rating_<int(stars)>_stars` when the row has a star rating. */
  function RatingToken(stars: Option<real>): (r: seq<string>)
    ensures |r| == (if stars.Some? then 1 else 0)
  {
    if stars.Some? then ["rating_" + IntToString(Trunc(stars.value)) + "_stars"] else []
  }

  /** The rating token carries the integer part of a non-negative star rating, as `int(stars)` does. */
  lemma RatingTokenText(s: real, d: nat)
    requires d as real <= s < d as real + 1.0
    ensures RatingToken(Some(s)) == ["rating_" + NatToString(d) + "_stars"]
  {
    assert Trunc(s) == d;
  }

  /** `bestseller` when the best-seller flag is set. */
  function BestsellerToken(isBestSeller: Option<bool>): (r: seq<string>)
    ensures r == [] || r == ["bestseller"]
    ensures r == ["bestseller"] <==> isBestSeller == Some(true)
  {
    if isBestSeller == Some(true) then ["bestseller"] else []
  }

  /** The popularity bucket: strict thresholds 1000, 500 and 100, and no token at or below 100. */
  function PopularityToken(bought: Option<int>): (r: seq<string>)
    ensures |r| <= 1
    ensures r == [] <==> bought.None? || bought.value <= 100
    ensures r == ["very_popular"] <==> bought.Some? && bought.value > 1000
    ensures r == ["popular"] <==> bought.Some? && 500 < bought.value <= 1000
    ensures r == ["moderately_popular"] <==> bought.Some? && 100 < bought.value <= 500
  {
    match bought
    case None => []
    case Some(n) =>
      if n > 1000 then ["very_popular"]
      else if n > 500 then ["popular"]
      else if n > 100 then ["moderately_popular"]
      else []
  }

  /** The tokens built from the row's attributes, after the title. */
  function SyntheticTokens(item: Item): seq<string> {
    CategoryToken(item.categoryId) + PriceToken(item.price) + RatingToken(item.stars)
    + BestsellerToken(item.isBestSeller) + PopularityToken(item.boughtInLastMonth)
  }

  /** Every fragment the synthesiser emits, in emission order, before blank ones are dropped. */
  function FeatureTokens(item: Item): seq<string> {
    TitleTokens(item) + SyntheticTokens(item)
  }

  /** The feature description: the non-blank fragments joined by single spaces. */
  function Description(item: Item): string {
    Join(KeepNonBlank(FeatureTokens(item)), " ")
  }

  /**
   * The fragments one token list after another, in the order the synthesiser appends
   * them; `CombineFeatures` checks its list against this flat form, which keeps its proof small.
   */
  lemma FeatureTokensInOrder(item: Item)
    ensures FeatureTokens(item) == TitleTokens(item) + CategoryToken(item.categoryId) + PriceToken(item.price)
      + RatingToken(item.stars) + BestsellerToken(item.isBestSeller) + PopularityToken(item.boughtInLastMonth)
  {
    var t, c, p := TitleTokens(item), CategoryToken(item.categoryId), PriceToken(item.price);
    var r, b, q := RatingToken(item.stars), BestsellerToken(item.isBestSeller), PopularityToken(item.boughtInLastMonth);
    assert t + c + p + r + b + q == t + (c + p + r + b + q);
  }

  /** `_combine_features`: builds the fragment list step by step and joins its non-blank members. */
  method CombineFeatures(item: Item) returns (description: string)
    ensures description == Description(item)
  {
    var features: seq<string> := [];
    features := features + [item.title, item.title, item.title];
    if item.categoryId.Some? {
      features := features + ["category_" + item.categoryId.value];
    }
    assert features == TitleTokens(item) + CategoryToken(item.categoryId);
    if item.price.Some? {
      var price := item.price.value;
      if price < 100.0 {
        features := features + ["budget_price"];
      } else if price < 200.0 {
        features := features + ["mid_price"];
      } else {
        features := features + ["premium_price"];
      }
    }
    assert features == TitleTokens(item) + CategoryToken(item.categoryId) + PriceToken(item.price);
    if item.stars.Some? {
      features := features + ["rating_" + IntToString(Trunc(item.stars.value)) + "_stars"];
    }
    if item.isBestSeller == Some(true) {
      features := features + ["bestseller"];
    }
    ghost var before := features;
    assert before == TitleTokens(item) + CategoryToken(item.categoryId) + PriceToken(item.price)
      + RatingToken(item.stars) + BestsellerToken(item.isBestSeller);
    if item.boughtInLastMonth.Some? {
      var bought := item.boughtInLastMonth.value;
      if bought > 1000 {
        features := features + ["very_popular"];
      } else if bought > 500 {
        features := features + ["popular"];
      } else if bought > 100 {
        features := features + ["moderately_popular"];
      }
    }
    assert features == before + PopularityToken(item.boughtInLastMonth);
    FeatureTokensInOrder(item);
    description := Join(KeepNonBlank(features), " ");
  }

  /** No synthetic token is blank, so the final join keeps all of them. */
  lemma SyntheticTokensKept(item: Item)
    ensures KeepNonBlank(SyntheticTokens(item)) == SyntheticTokens(item)
  {
    var s := SyntheticTokens(item);
    forall i | 0 <= i < |s| ensures HasNonSpace(s[i]) {
      assert !IsSpace(s[i][0]);
    }
    KeepAllNonBlank(s);
  }

  /** A list with no blank fragment passes the blank filter unchanged. */
  lemma {:induction false} KeepAllNonBlank(s: seq<string>)
    requires forall i :: 0 <= i < |s| ==> HasNonSpace(s[i])
    ensures KeepNonBlank(s) == s
  {
    if s != [] {
      KeepAllNonBlank(s[1..]);
    }
  }

  /**
   * The description begins with the title three times, separated by single spaces,
   * and anything after that is separated from it by a space.
   */
  lemma DescriptionStartsWithTitle(item: Item)
    requires HasNonSpace(item.title)
    ensures var head := item.title + " " + item.title + " " + item.title;
      var d := Description(item);
      |head| <= |d| && d[..|head|] == head && (|head| == |d| || d[|head|] == ' ')
  {
    var t := item.title;
    var syn := SyntheticTokens(item);
    KeepNonBlankAppend(TitleTokens(item), syn);
    KeepTitleTokens(t);
    SyntheticTokensKept(item);
    JoinThree(t, t, t, " ");
    if syn != [] {
      JoinAppend([t, t, t], syn, " ");
    } else {
      assert [t, t, t] + syn == [t, t, t];
    }
  }

  /** A row with no optional attribute is described by its thrice-repeated title alone (or by nothing if the title is blank). */
  lemma BareItemDescription(item: Item)
    requires item.categoryId.None? && item.price.None? && item.stars.None?
    requires item.isBestSeller != Some(true)
    requires item.boughtInLastMonth.None? || item.boughtInLastMonth.value <= 100
    ensures HasNonSpace(item.title) ==>
      Description(item) == item.title + " " + item.title + " " + item.title
    ensures !HasNonSpace(item.title) ==> Description(item) == ""
  {
    var t := item.title;
    assert SyntheticTokens(item) == [];
    assert FeatureTokens(item) == [t, t, t];
    KeepTitleTokens(t);
    JoinThree(t, t, t, " ");
  }

  /** The thrice-repeated title survives the blank filter exactly when it is not blank. */
  lemma KeepTitleTokens(t: string)
    ensures KeepNonBlank([t, t, t]) == if HasNonSpace(t) then [t, t, t] else []
  {
    assert [t, t, t][1..] == [t, t];
    assert [t, t][1..] == [t];
    assert [t][1..] == [];
    assert KeepNonBlank([t]) == if HasNonSpace(t) then [t] else [];
    assert KeepNonBlank([t, t]) == if HasNonSpace(t) then [t, t] else [];
  }

  /** How often the price buckets occur among the synthetic tokens. */
  function PriceBucketCount(s: seq<string>): nat {
    multiset(s)["budget_price"] + multiset(s)["mid_price"] + multiset(s)["premium_price"]
  }

  /** How often the popularity buckets occur among the synthetic tokens. */
  function PopularityBucketCount(s: seq<string>): nat {
    multiset(s)["very_popular"] + multiset(s)["popular"] + multiset(s)["moderately_popular"]
  }

  /**
   * Among the synthetic tokens there is exactly one price bucket when the row has a
   * price and none otherwise, and at most one popularity bucket.
   */
  lemma BucketsAreExclusive(item: Item)
    ensures PriceBucketCount(SyntheticTokens(item)) == (if item.price.Some? then 1 else 0)
    ensures PopularityBucketCount(SyntheticTokens(item)) <= 1
  {
    var c := CategoryToken(item.categoryId);
    var p := PriceToken(item.price);
    var r := RatingToken(item.stars);
    var b := BestsellerToken(item.isBestSeller);
    var q := PopularityToken(item.boughtInLastMonth);
    assert SyntheticTokens(item) == c + p + r + b + q;
    CountsAdd(c, p, r, b, q);
    PrefixedTokenIsNoBucket(c, 'c');
    PrefixedTokenIsNoBucket(r, 'r');
    assert PriceBucketCount(b) == 0 && PopularityBucketCount(b) == 0 by {
      BestsellerCounts(item.isBestSeller);
    }
    assert PriceBucketCount(p) == |p| && PopularityBucketCount(p) == 0 by {
      PriceCounts(item.price);
    }
    assert PriceBucketCount(q) == 0 && PopularityBucketCount(q) == |q| by {
      PopularityCounts(item.boughtInLastMonth);
    }
  }

  /** The best-seller token is neither a price nor a popularity bucket. */
  lemma BestsellerCounts(x: Option<bool>)
    ensures PriceBucketCount(BestsellerToken(x)) == 0 && PopularityBucketCount(BestsellerToken(x)) == 0
  {
  }

  /** Every price token is a price bucket, and none is a popularity bucket. */
  lemma PriceCounts(x: Option<real>)
    ensures PriceBucketCount(PriceToken(x)) == |PriceToken(x)| && PopularityBucketCount(PriceToken(x)) == 0
  {
  }

  /** Every popularity token is a popularity bucket, and none is a price bucket. */
  lemma PopularityCounts(x: Option<int>)
    ensures PriceBucketCount(PopularityToken(x)) == 0 && PopularityBucketCount(PopularityToken(x)) == |PopularityToken(x)|
  {
  }

  /** The bucket counts of a concatenation are the sums of the parts' counts. */
  lemma CountsAdd(c: seq<string>, p: seq<string>, r: seq<string>, b: seq<string>, q: seq<string>)
    ensures PriceBucketCount(c + p + r + b + q)
      == PriceBucketCount(c) + PriceBucketCount(p) + PriceBucketCount(r) + PriceBucketCount(b) + PriceBucketCount(q)
    ensures PopularityBucketCount(c + p + r + b + q)
      == PopularityBucketCount(c) + PopularityBucketCount(p) + PopularityBucketCount(r) + PopularityBucketCount(b) + PopularityBucketCount(q)
  {
    assert multiset(c + p + r + b + q) == multiset(c) + multiset(p) + multiset(r) + multiset(b) + multiset(q);
  }

  /** A token list of at most one element starting with `first` holds no price or popularity bucket. */
  lemma PrefixedTokenIsNoBucket(s: seq<string>, first: char)
    requires |s| <= 1 && (s != [] ==> s[0] != [] && s[0][0] == first)
    requires first != 'b' && first != 'm' && first != 'p' && first != 'v'
    ensures PriceBucketCount(s) == 0 && PopularityBucketCount(s) == 0
  {
    if s != [] {
      assert s == [s[0]];
      assert s[0] != "budget_price" && s[0] != "mid_price" && s[0] != "premium_price";
      assert s[0] != "very_popular" && s[0] != "popular" && s[0] != "moderately_popular";
    }
  }

  /** The price buckets at their boundaries: 100 is mid-priced and 200 premium. */
  lemma PriceBoundaries()
    ensures PriceToken(Some(99.99)) == ["budget_price"]
    ensures PriceToken(Some(100.0)) == ["mid_price"]
    ensures PriceToken(Some(200.0)) == ["premium_price"]
  {
  }

  /**
   * The fragments as written, once `fillna('')` has replaced every empty cell by `''`
   * in a catalog that has all the feature columns: an empty category id gives the
   * token `category_`, and an empty price, star or bought-last-month cell makes
   * `'' < 100`, `int('')` or `'' > 1000` raise, which is `None` here.
   */
  function FeatureTokensAfterFillna(item: Item): (r: Option<seq<string>>)
    ensures r.None? <==> item.price.None? || item.stars.None? || item.boughtInLastMonth.None?
    ensures r.Some? ==> r.value == FeatureTokens(item.(categoryId := Some(item.categoryId.GetOr(""))))
  {
    if item.price.None? || item.stars.None? || item.boughtInLastMonth.None? then None
    else Some(TitleTokens(item) + ["category_" + item.categoryId.GetOr("")]
      + PriceToken(item.price) + RatingToken(item.stars)
      + BestsellerToken(item.isBestSeller) + PopularityToken(item.boughtInLastMonth))
  }

  /** A row whose price cell is empty: the fragments as written raise, the corrected ones skip the price bucket. */
  lemma EmptyPriceCellRaises()
    ensures var item := Item("B0001", "Red Mug", None, Some("1"), None, None, Some(4.5), None,
                             Some(false), Some(50), None);
      FeatureTokensAfterFillna(item) == None
      && FeatureTokens(item) == ["Red Mug", "Red Mug", "Red Mug", "category_1", "rating_4_stars"]
  {
    assert Trunc(4.5) == 4;
    assert NatToString(4) == "4";
    assert IntToString(4) == "4";
    assert "rating_" + "4" + "_stars" == "rating_4_stars";
    assert "category_" + "1" == "category_1";
  }

  /** Where every feature cell is filled, the fragments as written and the corrected ones agree. */
  lemma AfterFillnaAgreesOnCompleteRows(item: Item)
    requires item.categoryId.Some? && item.price.Some? && item.stars.Some?
    requires item.boughtInLastMonth.Some?
    ensures FeatureTokensAfterFillna(item) == Some(FeatureTokens(item))
  {
  }
}
