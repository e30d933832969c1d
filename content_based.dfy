/**
 * The recommender of backend/content_based.py: resolves a query to a catalog row,
 * ranks the other rows by a supplied cosine-similarity row, keeps the top ones and
 * attaches an explanation to each.
 */
module ContentBased {
  import opened Wrappers
  import opened Text
  import opened Catalog
  import opened Features
  import opened Ranking
  import opened Llm

  /** A row of the global result: the recommended row with its similarity score, and its explanation. */
  datatype Recommendation = Recommendation(row: Product, explanation: string)

  /** The columns `get_recommendations` copies into its result: all but the best-seller flag and monthly sales. */
  function RecommendedColumns(item: Item): Item {
    item.(isBestSeller := None, boughtInLastMonth := None)
  }

  /** A row of the category result: the recommended row and its similarity to the query. */
  datatype ScoredItem = ScoredItem(item: Item, similarityScore: real)

  /** Python truthiness of an optional number: present and non-zero. */
  predicate Truthy(x: Option<real>) {
    x.Some? && x.value != 0.0
  }

  /** The price clause of `_fallback_explanation`: only when both prices are truthy, and then exactly one. */
  function FallbackPriceClause(sourcePrice: Option<real>, recPrice: Option<real>): (r: seq<string>)
    ensures |r| == if Truthy(recPrice) && Truthy(sourcePrice) then 1 else 0
  {
    if Truthy(recPrice) && Truthy(sourcePrice) then
      if Abs(recPrice.value - sourcePrice.value) < 10.0 then ["has a similar price"]
      else if recPrice.value < sourcePrice.value then ["is more budget-friendly"]
      else ["is a premium alternative"]
    else []
  }

  /** The clauses of `_fallback_explanation`, each added independently of the others. */
  function FallbackClauses(source: Item, rec: Item): (r: seq<string>)
    ensures |r| <= 3
  {
    (if rec.categoryName == source.categoryName then ["it's from the same category"] else [])
    + FallbackPriceClause(source.price, rec.price)
    + (if Truthy(rec.stars) && rec.stars.value >= 4.0 then ["is highly rated by customers"] else [])
  }

  /** The text `_fallback_explanation` returns. */
  function FallbackText(source: Item, rec: Item): string {
    "This product " + Join(FallbackClauses(source, rec), " and ") + "."
  }

  /**
   * The three fallback clauses in order: category equality (two absent names are
   * equal), the prices when both are truthy (similar within 10, else cheaper or
   * dearer), four stars or more.
   */
  lemma FallbackClausesCases(source: Item, rec: Item)
    ensures var parts := FallbackClauses(source, rec);
      var cat := if rec.categoryName == source.categoryName then 1 else 0;
      var price := if Truthy(rec.price) && Truthy(source.price) then 1 else 0;
      && |parts| == cat + price + (if Truthy(rec.stars) && rec.stars.value >= 4.0 then 1 else 0)
      && (cat == 1 ==> parts[0] == "it's from the same category")
      && (price == 1 ==> parts[cat] in {"has a similar price", "is more budget-friendly", "is a premium alternative"})
      && (price == 1 ==> (parts[cat] == "has a similar price"
                          <==> Abs(rec.price.value - source.price.value) < 10.0))
      && (price == 1 ==> (parts[cat] == "is more budget-friendly"
                          <==> !(Abs(rec.price.value - source.price.value) < 10.0)
                               && rec.price.value < source.price.value))
      && (price == 1 ==> (parts[cat] == "is a premium alternative"
                          <==> !(Abs(rec.price.value - source.price.value) < 10.0)
                               && rec.price.value >= source.price.value))
      && (cat + price < |parts| ==> parts[cat + price] == "is highly rated by customers")
  {
  }

  /** With no clause the fallback text is exactly "This product ." and with any clause it is longer. */
  lemma FallbackEmptySentence(source: Item, rec: Item)
    ensures FallbackText(source, rec) == "This product ." <==> FallbackClauses(source, rec) == []
  {
    var parts := FallbackClauses(source, rec);
    if parts != [] {
      assert |parts[0]| > 0;
      assert |FallbackText(source, rec)| > |"This product ."|;
    }
  }

  /** The square cosine-similarity matrix over `n` catalog rows. */
  predicate IsSimilarityMatrix(m: seq<seq<real>>, n: nat) {
    |m| == n && forall i :: 0 <= i < n ==> |m[i]| == n
  }

  /**
   * The recommender. `similarity[i][j]` is the cosine similarity of the TF-IDF
   * vectors of the descriptions of rows `i` and `j`, computed outside this model.
   * Each query takes the descending argsort as an `argsort` argument (any function
   * satisfying `IsArgsort`), since numpy fixes no order among equal scores.
   */
  class ContentBasedFiltering {
    const data: seq<Item>
    const content: seq<string>
    const similarity: seq<seq<real>>
    const explainer: RecommendationExplainer

    /** Every row has an image URL and the matrix covers the catalog. */
    ghost predicate Valid() {
      && |content| == |data|
      && IsSimilarityMatrix(similarity, |data|)
      && forall i :: 0 <= i < |data| ==> data[i].imgUrl.Some?
    }

    /** `__init__`: defaults the image URLs, synthesises each row's description and creates the explainer. */
    constructor (rows: seq<Item>, cosine: seq<seq<real>>,
                 sdkInstalled: bool, apiKey: Option<string>, clientStarts: bool)
      requires IsSimilarityMatrix(cosine, |rows|)
      ensures Valid()
      ensures |data| == |rows| && forall i :: 0 <= i < |rows| ==> data[i] == WithImage(rows[i])
      ensures |content| == |rows| && forall i :: 0 <= i < |rows| ==> content[i] == Description(data[i])
      ensures similarity == cosine && fresh(explainer)
      ensures explainer.hasClient == (sdkInstalled && apiKey.Some? && apiKey.value != "" && clientStarts)
    {
      var filled := seq(|rows|, i requires 0 <= i < |rows| => WithImage(rows[i]));
      var descriptions: seq<string> := [];
      var i := 0;
      while i < |filled|
        invariant 0 <= i <= |filled| && |descriptions| == i
        invariant forall j :: 0 <= j < i ==> descriptions[j] == Description(filled[j])
      {
        var d := CombineFeatures(filled[i]);
        descriptions := descriptions + [d];
        i := i + 1;
      }
      data := filled;
      content := descriptions;
      similarity := cosine;
      explainer := new RecommendationExplainer(sdkInstalled, apiKey, clientStarts);
    }

    /** `_fallback_explanation`: appends the applicable clauses one by one, then joins them. */
    method FallbackExplanation(source: Item, rec: Item) returns (explanation: string)
      ensures explanation == FallbackText(source, rec)
    {
      var parts: seq<string> := [];
      if rec.categoryName == source.categoryName {
        parts := parts + ["it's from the same category"];
      }
      if Truthy(rec.price) && Truthy(source.price) {
        var diff := Abs(rec.price.value - source.price.value);
        if diff < 10.0 {
          parts := parts + ["has a similar price"];
        } else if rec.price.value < source.price.value {
          parts := parts + ["is more budget-friendly"];
        } else {
          parts := parts + ["is a premium alternative"];
        }
      }
      if Truthy(rec.stars) && rec.stars.value >= 4.0 {
        parts := parts + ["is highly rated by customers"];
      }
      assert parts == FallbackClauses(source, rec);
      explanation := "This product " + Join(parts, " and ") + ".";
    }

    /** The positions `argsort()[::-1][1:top_n + 1]` picks for the query row `q`. */
    function RankedPositions(q: nat, topN: int, argsort: seq<real> -> seq<nat>): (r: seq<nat>)
      requires Valid() && q < |data| && IsArgsort(argsort)
      ensures Bounded(r, |data|) && Distinct(r) && NonIncreasing(similarity[q], r)
      ensures argsort(similarity[q])[0] !in r
      ensures forall k, p ::
        0 <= k < |r| && 0 <= p < |data| && p !in r && p != argsort(similarity[q])[0]
        ==> similarity[q][p] <= similarity[q][r[k]]
    {
      SelectionProperties(similarity[q], argsort(similarity[q]), topN);
      TopAfterHead(argsort(similarity[q]), topN)
    }

    /** The result rows before explanation: each picked row's copied columns and its similarity to `q`. */
    function Candidates(q: nat, picked: seq<nat>): (r: seq<Product>)
      requires Valid() && q < |data| && Bounded(picked, |data|)
      ensures |r| == |picked|
    {
      seq(|picked|, k requires 0 <= k < |picked| =>
        Product(RecommendedColumns(data[picked[k]]), Some(similarity[q][picked[k]])))
    }

    /** What `get_recommendations` returns: `None` for an unknown asin, else one explained row per ranked position. */
    function Recommendations(asin: string, topN: int, argsort: seq<real> -> seq<nat>, replies: nat -> LlmReply)
      : Option<seq<Recommendation>>
      requires Valid() && IsArgsort(argsort)
    {
      match FindByAsin(data, asin)
      case None => None
      case Some(q) =>
        var rows := Candidates(q, RankedPositions(q, topN, argsort));
        var explanations := explainer.BatchGenerateExplanations(Product(data[q], None), rows, replies);
        Some(seq(|rows|, k requires 0 <= k < |rows| => Recommendation(rows[k], explanations[k])))
    }

    /** `get_recommendations`: looks the asin up, ranks, copies the picked rows, then explains them one by one. */
    method GetRecommendations(asin: string, topN: int, argsort: seq<real> -> seq<nat>, replies: nat -> LlmReply)
      returns (r: Option<seq<Recommendation>>)
      requires Valid() && IsArgsort(argsort)
      ensures r == Recommendations(asin, topN, argsort, replies)
    {
      var found := FindByAsin(data, asin);
      if found.None? {
        return None;
      }
      var q := found.value;
      var source := Product(data[q], None);
      var rows := Candidates(q, RankedPositions(q, topN, argsort));
      var explanations: seq<string> := [];
      var k := 0;
      while k < |rows|
        invariant 0 <= k <= |rows|
        invariant explanations == explainer.BatchGenerateExplanations(source, rows[..k], replies)
      {
        var explanation := explainer.GenerateExplanation(source, rows[k], replies(k));
        explainer.BatchExtends(source, rows, k, replies);
        explanations := explanations + [explanation];
        k := k + 1;
      }
      assert rows[..k] == rows;
      r := Some(seq(|rows|, m requires 0 <= m < |rows| => Recommendation(rows[m], explanations[m])));
    }

    /**
     * An unknown asin gives `None`; otherwise min(top_n, n - 1) rows when `top_n >= 0`,
     * and never more than n - 1.
     */
    lemma RecommendationsFound(asin: string, topN: int, argsort: seq<real> -> seq<nat>, replies: nat -> LlmReply)
      requires Valid() && IsArgsort(argsort)
      ensures var r := Recommendations(asin, topN, argsort, replies);
        && (r.None? <==> FindByAsin(data, asin).None?)
        && (r.Some? ==>
              && |r.value| <= |data| - 1
              && (0 <= topN ==> |r.value| == if topN < |data| - 1 then topN else |data| - 1))
    {
      match FindByAsin(data, asin)
      case None =>
      case Some(q) =>
        SelectionProperties(similarity[q], argsort(similarity[q]), topN);
    }

    /**
     * Row k is built from ranked position k: that catalog row's copied columns and its
     * similarity to the query. So the rows come from distinct positions, the scores never
     * increase, and no left-out row other than the dropped head is more similar
     * (`RankedPositions`).
     */
    lemma RecommendedRows(asin: string, topN: int, argsort: seq<real> -> seq<nat>, replies: nat -> LlmReply)
      requires Valid() && IsArgsort(argsort) && Recommendations(asin, topN, argsort, replies).Some?
      ensures var r := Recommendations(asin, topN, argsort, replies).value;
        var q := FindByAsin(data, asin).value;
        var picked := RankedPositions(q, topN, argsort);
        && |r| == |picked|
        && (forall k :: 0 <= k < |r| ==>
              r[k].row == Product(RecommendedColumns(data[picked[k]]), Some(similarity[q][picked[k]])))
        && (forall i, j :: 0 <= i < j < |r| ==>
              r[i].row.similarityScore.Some? && r[j].row.similarityScore.Some?
              && r[i].row.similarityScore.value >= r[j].row.similarityScore.value)
    {
      var q := FindByAsin(data, asin).value;
      var picked := RankedPositions(q, topN, argsort);
      var r := Recommendations(asin, topN, argsort, replies).value;
      forall k | 0 <= k < |r|
        ensures 0 <= picked[k] < |data|
          && r[k].row == Product(RecommendedColumns(data[picked[k]]), Some(similarity[q][picked[k]]))
      {
      }
      forall i, j | 0 <= i < j < |r|
        ensures r[i].row.similarityScore.value >= r[j].row.similarityScore.value
      {
        assert similarity[q][picked[i]] >= similarity[q][picked[j]];
      }
    }

    /**
     * Recommendation k carries `generate_explanation` of its row with the k-th reply; so
     * no explanation is empty, and without a client each is the deterministic text.
     */
    lemma RecommendationsExplained(asin: string, topN: int, argsort: seq<real> -> seq<nat>, replies: nat -> LlmReply)
      requires Valid() && IsArgsort(argsort) && Recommendations(asin, topN, argsort, replies).Some?
      ensures var r := Recommendations(asin, topN, argsort, replies).value;
        var source := Product(data[FindByAsin(data, asin).value], None);
        && (forall k :: 0 <= k < |r| ==> r[k].explanation == explainer.GenerateExplanation(source, r[k].row, replies(k)))
        && (forall k :: 0 <= k < |r| ==> r[k].explanation != "")
        && (!explainer.hasClient ==> forall k :: 0 <= k < |r| ==> r[k].explanation == SimpleText(source, r[k].row))
    {
      var q := FindByAsin(data, asin).value;
      var rows := Candidates(q, RankedPositions(q, topN, argsort));
      explainer.BatchElements(Product(data[q], None), rows, replies);
      explainer.BatchFallsBack(Product(data[q], None), rows, replies);
    }

    /** The query row is left out of its own recommendations when its self-similarity is strictly the highest. */
    lemma QueryExcludedWhenStrictMax(q: nat, topN: int, argsort: seq<real> -> seq<nat>)
      requires Valid() && q < |data| && IsArgsort(argsort)
      requires forall p :: 0 <= p < |data| && p != q ==> similarity[q][p] < similarity[q][q]
      ensures q !in RankedPositions(q, topN, argsort)
    {
      SelfExcludedWhenStrictMax(similarity[q], argsort(similarity[q]), q, topN);
    }

    /** `get_recommendations_by_title`: the first title match's asin, handed to `get_recommendations`. */
    method GetRecommendationsByTitle(fragment: string, topN: int, argsort: seq<real> -> seq<nat>, replies: nat -> LlmReply)
      returns (r: Option<seq<Recommendation>>)
      requires Valid() && IsArgsort(argsort)
      ensures FindByTitle(data, fragment).None? ==> r.None?
      ensures FindByTitle(data, fragment).Some? ==>
        r == Recommendations(data[FindByTitle(data, fragment).value].asin, topN, argsort, replies)
    {
      var found := FindByTitle(data, fragment);
      if found.None? {
        return None;
      }
      r := GetRecommendations(data[found.value].asin, topN, argsort, replies);
    }

    /**
     * The title query is served from the matched row's asin: that finds the matched
     * row itself when asins are unique, and an earlier row carrying the same asin otherwise.
     */
    lemma TitleQueryResolvesToMatch(fragment: string)
      requires Valid() && FindByTitle(data, fragment).Some?
      ensures var k := FindByTitle(data, fragment).value;
        && FindByAsin(data, data[k].asin).Some?
        && FindByAsin(data, data[k].asin).value <= k
        && (UniqueAsins(data) ==> FindByAsin(data, data[k].asin) == Some(k))
    {
      var k := FindByTitle(data, fragment).value;
      if UniqueAsins(data) {
        FindOwnAsin(data, k);
      }
    }

    /** The rows sharing query row `q`'s category id, in catalog order; `q` is one of them. */
    function Members(q: nat): (r: seq<nat>)
      requires Valid() && q < |data|
      ensures Bounded(r, |data|) && q in r
      ensures forall k :: 0 <= k < |r| ==> data[r[k]].categoryId == data[q].categoryId
      ensures forall j :: 0 <= j < |data| && data[j].categoryId == data[q].categoryId ==> j in r
      ensures forall k, m :: 0 <= k < m < |r| ==> r[k] < r[m]
    {
      CategoryPositions(data, data[q].categoryId, 0)
    }

    /** Query row `q`'s similarity to each category member, indexed like `Members(q)`. */
    function MemberScores(q: nat): (r: seq<real>)
      requires Valid() && q < |data|
      ensures |r| == |Members(q)|
      ensures forall k :: 0 <= k < |r| ==> r[k] == similarity[q][Members(q)[k]]
    {
      var members := Members(q);
      seq(|members|, k requires 0 <= k < |members| => similarity[q][members[k]])
    }

    /** The indices into `Members(q)` that `argsort()[::-1][1:top_n + 1]` picks. */
    function CategoryPicks(q: nat, topN: int, argsort: seq<real> -> seq<nat>): (r: seq<nat>)
      requires Valid() && q < |data| && IsArgsort(argsort)
      ensures Bounded(r, |Members(q)|) && Distinct(r) && NonIncreasing(MemberScores(q), r)
      ensures |r| <= |Members(q)| - 1 && (0 <= topN ==> |r| == if topN < |Members(q)| - 1 then topN else |Members(q)| - 1)
      ensures argsort(MemberScores(q))[0] !in r
      ensures forall k, i ::
        0 <= k < |r| && 0 <= i < |Members(q)| && i !in r && i != argsort(MemberScores(q))[0]
        ==> MemberScores(q)[i] <= MemberScores(q)[r[k]]
    {
      var scores := MemberScores(q);
      SelectionProperties(scores, argsort(scores), topN);
      TopAfterHead(argsort(scores), topN)
    }

    /** `get_similar_in_category`: `None` for an unknown asin or a category holding only the query row. */
    function GetSimilarInCategory(asin: string, topN: int, argsort: seq<real> -> seq<nat>): (r: Option<seq<ScoredItem>>)
      requires Valid() && IsArgsort(argsort)
      ensures r.None? <==> FindByAsin(data, asin).None? || |Members(FindByAsin(data, asin).value)| <= 1
    {
      match FindByAsin(data, asin)
      case None => None
      case Some(q) =>
        var members := Members(q);
        if |members| <= 1 then None
        else
          var picks := CategoryPicks(q, topN, argsort);
          Some(seq(|picks|, k requires 0 <= k < |picks| =>
            ScoredItem(data[members[picks[k]]], similarity[q][members[picks[k]]])))
    }

    /**
     * Row k of a category result is member `CategoryPicks(..)[k]` with its similarity to
     * the query; so there are min(top_n, members - 1) rows for `top_n >= 0` (and never
     * more than members - 1), each a row of the query's category, from distinct members,
     * with non-increasing scores, and no left-out member other than the dropped head is
     * more similar (`CategoryPicks`).
     */
    lemma SimilarInCategoryProperties(asin: string, topN: int, argsort: seq<real> -> seq<nat>)
      requires Valid() && IsArgsort(argsort) && GetSimilarInCategory(asin, topN, argsort).Some?
      ensures var r := GetSimilarInCategory(asin, topN, argsort).value;
        var q := FindByAsin(data, asin).value;
        var picks := CategoryPicks(q, topN, argsort);
        && |r| == |picks| && |r| <= |Members(q)| - 1
        && (0 <= topN ==> |r| == if topN < |Members(q)| - 1 then topN else |Members(q)| - 1)
        && (forall k :: 0 <= k < |r| ==>
              r[k] == ScoredItem(data[Members(q)[picks[k]]], similarity[q][Members(q)[picks[k]]]))
        && (forall i, j :: 0 <= i < j < |r| ==> Members(q)[picks[i]] != Members(q)[picks[j]])
        && (forall k :: 0 <= k < |r| ==> r[k].item.categoryId == data[q].categoryId)
        && (forall i, j :: 0 <= i < j < |r| ==> r[i].similarityScore >= r[j].similarityScore)
    {
      var r := GetSimilarInCategory(asin, topN, argsort).value;
      var q := FindByAsin(data, asin).value;
      var members := Members(q);
      var picks := CategoryPicks(q, topN, argsort);
      var scores := MemberScores(q);
      forall k | 0 <= k < |r|
        ensures r[k] == ScoredItem(data[members[picks[k]]], scores[picks[k]])
      {
      }
      forall i, j | 0 <= i < j < |r| ensures members[picks[i]] != members[picks[j]] {
        assert picks[i] != picks[j];
      }
    }
  }
}
