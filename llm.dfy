/**
 * The explanation generator of backend/llm.py: a language-model reply when one is
 * available, otherwise a deterministic sentence assembled from attribute clauses.
 * The language model is an oracle: `LlmReply` is what one call of the client gave back.
 */
module Llm {
  import opened Wrappers
  import opened Text
  import opened Catalog

  /** The outcome of one client call: an exception or empty answer, or the text it returned. */
  datatype LlmReply = Failed | Replied(text: string)

  /** The sentence used when no clause applies (in two pieces, so that the verifier can read its characters). */
  const GenericSentence: string :=
    "This product shares features with items " + "you viewed and could be of interest."

  /** The fixed opening of every clause-based explanation. */
  const ClausePrefix: string := "This product is "

  /** `float(d.get(key, 0) or 0)`: an absent number reads as zero. */
  function OrZero(x: Option<real>): real {
    x.GetOr(0.0)
  }

  /** Python's `abs` on reals. */
  function Abs(x: real): (r: real)
    ensures r >= 0.0 && (r == x || r == -x)
  {
    if x < 0.0 then -x else x
  }

  /** The category clause: the source has a non-empty category name and the recommendation has the same one. */
  function CategoryClause(source: Item, rec: Item): (r: seq<string>)
    ensures |r| <= 1
  {
    if source.categoryName.Some? && source.categoryName.value != "" && source.categoryName == rec.categoryName
    then ["from the same category"] else []
  }

  /**
   * The price clause, with absent prices read as 0: at most one clause; similar when
   * within 10 of a positive source price, otherwise cheaper or dearer when the
   * recommended price is non-zero.
   */
  function PriceClause(sp: real, rp: real): (r: seq<string>)
    ensures |r| <= 1
  {
    if Abs(sp - rp) < 10.0 && sp > 0.0 then ["a similar price"]
    else if rp != 0.0 && rp < sp then ["a more budget-friendly option"]
    else if rp != 0.0 && rp > sp then ["a premium alternative"]
    else []
  }

  /** The rating clause: the recommendation has at least 4 stars. */
  function RatingClause(stars: real): (r: seq<string>)
    ensures |r| <= 1
  {
    if stars >= 4.0 then ["highly rated by customers"] else []
  }

  /** The similarity clause: above 0.8 very similar, else above 0.5 several shared features. */
  function SimilarityClause(sim: real): (r: seq<string>)
    ensures |r| <= 1
  {
    if sim > 0.8 then ["very similar to your product"]
    else if sim > 0.5 then ["shares several features with your product"]
    else []
  }

  /** The category clause applies exactly when the source has a non-empty category name that the recommendation shares. */
  lemma CategoryClauseCases(source: Item, rec: Item)
    ensures CategoryClause(source, rec) == [] || CategoryClause(source, rec) == ["from the same category"]
    ensures CategoryClause(source, rec) != [] <==>
      source.categoryName.Some? && source.categoryName.value != "" && source.categoryName == rec.categoryName
  {
  }

  /**
   * Exactly one price case holds: similar when within 10 of a positive source price;
   * otherwise cheaper or dearer when the recommended price is non-zero; otherwise none.
   */
  lemma PriceClauseCases(sp: real, rp: real)
    ensures PriceClause(sp, rp) == ["a similar price"] <==> Abs(sp - rp) < 10.0 && sp > 0.0
    ensures PriceClause(sp, rp) == ["a more budget-friendly option"] <==> !(Abs(sp - rp) < 10.0 && sp > 0.0) && rp != 0.0 && rp < sp
    ensures PriceClause(sp, rp) == ["a premium alternative"] <==> !(Abs(sp - rp) < 10.0 && sp > 0.0) && rp != 0.0 && rp > sp
    ensures PriceClause(sp, rp) == [] <==> !(Abs(sp - rp) < 10.0 && sp > 0.0) && (rp == 0.0 || rp == sp)
  {
  }

  /** The rating clause applies exactly from 4 stars up. */
  lemma RatingClauseCases(stars: real)
    ensures RatingClause(stars) == [] || RatingClause(stars) == ["highly rated by customers"]
    ensures RatingClause(stars) != [] <==> stars >= 4.0
  {
  }

  /** The similarity clauses are exclusive: above 0.8, in (0.5, 0.8], or none. */
  lemma SimilarityClauseCases(sim: real)
    ensures SimilarityClause(sim) == ["very similar to your product"] <==> sim > 0.8
    ensures SimilarityClause(sim) == ["shares several features with your product"] <==> 0.5 < sim <= 0.8
    ensures SimilarityClause(sim) == [] <==> sim <= 0.5
  {
  }

  /** All clauses that apply, in the order category, price, rating, similarity. */
  function Clauses(source: Product, rec: Product): (r: seq<string>)
    ensures |r| <= 4
  {
    CategoryClause(source.item, rec.item)
    + PriceClause(OrZero(source.item.price), OrZero(rec.item.price))
    + RatingClause(OrZero(rec.item.stars))
    + SimilarityClause(OrZero(rec.similarityScore))
  }

  /** The first `n` elements, as Python's `parts[:n]` for `n >= 0`. */
  function Take(s: seq<string>, n: nat): (r: seq<string>)
    ensures |r| == if n < |s| then n else |s|
    ensures r == s[..|r|]
  {
    if n < |s| then s[..n] else s
  }

  /** The deterministic explanation `_simple_explanation` computes. */
  function SimpleText(source: Product, rec: Product): string {
    var parts := Clauses(source, rec);
    if parts == [] then GenericSentence
    else ClausePrefix + Join(Take(parts, 3), " and ") + "."
  }

  /**
   * The generic sentence appears exactly when no clause applies; otherwise the text is
   * the fixed prefix, at most the first three clauses joined by " and ", and a full stop.
   */
  lemma SimpleTextShape(source: Product, rec: Product)
    ensures var parts := Clauses(source, rec);
      && (SimpleText(source, rec) == GenericSentence <==> parts == [])
      && (parts != [] ==>
            SimpleText(source, rec) == ClausePrefix + Join(Take(parts, 3), " and ") + "."
            && |Take(parts, 3)| <= 3)
  {
    var parts := Clauses(source, rec);
    if parts != [] {
      var s := SimpleText(source, rec);
      assert s[13] == ClausePrefix[13] == 'i';
      assert GenericSentence[13] == 's';
    }
  }

  /** When all four clauses apply, the similarity clause is the one the cap of three drops. */
  lemma FourthClauseDropped(source: Product, rec: Product)
    requires |Clauses(source, rec)| == 4
    ensures var parts := Clauses(source, rec);
      SimpleText(source, rec) == ClausePrefix + (parts[0] + " and " + parts[1] + " and " + parts[2]) + "."
  {
    var parts := Clauses(source, rec);
    assert SimpleText(source, rec) == ClausePrefix + Join(Take(parts, 3), " and ") + ".";
    assert Take(parts, 3) == [parts[0], parts[1], parts[2]];
    JoinThree(parts[0], parts[1], parts[2], " and ");
  }

  /** `[f(x, i) for i, x in enumerate(xs)]`, built from the front. */
  function MapIndexed<T, U>(f: (T, nat) -> U, xs: seq<T>): (r: seq<U>)
    ensures |r| == |xs|
    decreases |xs|
  {
    if xs == [] then [] else MapIndexed(f, xs[..|xs| - 1]) + [f(xs[|xs| - 1], |xs| - 1)]
  }

  /** Element `i` of the mapped list is `f` of element `i` and its index. */
  lemma {:induction false} MapIndexedElements<T, U>(f: (T, nat) -> U, xs: seq<T>)
    ensures forall i :: 0 <= i < |xs| ==> MapIndexed(f, xs)[i] == f(xs[i], i)
    decreases |xs|
  {
    if xs != [] {
      var init := xs[..|xs| - 1];
      MapIndexedElements(f, init);
      assert forall i :: 0 <= i < |init| ==> init[i] == xs[i];
    }
  }

  /** Mapping the first k + 1 elements adds the image of element k to the mapped first k. */
  lemma MapIndexedExtends<T, U>(f: (T, nat) -> U, xs: seq<T>, k: nat)
    requires k < |xs|
    ensures MapIndexed(f, xs[..k + 1]) == MapIndexed(f, xs[..k]) + [f(xs[k], k)]
  {
    assert xs[..k + 1][..k] == xs[..k];
  }

  /** The explainer; whether a language-model client could be built is fixed when it is created. */
  class RecommendationExplainer {
    const hasClient: bool

    /** A client exists when the SDK is importable, the API key is set and non-empty, and building the client did not raise. */
    constructor (sdkInstalled: bool, apiKey: Option<string>, clientStarts: bool)
      ensures hasClient == (sdkInstalled && apiKey.Some? && apiKey.value != "" && clientStarts)
    {
      hasClient := sdkInstalled && apiKey.Some? && apiKey.value != "" && clientStarts;
    }

    /** `_llm_generate`: the stripped reply text, or "" without a client or on any failure. */
    function LlmGenerate(reply: LlmReply): (out: string)
      ensures !hasClient || reply.Failed? ==> out == ""
      ensures hasClient && reply.Replied? ==> out == Strip(reply.text)
      ensures out != "" ==> !IsSpace(out[0]) && !IsSpace(out[|out| - 1])
    {
      if !hasClient then ""
      else match reply
        case Failed => ""
        case Replied(text) =>
          if text == "" then assert Strip(text) == ""; "" else Strip(text)
    }

    /** `_simple_explanation`: appends the applicable clauses one by one, then caps and joins them. */
    method SimpleExplanation(source: Product, rec: Product) returns (explanation: string)
      ensures explanation == SimpleText(source, rec)
      ensures explanation != ""
    {
      var parts: seq<string> := [];
      var sourceName, recName := source.item.categoryName, rec.item.categoryName;
      if sourceName.Some? && sourceName.value != "" && sourceName == recName {
        parts := parts + ["from the same category"];
      }
      assert parts == CategoryClause(source.item, rec.item);
      var sp := OrZero(source.item.price);
      var rp := OrZero(rec.item.price);
      var diff := Abs(sp - rp);
      if diff < 10.0 && sp > 0.0 {
        parts := parts + ["a similar price"];
      } else if rp != 0.0 && rp < sp {
        parts := parts + ["a more budget-friendly option"];
      } else if rp != 0.0 && rp > sp {
        parts := parts + ["a premium alternative"];
      }
      assert parts == CategoryClause(source.item, rec.item) + PriceClause(sp, rp);
      if OrZero(rec.item.stars) >= 4.0 {
        parts := parts + ["highly rated by customers"];
      }
      assert parts == CategoryClause(source.item, rec.item) + PriceClause(sp, rp) + RatingClause(OrZero(rec.item.stars));
      var sim := OrZero(rec.similarityScore);
      if sim > 0.8 {
        parts := parts + ["very similar to your product"];
      } else if sim > 0.5 {
        parts := parts + ["shares several features with your product"];
      }
      assert parts == Clauses(source, rec);
      if parts == [] {
        return GenericSentence;
      }
      explanation := ClausePrefix + Join(Take(parts, 3), " and ") + ".";
    }

    /**
     * `generate_explanation`: a non-empty model reply, with its line breaks made spaces,
     * wins; otherwise the deterministic text. The result is never empty.
     */
    function GenerateExplanation(source: Product, rec: Product, reply: LlmReply): (s: string)
      ensures s != ""
      ensures LlmGenerate(reply) == "" ==> s == SimpleText(source, rec)
      ensures LlmGenerate(reply) != "" ==> s == ReplaceNewlines(LlmGenerate(reply))
      ensures !hasClient ==> s == SimpleText(source, rec)
    {
      var out := if hasClient then LlmGenerate(reply) else "";
      if out != "" then
        // the final `strip()` leaves the replaced text unchanged
        StripAfterReplaceNewlines(out);
        ReplaceNewlines(out)
      else
        SimpleTextShape(source, rec);
        SimpleText(source, rec)
    }

    /** The explanation of `rec` when it is the `i`-th of a batch, so that it gets the `i`-th reply. */
    function ExplainAt(source: Product, replies: nat -> LlmReply): (Product, nat) -> string {
      (rec: Product, i: nat) => GenerateExplanation(source, rec, replies(i))
    }

    /** `batch_generate_explanations`: one explanation per recommendation, the `i`-th using the `i`-th reply. */
    function BatchGenerateExplanations(source: Product, recs: seq<Product>, replies: nat -> LlmReply): (r: seq<string>)
      ensures |r| == |recs|
    {
      MapIndexed(ExplainAt(source, replies), recs)
    }

    /** Element `i` of the batch is `generate_explanation` of recommendation `i` with the `i`-th reply. */
    lemma BatchElements(source: Product, recs: seq<Product>, replies: nat -> LlmReply)
      ensures var r := BatchGenerateExplanations(source, recs, replies);
        forall i :: 0 <= i < |recs| ==> r[i] == GenerateExplanation(source, recs[i], replies(i))
    {
      MapIndexedElements(ExplainAt(source, replies), recs);
    }

    /** No explanation in a batch is empty, and without a client each is the deterministic text. */
    lemma BatchFallsBack(source: Product, recs: seq<Product>, replies: nat -> LlmReply)
      ensures var r := BatchGenerateExplanations(source, recs, replies);
        && (forall i :: 0 <= i < |recs| ==> r[i] != "")
        && (!hasClient ==> forall i :: 0 <= i < |recs| ==> r[i] == SimpleText(source, recs[i]))
    {
      BatchElements(source, recs, replies);
    }

    /** Explaining the first k + 1 recommendations adds the explanation of recommendation k, with reply k, to the first k. */
    lemma BatchExtends(source: Product, recs: seq<Product>, k: nat, replies: nat -> LlmReply)
      requires k < |recs|
      ensures BatchGenerateExplanations(source, recs[..k + 1], replies)
        == BatchGenerateExplanations(source, recs[..k], replies) + [GenerateExplanation(source, recs[k], replies(k))]
    {
      MapIndexedExtends(ExplainAt(source, replies), recs, k);
    }
  }
}
