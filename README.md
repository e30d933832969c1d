# Suggestify content-based recommender, modelled in Dafny

Suggestify recommends catalog products that resemble a product the user viewed. The core lives in
`backend/content_based.py` and `backend/llm.py`. It does four things:

- **Feature synthesis.** `_combine_features` turns each catalog row into a token string: the title
  three times, `category_<id>`, a price bucket, `rating_<n>_stars`, `bestseller` and a popularity bucket.
- **Ranking.** `get_recommendations` turns the query row's cosine-similarity row into a descending
  order, drops its head and keeps `top_n`. `get_similar_in_category` does the same within the
  query's category.
- **Query resolution.** A query is resolved by asin, or by a case-insensitive title fragment. The
  first matching row wins, and a miss gives `None`.
- **Explanations.** `RecommendationExplainer.generate_explanation` returns the language model's
  answer when there is one. Otherwise it returns a deterministic sentence built from category,
  price, rating and similarity clauses. `_fallback_explanation` is a second deterministic variant.

Modules:

- `Wrappers`: `Option`.
- `Text`: Python's `isspace`, `strip`, `join`, `str(int)`, ASCII lower-casing, substring search and
  `replace("\n", " ")`.
- `Catalog`: the row record, the image-URL default, the asin, title and category lookups.
- `Features`: `_combine_features`.
- `Ranking`: `argsort()[::-1][1:top_n + 1]`.
- `Llm`: `RecommendationExplainer`.
- `ContentBased`: `ContentBasedFiltering`.

A catalog row is an `Item`. Each optional column is an `Option`: `None` means the column is
missing or the cell is empty. The two classes keep the objects of the source.

- `ContentBasedFiltering` holds the filled rows, their descriptions, the similarity matrix and an
  explainer.
- `RecommendationExplainer` holds whether a client could be built.

Each language-model call is an oracle. The k-th call made by a request gets the reply `replies(k)`,
which is either `Failed` or `Replied(text)`.

Four behaviours of the code are easy to miss:

- **The query row can be returned.** The code drops the head of the descending order, not the query
  row. The query is certain to be excluded only when its own score is strictly the highest
  (`Ranking.SelfExcludedWhenStrictMax`). On a tie it may be dropped or may come back
  (`Ranking.SelfReturnedOnTie`).
- **Ties are not ordered.** numpy's default `argsort` is not stable, so ties come out in no fixed
  order. Each query of `ContentBasedFiltering` therefore takes the descending argsort as an argument
  `argsort`, any function that puts every score sequence in a descending order (`Ranking.IsArgsort`).
  Every ranking property is proved for every such function. `Ranking.ArgsortDesc` is one of them
  (`Ranking.ArgsortDescIsArgsort`).
- **`top_n` is not checked.** Any integer is accepted and Python slice rules apply. A negative
  `top_n` counts from the end (`Ranking.TopAfterHead`).
- **A missing price reads as zero.** `_simple_explanation` treats a missing price or star rating
  as 0, not as absent.

## Model

| member | source | states |
|---|---|---|
| Text.Strip | backend/llm.py:58 | `str.strip()`. The result is a slice of the input with only whitespace before and after it. It is empty exactly when every character is whitespace, and otherwise neither of its ends is whitespace. |
| Text.IsSpace | backend/llm.py:58 | Python's `str.isspace` on one character: the ASCII controls 9-13 and 28-32 (space included), U+0085, U+00A0 and the Unicode space separators, which is the set `strip()` removes. |
| Text.HasNonSpace | backend/content_based.py:68 | The truthiness of `x.strip()`: some character is not whitespace. |
| Text.StripAfterReplaceNewlines | backend/llm.py:111 | On an already stripped string, replacing the line breaks leaves nothing for the second `strip()` to remove. |
| Text.ReplaceNewlines | backend/llm.py:111 | `replace("\n", " ")` keeps the length and changes exactly the line breaks, into spaces. |
| Text.StripKeepsTrimmed | backend/llm.py:111 | A string with no whitespace at either end is its own strip. |
| Text.Join | backend/content_based.py:68 | `sep.join(parts)`: the parts in order with one separator between neighbours. |
| Text.KeepNonBlank | backend/content_based.py:68 | The filter `x and x.strip()`: keeps, in order, exactly the parts that are not blank. |
| Text.JoinThree | backend/content_based.py:68 | Joining three parts puts one separator between each neighbouring pair. |
| Text.IntToString | backend/content_based.py:54 | `str(i)` is non-empty and starts with '-' exactly for negative i. |
| Text.NatToString | backend/content_based.py:54 | `str(n)` for n >= 0: a non-empty string of decimal digits (read back as n by `NatToStringRoundTrip`). |
| Text.ContainsIgnoringCase | backend/content_based.py:150 | `str.contains(fragment, case=False)`: the lower-cased fragment occurs in the lower-cased text. |
| Text.Lower | backend/content_based.py:150 | Lower-casing maps each character on its own and keeps the length. |
| Text.NatToStringRoundTrip | backend/content_based.py:54 | The decimal digits written by `str(n)` read back as `n`. |
| Text.JoinAppend | backend/content_based.py:68 | Joining two non-empty lists is joining each and putting the separator between them. |
| Text.KeepNonBlankAppend | backend/content_based.py:68 | The blank-fragment filter of the final join works part by part. |
| Catalog.WithImage | backend/content_based.py:16-20 | Every row ends up with an image URL. An existing one is kept, a missing one becomes the placeholder, and no other column changes. |
| Catalog.FirstMatch | backend/content_based.py:150-154 | The first row at or after `from` meeting the test, with no earlier one meeting it, and `None` exactly when none does; it is the `iloc[0]` / `tolist()[0]` of the lookups at :83-84, :150-154 and :159. |
| Catalog.TitleMatches | backend/content_based.py:150 | The per-row title test: the fragment occurs in the title, ignoring case. |
| Catalog.FindByAsin | backend/content_based.py:83-84 | The result is the first row whose asin equals the query, and `None` exactly when none does. |
| Catalog.FindByTitle | backend/content_based.py:150-153 | The result is the first row whose title contains the fragment ignoring case, and `None` exactly when none does. |
| Catalog.EmptyFragmentFindsFirstRow | backend/content_based.py:150 | An empty fragment matches the first row of any non-empty catalog. |
| Catalog.FindOwnAsin | backend/content_based.py:83-84 | With unique asins, looking up row k's asin finds row k. |
| Catalog.CategoryPositions | backend/content_based.py:160-161 | The result lists, in increasing order, exactly the rows with the given `category_id`. |
| Features.Trunc | backend/content_based.py:54 | `int(x)` truncates toward zero. |
| Features.PriceToken | backend/content_based.py:42-50 | There is exactly one price token when a price is present and none otherwise: `budget_price` below 100, `mid_price` in [100, 200), `premium_price` from 200. |
| Features.PriceBoundaries | backend/content_based.py:45-50 | 99.99 is budget, 100 is mid and 200 is premium. |
| Features.BestsellerToken | backend/content_based.py:56-57 | `bestseller` is emitted exactly when the flag is true. |
| Features.PopularityToken | backend/content_based.py:59-66 | There is at most one popularity token, with strict thresholds: above 1000 `very_popular`, in (500, 1000] `popular`, in (100, 500] `moderately_popular`, and none at or below 100. |
| Features.RatingToken | backend/content_based.py:53-54 | One rating token exactly when there is a star rating. |
| Features.RatingTokenText | backend/content_based.py:54 | For stars in [d, d + 1) with d >= 0 the token is `rating_<d>_stars`: it carries the truncated star count `int(stars)`. |
| Features.CategoryToken | backend/content_based.py:38-39 | One category token exactly when there is a category id. |
| Features.TitleTokens | backend/content_based.py:35 | The title, three times, as the first fragments. |
| Features.SyntheticTokens | backend/content_based.py:37-66 | The category, price, rating, best-seller and popularity tokens, in that order. |
| Features.FeatureTokens | backend/content_based.py:35-66 | The fragments in emission order: the title tokens followed by the synthetic tokens. An absent or empty cell gives no token. |
| Features.Description | backend/content_based.py:68 | The non-blank fragments joined by single spaces. |
| Features.CombineFeatures | backend/content_based.py:31-68 | Appending fragment by fragment and joining the non-blank ones gives `Description(item)`. |
| Features.SyntheticTokensKept | backend/content_based.py:68 | No synthetic token is blank, so the final join keeps them all. |
| Features.KeepAllNonBlank | backend/content_based.py:68 | A list with no blank fragment passes the filter unchanged. |
| Features.DescriptionStartsWithTitle | backend/content_based.py:36-68 | For a non-blank title, the description starts with the title three times, space-separated, followed by a space or the end. |
| Features.BareItemDescription | backend/content_based.py:36-68 | A row with no optional attribute is described by its title three times, or by "" when the title is blank. |
| Features.KeepTitleTokens | backend/content_based.py:68 | The thrice-repeated title survives the blank filter exactly when it is not blank. |
| Features.BucketsAreExclusive | backend/content_based.py:42-66 | The synthetic tokens hold exactly one price bucket when there is a price, none otherwise, and at most one popularity bucket. |
| Features.FeatureTokensAfterFillna | backend/content_based.py:28-66 | The fragments as written after `fillna('')`: `None` (a raise) exactly when the price, stars or bought-last-month cell is empty. Otherwise the corrected fragments, with an empty category id read as `''`. |
| Features.EmptyPriceCellRaises | backend/content_based.py:28-45 | A row with an empty price cell raises as written, while the corrected fragments simply omit the price bucket. |
| Features.AfterFillnaAgreesOnCompleteRows | backend/content_based.py:28-66 | When every feature cell is filled, the fragments as written and the corrected ones agree. |
| Ranking.IsDescendingOrder | backend/content_based.py:93 | What `argsort()[::-1]` yields: every position exactly once, scores non-increasing. |
| Ranking.IsArgsort | backend/content_based.py:93 | An argsort function: it sorts every score sequence into a descending order. |
| Ranking.ArgsortDescIsArgsort | backend/content_based.py:93 | The insertion sort `ArgsortDesc` is such a function, so the requirement can be met. |
| Ranking.InsertDesc | backend/content_based.py:93 | Inserting a position into a descending list keeps it descending and distinct, and adds exactly that position. |
| Ranking.SortPrefix | backend/content_based.py:93 | The result is a descending, duplicate-free ordering of exactly the positions below k. |
| Ranking.ArgsortDesc | backend/content_based.py:93 | `argsort()[::-1]` is a descending order: every position exactly once, scores non-increasing. |
| Ranking.PyStop | backend/content_based.py:93 | Python's clamping of a slice bound, with negative bounds counted from the end. |
| Ranking.TopAfterHead | backend/content_based.py:93 | `[1:top_n + 1]` is a contiguous run right after the head. Its length is min(top_n, n - 1) for `top_n >= 0`, empty for -1, and n + top_n (at least 0) below -1. |
| Ranking.SelectionProperties | backend/content_based.py:93 | For every descending order, the selection is distinct with non-increasing scores, never holds the dropped head, and no left-out position other than the head scores above a selected one. |
| Ranking.SelfExcludedWhenStrictMax | backend/content_based.py:93 | When the query's own score is strictly the highest, it heads the order and is not selected. |
| Ranking.SelfReturnedOnTie | backend/content_based.py:93 | With two equal scores, a legitimate descending order puts the query second, and the query is then returned. |
| Llm.GenericSentence | backend/llm.py:98 | The sentence returned when no clause applies. |
| Llm.ClausePrefix | backend/llm.py:102 | The opening "This product is " of every clause-based explanation. |
| Llm.Abs | backend/llm.py:72 | `abs` is non-negative and equals x or -x. |
| Llm.CategoryClauseCases | backend/llm.py:66-67 | The category clause applies exactly when the source has a non-empty category name that the recommendation shares. |
| Llm.PriceClauseCases | backend/llm.py:69-78 | Exactly one price case holds: similar (diff < 10 and source price > 0), cheaper (non-zero and lower), dearer (non-zero and higher), or none. |
| Llm.RatingClauseCases | backend/llm.py:82-84 | "highly rated" applies exactly from 4 stars up. |
| Llm.SimilarityClauseCases | backend/llm.py:88-93 | The similarity clauses are exclusive: above 0.8, in (0.5, 0.8], or none. |
| Llm.OrZero | backend/llm.py:70-71 | `float(d.get(key, 0) or 0)`: an absent number reads as zero. |
| Llm.CategoryClause | backend/llm.py:66-67 | At most one clause, "from the same category". |
| Llm.PriceClause | backend/llm.py:69-78 | At most one price clause. |
| Llm.RatingClause | backend/llm.py:82-84 | At most one rating clause. |
| Llm.SimilarityClause | backend/llm.py:88-93 | At most one similarity clause. |
| Llm.Clauses | backend/llm.py:64-93 | At most four clauses. |
| Llm.Take | backend/llm.py:101 | `parts[:n]` is the first min(n, len) elements. |
| Llm.SimpleText | backend/llm.py:97-102 | The generic sentence without clauses, otherwise the prefix, the first three clauses joined by " and ", and a full stop. |
| Llm.MapIndexed | backend/llm.py:119 | A list comprehension over a list, where each element also sees its index. It keeps the length. |
| Llm.MapIndexedElements | backend/llm.py:119 | Element i of the result is `f` of element i and i. |
| Llm.MapIndexedExtends | backend/llm.py:119 | Mapping the first k + 1 elements adds the image of element k to the mapped first k. |
| Llm.SimpleTextShape | backend/llm.py:97-102 | The generic sentence appears exactly when no clause applies. Otherwise the text is "This product is " + at most the first three clauses joined by " and " + ".". |
| Llm.FourthClauseDropped | backend/llm.py:100-102 | With all four clauses, the text names the first three, and the similarity clause is dropped. |
| Llm.RecommendationExplainer.constructor | backend/llm.py:25-32 | A client exists exactly when the SDK imports, the key is non-empty and the client starts. |
| Llm.RecommendationExplainer.LlmGenerate | backend/llm.py:34-61 | The result is "" without a client or on failure, and otherwise the stripped reply. A non-empty result has no whitespace at either end. |
| Llm.RecommendationExplainer.SimpleExplanation | backend/llm.py:63-102 | Appending clause by clause gives `SimpleText`, which is never empty. |
| Llm.RecommendationExplainer.GenerateExplanation | backend/llm.py:104-116 | The result is never empty. An empty model result, or no client, gives exactly the deterministic text. Otherwise it is the model text with line breaks as spaces. |
| Llm.RecommendationExplainer.BatchGenerateExplanations | backend/llm.py:118-119 | The batch holds exactly one explanation per recommendation. |
| Llm.RecommendationExplainer.ExplainAt | backend/llm.py:119 | The explanation of a recommendation that is the i-th of a batch, made with the i-th reply. |
| Llm.RecommendationExplainer.BatchElements | backend/llm.py:118-119 | Element i of the batch is `generate_explanation` of recommendation i with the i-th model reply. |
| Llm.RecommendationExplainer.BatchFallsBack | backend/llm.py:118-119 | No element of the batch is empty. Without a client every element is the deterministic text. |
| Llm.RecommendationExplainer.BatchExtends | backend/llm.py:118-119 | The batch of the first k + 1 recommendations is the batch of the first k plus the explanation of recommendation k with reply k. Earlier explanations stay unchanged. |
| ContentBased.FallbackPriceClause | backend/content_based.py:136-143 | Exactly one price clause when both prices are truthy, none otherwise. |
| ContentBased.FallbackClauses | backend/content_based.py:133-145 | At most three clauses. |
| ContentBased.FallbackClausesCases | backend/content_based.py:134-145 | The category, price and rating clauses are added independently and in that order. The price clauses are exclusive. "Similar" means a difference below 10. Otherwise a lower price gives "is more budget-friendly" and an equal or higher one gives "is a premium alternative". |
| ContentBased.Truthy | backend/content_based.py:136 | Python truthiness of an optional number: present and non-zero. |
| ContentBased.FallbackText | backend/content_based.py:146 | "This product ", the clauses joined by " and ", and a full stop. |
| ContentBased.FallbackEmptySentence | backend/content_based.py:146 | The text is exactly "This product ." when no clause applies, and only then. |
| ContentBased.ContentBasedFiltering.FallbackExplanation | backend/content_based.py:131-146 | Appending clause by clause gives `FallbackText`. |
| ContentBased.ContentBasedFiltering.constructor | backend/content_based.py:9-29 | Every row gets its image URL default and its description. The explainer is created fresh. |
| ContentBased.ContentBasedFiltering.RankedPositions | backend/content_based.py:93 | The picked positions are distinct catalog positions with non-increasing similarity to the query. The head of the descending order is not among them. No left-out position other than the head is more similar than a picked one. |
| ContentBased.RecommendedColumns | backend/content_based.py:96-106 | The columns copied into a recommendation: every column but the best-seller flag and the monthly sales. |
| ContentBased.ContentBasedFiltering.Candidates | backend/content_based.py:96-108 | One result row per picked position: its copied columns and its similarity to the query. |
| ContentBased.ContentBasedFiltering.Recommendations | backend/content_based.py:82-129 | `None` for an unknown asin. Otherwise the ranked candidate rows, each with the explanation the batch gives it. |
| ContentBased.ContentBasedFiltering.GetRecommendations | backend/content_based.py:77-129 | The result is exactly `Recommendations`: the lookup, the ranking, the copied columns, then one explanation per row from its own call in the loop. |
| ContentBased.ContentBasedFiltering.RecommendationsFound | backend/content_based.py:82-93 | `None` exactly for an unknown asin. Otherwise min(top_n, n - 1) rows for `top_n >= 0`, and never more than n - 1. |
| ContentBased.ContentBasedFiltering.RecommendedRows | backend/content_based.py:93-106 | Row k is built from ranked position k (`RankedPositions`), with its copied columns and its similarity to the query. Scores never increase along the result. |
| ContentBased.ContentBasedFiltering.RecommendationsExplained | backend/content_based.py:110-124 | Row k carries `generate_explanation` of that row with reply k. No explanation is empty, and without a client each is the deterministic text. |
| ContentBased.ContentBasedFiltering.QueryExcludedWhenStrictMax | backend/content_based.py:93 | When the query's self-similarity is strictly the highest, it is not recommended. |
| ContentBased.ContentBasedFiltering.GetRecommendationsByTitle | backend/content_based.py:148-154 | `None` when no title matches. Otherwise the recommendations for the asin of the first matching row. |
| ContentBased.ContentBasedFiltering.TitleQueryResolvesToMatch | backend/content_based.py:150-154 | The matched row's asin resolves to the matched row when asins are unique, and to an earlier row otherwise. |
| ContentBased.ContentBasedFiltering.Members | backend/content_based.py:159-161 | The category holds the query row and exactly the rows with the query's `category_id`, in strictly increasing catalog order. |
| ContentBased.ContentBasedFiltering.MemberScores | backend/content_based.py:166-169 | One score per category member: its similarity to the query. |
| ContentBased.ContentBasedFiltering.CategoryPicks | backend/content_based.py:171 | The picks are distinct member indices with non-increasing scores. For `top_n >= 0` there are exactly min(`top_n`, members - 1) of them. The head of the order is not among them, and no left-out member other than the head scores higher than a pick. |
| ContentBased.ContentBasedFiltering.GetSimilarInCategory | backend/content_based.py:156-183 | `None` exactly for an unknown asin or a category holding at most one row. |
| ContentBased.ContentBasedFiltering.SimilarInCategoryProperties | backend/content_based.py:159-178 | For `top_n >= 0` exactly min(`top_n`, members - 1) rows. Row k is member `CategoryPicks[k]` with its similarity to the query. The rows come from distinct members, all in the query's category, and scores are non-increasing. |

## Left out

- TF-IDF vectorisation and cosine similarity (sklearn, floating point): the similarity matrix is a constructor argument, and `real` stands for every float, without rounding.
- CSV loading and the column-presence checks: a missing column and an empty cell are both `None`.
- `str.contains` regex semantics: the title fragment is matched as a plain substring. Lower-casing is ASCII only.
- The Anthropic SDK probing in `_llm_generate`, the prompt text and the network call: each call is an oracle reply.
- `print` logging and `if __name__ == "__main__"`.
- The `except` branch of `get_recommendations` that calls `_fallback_explanation`: `generate_explanation` never raises, so this branch is unreachable. `_fallback_explanation` is modelled on its own.
- Llm.RecommendationExplainer.GenerateExplanation: the final `strip()` is not applied in the body. `Text.StripAfterReplaceNewlines` proves it changes nothing there.
- The `content` column after `fillna('')`: the model keeps the corrected descriptions, which do not raise on empty cells (see Findings).
- Features.FeatureTokens: an empty `category_id` cell gives no category token. The code, after `fillna('')`, emits the bare token `category_` for it, because there is no `pd.notna` test on that column. A row with an empty category id and filled price, stars and monthly sales does not raise, and its content holds `category_`. `Features.FeatureTokensAfterFillna` models that token.
- A missing `category_id` column: the model reads it as `None` in every row, so `GetSimilarInCategory` puts all rows in one category. The code raises `KeyError` at content_based.py line 160, and `except IndexError` does not catch it.
- The `try`/`except` around the `float()` calls in `_simple_explanation`: every value is already a number in the model, so they cannot raise.
- The `_create_tfidf_matrix` step and the `vectorizer` field: they belong to the similarity input.

## Findings

| source | as written | input that shows it | evidently intended | confidence | as-written member | corrected member |
|---|---|---|---|---|---|---|
| backend/content_based.py:28 | `fillna('')` runs before `_combine_features`, so an empty price, stars or bought-last-month cell arrives as `''`. Then `'' < 100`, `int('')` or `'' > 1000` raises, and the constructor fails. The `pd.notna` checks never see a missing value. | A row with title "Red Mug", category id "1", an empty price cell, 4.5 stars and 50 bought. | An empty price, stars or bought-last-month cell skips its token, as the `pd.notna` checks intend. The row is described as "Red Mug Red Mug Red Mug category_1 rating_4_stars". | not executed | Features.FeatureTokensAfterFillna, Features.EmptyPriceCellRaises | Features.FeatureTokens, Features.CombineFeatures |
