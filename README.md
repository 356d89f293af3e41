# Association rule learning on Online Retail II: a Dafny model

The script `association_rule_learning.py` cleans the invoice lines of the
Online Retail II data set, turns one country's invoices into an
invoice-by-product 0/1 table, hands that table to a mining library, filters
and sorts the rules that come back, and recommends products with them. This
project models the script's own logic, in its final definitions (lines
170-201 and 231-238), and proves what each step promises:

- `retail.dfy` (module `Retail`): a sheet row with a missing-cell marker per
  column; the cleaning masks of `retail_data_prep` (drop incomplete rows, drop
  invoices containing `C`, keep positive Quantity and Price); the two masked
  assignments of `replace_with_thresholds`, as an in-place update of a `Frame`
  object; and the first-match lookup `check_id`.
- `basket.dfy` (module `Basket`): `create_invoice_product_df` as the pandas
  chain it is (group sums, unstack, fill missing with 0, binarise), and the
  country mask of `create_rules` that feeds it.
- `rules.dfy` (module `Rules`): the rule table as input, a sort by one metric
  or by support then lift, the post-filter at line 144, and `arl_recommender`
  as a method with the source's two nested loops.
- `collections.dfy` (module `Collections`): the option type, the sequence mask
  `Filter`, subsequences and Python's `xs[0:n]`.

Missing cells behave as in pandas: a comparison with NaN is false, so such a
row fails `Quantity > 0`, while `str.contains("C", na=False)` lets a missing
invoice through that one mask. `groupby` leaves out rows whose Invoice or key
is missing, and `sum` skips a missing quantity.

Sorting (`sort_values`) is not stable for equal keys. `SortRules` is one
insertion sort. The ordering lemmas are stated for every sorted permutation,
so they do not depend on how ties are broken.

The recommender does not remove repeated items, and `rec_count = 0` gives an
empty list: the same item can be returned twice (`RepeatsAreKept`).

Default arguments are those of the script: `CreateInvoiceProductDf` has
`id := false`, `CreateRulesTable` has `id := true` and `country := "France"`,
and `ArlRecommender` has `sortBy := Lift` and `recCount := 1`.

## Model

| member | source | states |
|---|---|---|
| `Retail.Cleaned` | association_rule_learning.py:175-179 | every kept row is complete, has an invoice without `C`, and has Quantity > 0 and Price > 0; every input row meeting all four is kept |
| `Retail.CleanedIsOneFilter` | association_rule_learning.py:176-179 | the four successive masks equal one mask with all four conditions, so every occurrence of a qualifying row is kept, in input order; the result is a subsequence of the input |
| `Retail.WithColumn` | association_rule_learning.py:172-173 | assigning one numeric column changes that column and leaves every other column as it was |
| `Retail.Clipped` | association_rule_learning.py:172-173 | with `low <= up` the value ends in `[low, up]`; a value already in range is unchanged; below `low` gives `low`; above `up` gives `up`; with `up < low` every value becomes `up` |
| `Retail.ClipValue` | association_rule_learning.py:172-173 | a missing value stays missing and a present one stays present; with `low <= up` a present value ends in `[low, up]`; a value already in range is unchanged; one below `low` becomes `low`, one above `up` becomes `up` |
| `Retail.ClipColumn` | association_rule_learning.py:170-173 | same number of rows; only the clipped column changes; with `low <= up` each present value of it lies in `[low, up]`; a row whose value is in range or missing is unchanged |
| `Retail.Frame.ReplaceWithThresholds` | association_rule_learning.py:170-173 | the frame's rows become the clipped rows; the limits are computed once from the frame before the update |
| `Retail.Frame.DropNa` | association_rule_learning.py:176 | the caller's frame keeps exactly its complete rows, in order |
| `Retail.RetailDataPrep` | association_rule_learning.py:175-182 | the caller's frame loses its incomplete rows in place; a fresh frame holds the masked rows with Quantity and then Price clipped |
| `Retail.Prepared` | association_rule_learning.py:175-182 | the returned frame has one row per kept row, and clipping leaves every non-numeric column of it as in the kept row |
| `Retail.PreparedRows` | association_rule_learning.py:175-182 | prepared row `i` is kept row `i` with only Quantity and Price clipped; it stays complete and not cancelled; each clipped value lies within ordered limits and stays positive when its upper limit is positive |
| `Retail.CheckId` | association_rule_learning.py:192-194 | not found exactly when no row has the stock code (the IndexError case); otherwise the description of the first row carrying it |
| `Basket.GroupSum` | association_rule_learning.py:186 | there are no more groups than rows; its keys and sums are given by `GroupSumKeys` and `GroupSumIsGroupTotal` |
| `Basket.GroupSumKeys` | association_rule_learning.py:186 | the groups are exactly the (Invoice, key) pairs occurring in rows with both present |
| `Basket.GroupSumIsGroupTotal` | association_rule_learning.py:186 | each group's sum is the total Quantity of the rows of that invoice and key; a pair that never occurs totals 0 |
| `Basket.Binarize` | association_rule_learning.py:186-187 | every cell of the binarised table is 0 or 1; which cells are 1 is stated by `CreateInvoiceProductDf` |
| `Basket.SummedTable` | association_rule_learning.py:186 | after `Unstack` (`unstack()`) and `FillNa` (`fillna(0)`), rows are the distinct invoices, columns the distinct keys, and each cell the group total |
| `Basket.CreateInvoiceProductDf` | association_rule_learning.py:184-190 | rows are exactly the distinct invoices and columns exactly the distinct keys (StockCode when `id`, Description otherwise); a cell is 1 iff its group total is > 0, else 0; every cell is 0 or 1 |
| `Basket.CellOneHasPositiveLine` | association_rule_learning.py:186-187 | a cell of 1 comes from at least one line of that invoice and item with positive quantity |
| `Basket.AbsentPairIsZero` | association_rule_learning.py:186-187 | an invoice never holding an item has 0 in that item's column |
| `Basket.CleanedTableIsIncidence` | association_rule_learning.py:184-190 | when every quantity is positive, a cell is 1 exactly when some line of that invoice has that item |
| `Basket.CountryFilter` | association_rule_learning.py:197 | kept rows have Country equal to the argument; every such input row is kept |
| `Basket.CreateRulesTable` | association_rule_learning.py:196-198 | the table mined by `create_rules` has exactly the invoices of the chosen country as rows and the keys sold there as columns |
| `Rules.Insert` | association_rule_learning.py:145 | inserting into a sorted table gives a sorted permutation of the table plus the new rule |
| `Rules.SortRules` | association_rule_learning.py:145 | the result is a permutation of the input ordered by the sort key |
| `Rules.FilterKeepsSorted` | association_rule_learning.py:232-237 | masking a sorted table keeps it sorted |
| `Rules.StrongRules` | association_rule_learning.py:144-145 | keeps exactly the rules with support > 0.05, confidence > 0.1 and lift > 5, each as often as in the input, ordered by support descending, then lift descending |
| `Rules.Recommendations` | association_rule_learning.py:233-237 | the full list built by the loop has one entry per rule whose antecedents contain the product: that rule's first consequent, in table order |
| `Rules.ScanAntecedents` | association_rule_learning.py:235-237 | scanning one rule's antecedent set appends its first consequent exactly once if the product is in the set, and nothing otherwise |
| `Rules.ScanTable` | association_rule_learning.py:233-237 | the outer loop over the sorted table builds exactly the full list of first consequents of the matching rules |
| `Rules.RecommendationsComeFromRules` | association_rule_learning.py:232-237 | every entry of the list over a sorted copy is the first consequent of a rule of the original table that mentions the product |
| `Rules.ArlRecommender` | association_rule_learning.py:231-238 | returns the first `rec_count` entries of the full list over the sorted table; its length is `min(rec_count, number of matching rules)`; each entry is the first consequent of a rule whose antecedents contain the product |
| `Rules.SortedRulesAreRules` | association_rule_learning.py:232 | a sorted copy holds only rules of the original table |
| `Rules.RecommendationOrder` | association_rule_learning.py:232-237 | for any sorted permutation, the rules behind the entries are exactly the matching rules, each once, in non-increasing order of the sort metric |
| `Rules.ExampleRecommendation` | association_rule_learning.py:231-238 | for any rules {5,…}→9 and {5,…}→7 and a third rule without 5 of highest lift, item 5 with count 2 gets [9, 7], the higher-lift rule's item first |
| `Rules.RepeatsAreKept` | association_rule_learning.py:233-238 | two matching rules with the same first consequent return that item twice, even with count 3 |
| `Collections.Filter` | association_rule_learning.py:177-179 | a boolean mask: kept elements satisfy the mask and come from the input; every qualifying element is kept; the result is no longer than the input |
| `Collections.Take` | association_rule_learning.py:238 | `xs[0:n]` is the prefix of length `min(n, len(xs))` |
| `Collections.FilterIsSubsequence` | association_rule_learning.py:177-179 | a row mask yields an order-preserving subsequence |
| `Collections.FilterFilter` | association_rule_learning.py:177-179 | two successive masks equal one mask with both conditions |
| `Collections.FilterPermutation` | association_rule_learning.py:232-234 | masking two orderings of the same rules yields two orderings of the same matching rules |

## Left out

- Frequent-itemset mining and rule scoring (`apriori`, `association_rules`, lines 9, 134-142, 199-200) are calls into a library that is not part of this model. The rule table is an input. Its `antecedent support` and `consequent support` columns are not modelled.
- The limit computation `outlier_thresholds` (lines 162-168) interpolates floating-point quantiles. It is the function parameter `limits`, applied to the frame as it is when each column is clipped.
- Reading the Excel sheet (lines 13-15), writing `rules.csv` (line 205), the `print` in `check_id` (line 194) and the notebook inspection lines are I/O. The script's top-level statements (lines 15-21, 32-33, 51, 77-80, 89-107, 118-119, 127, 134-138, 203-205, 213-228, 241) are not modelled beyond the functions they call; the expression at lines 144-145 is `StrongRules`.
- The earlier definitions at lines 25-30, 37-48, 54-75, 110-116 and 123-125 are superseded by the final ones modelled here.
- All numbers are exact reals: float rounding in sums and comparisons, infinite conviction and NaN metrics are not modelled.
- Invoice and StockCode are strings. The sheet mixes integer and string codes, and the comparisons between them are not modelled.
- pandas copy and view semantics are not modelled: each mask yields a new frame, and only the frame `dropna(inplace=True)` is called on changes in the caller's hands.
- ArlRecommender: its first ensures fixes the order of equal-metric rules to that of `SortRules`, one of the orders pandas may produce; `RecommendationOrder` states what holds for every order.
- ArlRecommender: `rec_count` is a natural number; Python's slicing with a negative count is not modelled.
- `list(frozenset)[0]` depends on hash order; the consequents are a sequence and the first element is taken.
