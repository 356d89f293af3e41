/** The rule table the mining library returns, the script's post-filter
    `rules[(support > 0.05) & (confidence > 0.1) & (lift > 5)]` sorted by
    support then lift, and the recommender `arl_recommender`. Rules are
    inputs: how they are mined and scored is not part of this module. */
module Rules {
  import opened Collections

  /** An item: a StockCode or a Description. */
  type Item = string

  /** One row of the rule table. The consequent frozenset is a sequence whose
      first element stands for `list(consequents)[0]`. */
  datatype Rule = Rule(
    antecedents: set<Item>,
    consequents: seq<Item>,
    support: real,
    confidence: real,
    lift: real,
    leverage: real,
    conviction: real)

  /** A column `sort_values` may be asked to sort by. */
  datatype Metric = Support | Confidence | Lift | Leverage | Conviction

  function MetricOf(r: Rule, m: Metric): real
  {
    match m
    case Support => r.support
    case Confidence => r.confidence
    case Lift => r.lift
    case Leverage => r.leverage
    case Conviction => r.conviction
  }

  /** The two orders the script sorts by: one column descending, or
      `["support", "lift"]` both descending. */
  datatype Order = Descending(metric: Metric) | SupportThenLift

  /** `a` may stand before `b` in a table sorted by `o` (ties either way). */
  predicate Before(a: Rule, b: Rule, o: Order)
  {
    match o
    case Descending(m) => MetricOf(a, m) >= MetricOf(b, m)
    case SupportThenLift => a.support > b.support || (a.support == b.support && a.lift >= b.lift)
  }

  predicate Sorted(s: seq<Rule>, o: Order)
  {
    forall i, j :: 0 <= i < j < |s| ==> Before(s[i], s[j], o)
  }

  lemma BeforeTransitive(a: Rule, b: Rule, c: Rule, o: Order)
    requires Before(a, b, o) && Before(b, c, o)
    ensures Before(a, c, o)
  {
  }

  /** Insert `x` into a sorted table, before the first rule it may precede. */
  function Insert(x: Rule, s: seq<Rule>, o: Order): (r: seq<Rule>)
    requires Sorted(s, o)
    ensures multiset(r) == multiset(s) + multiset{x}
    ensures Sorted(r, o)
  {
    if s == [] then [x]
    else if Before(x, s[0], o) then
      InsertFirst(x, s, o);
      [x] + s
    else
      var rest := Insert(x, s[1..], o);
      InsertLater(x, s, rest, o);
      [s[0]] + rest
  }

  lemma InsertFirst(x: Rule, s: seq<Rule>, o: Order)
    requires s != [] && Sorted(s, o) && Before(x, s[0], o)
    ensures Sorted([x] + s, o)
  {
    HeadPrecedesTail(s, o);
    forall j | 0 <= j < |s| ensures Before(x, s[j], o) {
      if j > 0 {
        assert s[j] in s[1..];
        BeforeTransitive(x, s[0], s[j], o);
      }
    }
    ConsSorted(x, s, o);
  }

  lemma InsertLater(x: Rule, s: seq<Rule>, rest: seq<Rule>, o: Order)
    requires s != [] && Sorted(s, o) && !Before(x, s[0], o)
    requires Sorted(rest, o) && multiset(rest) == multiset(s[1..]) + multiset{x}
    ensures Sorted([s[0]] + rest, o)
    ensures multiset([s[0]] + rest) == multiset(s) + multiset{x}
  {
    HeadPrecedesTail(s, o);
    forall j | 0 <= j < |rest| ensures Before(s[0], rest[j], o) {
      assert rest[j] in multiset(rest);
      if rest[j] != x {
        assert rest[j] in multiset(s[1..]);
        assert rest[j] in s[1..];
      }
    }
    ConsSorted(s[0], rest, o);
    assert s == [s[0]] + s[1..];
  }

  /** `sort_values`: a permutation of the table ordered by `o`. The tie order
      of this definition is one of those pandas may produce; the properties
      below hold for every sorted permutation. */
  function SortRules(s: seq<Rule>, o: Order): (r: seq<Rule>)
    ensures multiset(r) == multiset(s)
    ensures Sorted(r, o)
  {
    if s == [] then []
    else
      assert s == [s[0]] + s[1..];
      Insert(s[0], SortRules(s[1..], o), o)
  }

  /** Masking keeps a sorted table sorted. */
  lemma {:induction false} FilterKeepsSorted(p: Rule -> bool, s: seq<Rule>, o: Order)
    requires Sorted(s, o)
    ensures Sorted(Filter(p, s), o)
  {
    if s != [] {
      FilterKeepsSorted(p, s[1..], o);
      var rest := Filter(p, s[1..]);
      if p(s[0]) {
        HeadPrecedesTail(s, o);
        forall j | 0 <= j < |rest| ensures Before(s[0], rest[j], o) {
          assert rest[j] in s[1..];
        }
        ConsSorted(s[0], rest, o);
        assert Filter(p, s) == [s[0]] + rest;
      } else {
        assert Filter(p, s) == rest;
      }
    }
  }

  lemma HeadPrecedesTail(s: seq<Rule>, o: Order)
    requires s != [] && Sorted(s, o)
    ensures forall y :: y in s[1..] ==> Before(s[0], y, o)
  {
    forall y | y in s[1..] ensures Before(s[0], y, o) {
      var k :| 0 <= k < |s[1..]| && s[1..][k] == y;
      assert s[k + 1] == y;
    }
  }

  lemma ConsSorted(x: Rule, rest: seq<Rule>, o: Order)
    requires Sorted(rest, o)
    requires forall j :: 0 <= j < |rest| ==> Before(x, rest[j], o)
    ensures Sorted([x] + rest, o)
  {
    var s := [x] + rest;
    forall i, j | 0 <= i < j < |s| ensures Before(s[i], s[j], o) {
      assert s[j] == rest[j - 1];
      if i > 0 {
        assert s[i] == rest[i - 1];
      }
    }
  }

  // ---------------------------------------------------------------------------
  // The post-filter of the mined rules

  predicate IsStrong(r: Rule)
  {
    r.support > 0.05 && r.confidence > 0.1 && r.lift > 5.0
  }

  /** `rules[(support > 0.05) & (confidence > 0.1) & (lift > 5)]
      .sort_values(["support", "lift"], ascending=[False, False])`. */
  function StrongRules(rules: seq<Rule>): (r: seq<Rule>)
    ensures multiset(r) == multiset(Filter(IsStrong, rules))
    ensures forall x :: x in r <==> x in rules && x.support > 0.05 && x.confidence > 0.1 && x.lift > 5.0
    ensures forall i, j :: 0 <= i < j < |r| ==>
      r[i].support > r[j].support || (r[i].support == r[j].support && r[i].lift >= r[j].lift)
  {
    var kept := Filter(IsStrong, rules);
    var r := SortRules(kept, SupportThenLift);
    SameMembers(r, kept);
    StrongMembers(rules);
    assert Sorted(r, SupportThenLift);
    r
  }

  /** Two orderings of the same rules hold the same rules. */
  lemma SameMembers(a: seq<Rule>, b: seq<Rule>)
    requires multiset(a) == multiset(b)
    ensures forall x :: x in a <==> x in b
  {
    forall x ensures x in a <==> x in b {
      assert x in a <==> x in multiset(a);
      assert x in b <==> x in multiset(b);
    }
  }

  lemma StrongMembers(rules: seq<Rule>)
    ensures forall x :: x in Filter(IsStrong, rules) <==> x in rules && IsStrong(x)
  {
    forall x ensures x in Filter(IsStrong, rules) <==> x in rules && IsStrong(x) {
      if x in rules && IsStrong(x) {
        var k :| 0 <= k < |rules| && rules[k] == x;
      }
    }
  }

  // ---------------------------------------------------------------------------
  // arl_recommender

  /** The mask of the rules whose antecedent set holds `productId`. */
  function Mentions(productId: Item): Rule -> bool
  {
    (r: Rule) => productId in r.antecedents
  }

  /** The rules whose antecedent set holds `productId`, in table order. */
  function MatchingRules(s: seq<Rule>, productId: Item): seq<Rule>
  {
    Filter(Mentions(productId), s)
  }

  /** Every rule that will be read by the recommender has a consequent. */
  predicate HasConsequents(s: seq<Rule>, productId: Item)
  {
    forall r :: r in s && productId in r.antecedents ==> |r.consequents| > 0
  }

  /** The full `recommendation_list` the loop builds over the table `s`:
      one entry per matching rule, its first consequent, in table order. */
  function Recommendations(s: seq<Rule>, productId: Item): (r: seq<Item>)
    requires HasConsequents(s, productId)
    ensures |r| == |MatchingRules(s, productId)|
    ensures forall k :: 0 <= k < |r| ==>
      |MatchingRules(s, productId)[k].consequents| > 0 &&
      r[k] == MatchingRules(s, productId)[k].consequents[0]
  {
    if s == [] then []
    else
      var n := |s| - 1;
      assert forall r :: r in s[..n] ==> r in s;
      var front := Recommendations(s[..n], productId);
      MatchingRulesOfSnoc(s, productId);
      front + (if productId in s[n].antecedents then [s[n].consequents[0]] else [])
  }

  lemma MatchingRulesOfSnoc(s: seq<Rule>, productId: Item)
    requires s != []
    ensures MatchingRules(s, productId) ==
      MatchingRules(s[..|s| - 1], productId) + (if productId in s[|s| - 1].antecedents then [s[|s| - 1]] else [])
  {
    var n := |s| - 1;
    assert s == s[..n] + [s[n]];
    FilterConcat(Mentions(productId), s[..n], [s[n]]);
    assert [s[n]][1..] == [];
  }

  /** The inner loop `for j in list(product): if j == product_id: append`:
      since the antecedents form a set, the consequent is appended exactly
      once when `productId` is among them and not at all otherwise. */
  method ScanAntecedents(list: seq<Item>, rule: Rule, productId: Item) returns (list': seq<Item>)
    requires productId in rule.antecedents ==> |rule.consequents| > 0
    ensures list' == list + if productId in rule.antecedents then [rule.consequents[0]] else []
  {
    list' := list;
    var rest := rule.antecedents;
    while rest != {}
      invariant rest <= rule.antecedents
      invariant list' == list + if productId in rule.antecedents - rest then [rule.consequents[0]] else []
      decreases rest
    {
      var j :| j in rest;
      if j == productId {
        list' := list' + [rule.consequents[0]];
      }
      rest := rest - {j};
    }
  }

  /** The outer loop `for i, product in enumerate(sorted_rules["antecedents"])`:
      it builds the full recommendation list over the table `s`. */
  method ScanTable(s: seq<Rule>, productId: Item) returns (list: seq<Item>)
    requires HasConsequents(s, productId)
    ensures list == Recommendations(s, productId)
  {
    list := [];
    for i := 0 to |s|
      invariant list == Recommendations(s[..i], productId)
    {
      list := ScanAntecedents(list, s[i], productId);
      assert s[..i + 1][..i] == s[..i];
    }
    assert s[..|s|] == s;
  }

  /** `item` is the first consequent of a rule of `rules` whose antecedents
      hold `productId`. */
  predicate Recommends(rules: seq<Rule>, productId: Item, item: Item)
  {
    exists r :: r in rules && productId in r.antecedents && |r.consequents| > 0 && item == r.consequents[0]
  }

  /** `arl_recommender(rules_df, product_id, sort_by="lift", rec_count=1)` for
      `rec_count >= 0`: sort, scan, and return the first `rec_count` entries. */
  method ArlRecommender(rules: seq<Rule>, productId: Item, sortBy: Metric := Lift, recCount: nat := 1)
    returns (recs: seq<Item>)
    requires HasConsequents(rules, productId)
    ensures HasConsequents(SortRules(rules, Descending(sortBy)), productId)
    ensures recs == Take(Recommendations(SortRules(rules, Descending(sortBy)), productId), recCount)
    ensures |recs| == Min(recCount, |MatchingRules(rules, productId)|)
    ensures forall k :: 0 <= k < |recs| ==> Recommends(rules, productId, recs[k])
  {
    var sorted := SortRules(rules, Descending(sortBy));
    SortedRulesAreRules(rules, sorted, productId);
    var list := ScanTable(sorted, productId);
    recs := Take(list, recCount);
    FilterPermutation(Mentions(productId), sorted, rules);
    RecommendationsComeFromRules(rules, sorted, productId);
    assert forall k :: 0 <= k < |recs| ==> recs[k] == list[k];
  }

  /** Each entry of the list over a copy of the table is the first consequent
      of a rule of the table whose antecedents hold the product. */
  lemma RecommendationsComeFromRules(rules: seq<Rule>, sorted: seq<Rule>, productId: Item)
    requires forall r :: r in sorted ==> r in rules
    requires HasConsequents(sorted, productId)
    ensures forall k :: 0 <= k < |Recommendations(sorted, productId)| ==>
      Recommends(rules, productId, Recommendations(sorted, productId)[k])
  {
    var list := Recommendations(sorted, productId);
    forall k | 0 <= k < |list|
      ensures Recommends(rules, productId, list[k])
    {
      var m := MatchingRules(sorted, productId)[k];
      assert list[k] == m.consequents[0];
      assert m in sorted && productId in m.antecedents;
    }
  }

  /** A sorted table holds only rows of the original table. */
  lemma SortedRulesAreRules(rules: seq<Rule>, sorted: seq<Rule>, productId: Item)
    requires multiset(sorted) == multiset(rules)
    requires HasConsequents(rules, productId)
    ensures forall r :: r in sorted ==> r in rules
    ensures HasConsequents(sorted, productId)
  {
    forall r | r in sorted ensures r in rules {
      assert r in multiset(sorted);
    }
  }

  /** Whatever tie order the sort produced: the rules behind the recommendation
      list are exactly the matching rules, each once, and they come in
      non-increasing order of the sort metric. */
  lemma RecommendationOrder(rules: seq<Rule>, sorted: seq<Rule>, productId: Item, sortBy: Metric)
    requires multiset(sorted) == multiset(rules)
    requires Sorted(sorted, Descending(sortBy))
    ensures multiset(MatchingRules(sorted, productId)) == multiset(MatchingRules(rules, productId))
    ensures forall i, j :: 0 <= i < j < |MatchingRules(sorted, productId)| ==>
      MetricOf(MatchingRules(sorted, productId)[i], sortBy) >= MetricOf(MatchingRules(sorted, productId)[j], sortBy)
  {
    FilterPermutation(Mentions(productId), sorted, rules);
    FilterKeepsSorted(Mentions(productId), sorted, Descending(sortBy));
  }

  /** A worked example, for any rules of its shape: two rules for item 5 with
      consequents 9 and 7, the first of higher lift, and a rule for another
      item with a higher lift still, recommend [9, 7] for item 5. */
  lemma ExampleRecommendation(a: Rule, b: Rule, c: Rule)
    requires "5" in a.antecedents && "5" in b.antecedents && "5" !in c.antecedents
    requires a.consequents == ["9"] && b.consequents == ["7"]
    requires c.lift > a.lift > b.lift
    ensures SortRules([a, b, c], Descending(Lift)) == [c, a, b]
    ensures Take(Recommendations(SortRules([a, b, c], Descending(Lift)), "5"), 2) == ["9", "7"]
  {
    SortByLiftOfThree(a, b, c);
    ScanOfThree(c, a, b, "5");
  }

  lemma ScanOfThree(x: Rule, y: Rule, z: Rule, item: Item)
    requires item !in x.antecedents && item in y.antecedents && item in z.antecedents
    requires |y.consequents| > 0 && |z.consequents| > 0
    ensures Recommendations([x, y, z], item) == [y.consequents[0], z.consequents[0]]
  {
    assert [x, y, z][..2] == [x, y] && [x, y][..1] == [x] && [x][..0] == [];
    assert Recommendations([x], item) == [];
    assert Recommendations([x, y], item) == [y.consequents[0]];
  }

  lemma SortByLiftOfThree(a: Rule, b: Rule, c: Rule)
    requires c.lift > a.lift > b.lift
    ensures SortRules([a, b, c], Descending(Lift)) == [c, a, b]
  {
    var o := Descending(Lift);
    SortOfTwo(b, c, o);
    InsertIntoTwo(a, c, b, o);
    assert [a, b, c][1..] == [b, c];
  }

  lemma SortOfTwo(x: Rule, y: Rule, o: Order)
    requires !Before(x, y, o)
    ensures SortRules([x, y], o) == [y, x]
  {
    assert [x, y][1..] == [y] && [y][1..] == [];
    assert SortRules([y], o) == [y];
  }

  lemma InsertIntoTwo(x: Rule, y: Rule, z: Rule, o: Order)
    requires Sorted([y, z], o)
    requires !Before(x, y, o) && Before(x, z, o)
    ensures Insert(x, [y, z], o) == [y, x, z]
  {
    assert [y, z][1..] == [z];
    assert Insert(x, [z], o) == [x, z];
  }

  /** The recommender does not remove repeated items: two matching rules with
      the same first consequent give that item twice. */
  lemma RepeatsAreKept(a: Rule, b: Rule, item: Item)
    requires item in a.antecedents && item in b.antecedents
    requires |a.consequents| > 0 && |b.consequents| > 0 && a.consequents[0] == b.consequents[0]
    requires a.lift > b.lift
    ensures SortRules([a, b], Descending(Lift)) == [a, b]
    ensures Take(Recommendations(SortRules([a, b], Descending(Lift)), item), 3) ==
      [a.consequents[0], a.consequents[0]]
  {
    SortOfTwoInOrder(a, b, Descending(Lift));
    ScanOfTwo(a, b, item);
  }

  lemma SortOfTwoInOrder(x: Rule, y: Rule, o: Order)
    requires Before(x, y, o)
    ensures SortRules([x, y], o) == [x, y]
  {
    assert [x, y][1..] == [y] && [y][1..] == [];
    assert SortRules([y], o) == [y];
  }

  lemma ScanOfTwo(x: Rule, y: Rule, item: Item)
    requires item in x.antecedents && item in y.antecedents
    requires |x.consequents| > 0 && |y.consequents| > 0
    ensures Recommendations([x, y], item) == [x.consequents[0], y.consequents[0]]
  {
    assert [x, y][..1] == [x] && [x][..0] == [];
    assert Recommendations([x], item) == [x.consequents[0]];
  }
}
