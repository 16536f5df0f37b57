/**
 * The catalogue screen's filter panel: a search text, a category, four optional range bounds and
 * a sort order, applied to the active packages, plus the badge counting the active filters and
 * the discount shown on a package card.
 */
module Catalog {
  import opened Wrappers
  import opened Text
  import opened Numbers
  import opened Seqs
  import opened Entities

  /** The panel's fields, as typed or chosen. */
  datatype Filters = Filters(
    searchQuery: string,
    selectedFilter: string,
    minPrice: string,
    maxPrice: string,
    minAmount: string,
    maxAmount: string,
    sortBy: string)

  /** `original_price` in arithmetic and comparisons: `null` counts as 0. */
  function OriginalOrZero(p: Package): int
  {
    p.originalPrice.GetOr(0)
  }

  /** The price as the number `parseFloat(pkg.price)` reads: cents over a hundred. */
  function PriceValue(p: Package): real
  {
    p.price as real / 100.0
  }

  /** The search keeps a package whose name, description or amount contains the lower-cased query. */
  predicate MatchesSearch(p: Package, query: string)
  {
    var q := ToLower(query);
    Contains(ToLower(p.name), q)
    || (p.description.Some? && Contains(ToLower(p.description.value), q))
    || Contains(IntToString(p.amount), q)
  }

  /** The search stage, which applies only when the query is not blank. */
  predicate KeepSearch(f: Filters, p: Package)
  {
    !IsBlank(f.searchQuery) ==> MatchesSearch(p, f.searchQuery)
  }

  /** The category stage: `popular` keeps featured packages, `discount` the discounted ones. */
  predicate KeepCategory(f: Filters, p: Package)
  {
    if f.selectedFilter == "popular" then p.isFeatured
    else if f.selectedFilter == "discount" then OriginalOrZero(p) > p.price
    else true
  }

  /** A comparison with `NaN` is false: an unreadable bound keeps nothing. */
  predicate AtLeast(v: real, bound: Option<real>)
  {
    bound.Some? && v >= bound.value
  }

  predicate AtMost(v: real, bound: Option<real>)
  {
    bound.Some? && v <= bound.value
  }

  predicate KeepMinPrice(f: Filters, p: Package)
  {
    f.minPrice != "" ==> AtLeast(PriceValue(p), ParseFloat(f.minPrice))
  }

  predicate KeepMaxPrice(f: Filters, p: Package)
  {
    f.maxPrice != "" ==> AtMost(PriceValue(p), ParseFloat(f.maxPrice))
  }

  predicate KeepMinAmount(f: Filters, p: Package)
  {
    f.minAmount != "" ==> var b := ParseInt(f.minAmount); b.Some? && p.amount >= b.value
  }

  predicate KeepMaxAmount(f: Filters, p: Package)
  {
    f.maxAmount != "" ==> var b := ParseInt(f.maxAmount); b.Some? && p.amount <= b.value
  }

  /** A package passes every stage of the pipeline. */
  predicate Matches(f: Filters, p: Package)
  {
    KeepSearch(f, p) && KeepCategory(f, p) && KeepMinPrice(f, p) && KeepMaxPrice(f, p)
    && KeepMinAmount(f, p) && KeepMaxAmount(f, p)
  }

  /** What the discount order compares: `original_price - price`. */
  function DiscountMagnitude(p: Package): int
  {
    OriginalOrZero(p) - p.price
  }

  /** The order of the result: the filtered packages, stably sorted by the chosen key. */
  function SortFor(sortBy: string, ps: seq<Package>): (r: seq<Package>)
    ensures multiset(r) == multiset(ps)
  {
    if sortBy == "amount_desc" then SortBy(ps, (p: Package) => -p.amount)
    else if sortBy == "amount_asc" then SortBy(ps, (p: Package) => p.amount)
    else if sortBy == "price_desc" then SortBy(ps, (p: Package) => -p.price)
    else if sortBy == "price_asc" then SortBy(ps, (p: Package) => p.price)
    else if sortBy == "discount" then SortBy(ps, (p: Package) => -DiscountMagnitude(p))
    else ps
  }

  /** The list the screen shows for `packages` under the filters `f`. */
  function CatalogView(packages: seq<Package>, f: Filters): seq<Package>
  {
    SortFor(f.sortBy, Filter(packages, (p: Package) => Matches(f, p)))
  }

  /** The search stage as the screen runs it: applied only to a non-blank query. */
  function SearchStage(ps: seq<Package>, f: Filters): seq<Package>
  {
    if !IsBlank(f.searchQuery) then Filter(ps, (p: Package) => MatchesSearch(p, f.searchQuery)) else ps
  }

  function CategoryStage(ps: seq<Package>, f: Filters): seq<Package>
  {
    if f.selectedFilter == "popular" then Filter(ps, (p: Package) => p.isFeatured)
    else if f.selectedFilter == "discount" then Filter(ps, (p: Package) => OriginalOrZero(p) > p.price)
    else ps
  }

  function MinPriceStage(ps: seq<Package>, f: Filters): seq<Package>
  {
    if f.minPrice != "" then Filter(ps, (p: Package) => AtLeast(PriceValue(p), ParseFloat(f.minPrice))) else ps
  }

  function MaxPriceStage(ps: seq<Package>, f: Filters): seq<Package>
  {
    if f.maxPrice != "" then Filter(ps, (p: Package) => AtMost(PriceValue(p), ParseFloat(f.maxPrice))) else ps
  }

  function MinAmountStage(ps: seq<Package>, f: Filters): seq<Package>
  {
    if f.minAmount != "" then Filter(ps, (p: Package) => KeepMinAmount(f, p)) else ps
  }

  function MaxAmountStage(ps: seq<Package>, f: Filters): seq<Package>
  {
    if f.maxAmount != "" then Filter(ps, (p: Package) => KeepMaxAmount(f, p)) else ps
  }

  /**
   * `applyFilters`: six filter stages, each applied only when its field is set, then the
   * sort. `CatalogViewSelects` and `SortedMeaning` say what the resulting list holds.
   */
  method ApplyFilters(packages: seq<Package>, f: Filters) returns (filtered: seq<Package>)
    ensures filtered == CatalogView(packages, f)
  {
    filtered := packages;
    filtered := SearchStage(filtered, f);
    filtered := CategoryStage(filtered, f);
    filtered := MinPriceStage(filtered, f);
    filtered := MaxPriceStage(filtered, f);
    filtered := MinAmountStage(filtered, f);
    filtered := MaxAmountStage(filtered, f);
    PipelineSelects(packages, f);
    filtered := SortFor(f.sortBy, filtered);
  }

  /**
   * The list shown holds exactly the packages passing every stage, each as often as in the
   * input; with an unknown sort key it keeps their original order.
   */
  lemma CatalogViewSelects(packages: seq<Package>, f: Filters)
    ensures var v := CatalogView(packages, f);
            && multiset(v) == multiset(Filter(packages, (p: Package) => Matches(f, p)))
            && multiset(v) <= multiset(packages) && |v| <= |packages|
            && (forall i :: 0 <= i < |v| ==> Matches(f, v[i]))
            && (forall p :: p in packages && Matches(f, p) ==> p in v)
            && (f.sortBy !in {"amount_desc", "amount_asc", "price_desc", "price_asc", "discount"} ==>
                  v == Filter(packages, (p: Package) => Matches(f, p)))
  {
    var matches := (p: Package) => Matches(f, p);
    PermutedFilter(packages, matches, CatalogView(packages, f));
  }


  /** Running the six stages one after another keeps exactly the packages that pass them all. */
  lemma {:induction false} PipelineSelects(packages: seq<Package>, f: Filters)
    ensures MaxAmountStage(MinAmountStage(MaxPriceStage(MinPriceStage(CategoryStage(SearchStage(packages, f), f), f), f), f), f)
         == Filter(packages, (p: Package) => Matches(f, p))
  {
    var k1 := (p: Package) => KeepSearch(f, p);
    var k2 := (p: Package) => KeepCategory(f, p);
    var k3 := (p: Package) => KeepMinPrice(f, p);
    var k4 := (p: Package) => KeepMaxPrice(f, p);
    var k5 := (p: Package) => KeepMinAmount(f, p);
    var k6 := (p: Package) => KeepMaxAmount(f, p);
    var u2 := (p: Package) => KeepSearch(f, p) && KeepCategory(f, p);
    var u3 := (p: Package) => KeepSearch(f, p) && KeepCategory(f, p) && KeepMinPrice(f, p);
    var u4 := (p: Package) => KeepSearch(f, p) && KeepCategory(f, p) && KeepMinPrice(f, p) && KeepMaxPrice(f, p);
    var u5 := (p: Package) => KeepSearch(f, p) && KeepCategory(f, p) && KeepMinPrice(f, p) && KeepMaxPrice(f, p)
                              && KeepMinAmount(f, p);
    var u6 := (p: Package) => Matches(f, p);

    var s1 := SearchStage(packages, f);
    assert s1 == Filter(packages, k1) by { SearchStageFilters(packages, f); }
    var s2 := CategoryStage(s1, f);
    assert s2 == Filter(packages, u2) by {
      CategoryStageFilters(s1, f);
      FilterFilter(packages, k1, k2, u2);
    }
    var s3 := MinPriceStage(s2, f);
    assert s3 == Filter(packages, u3) by {
      MinPriceStageFilters(s2, f);
      FilterFilter(packages, u2, k3, u3);
    }
    var s4 := MaxPriceStage(s3, f);
    assert s4 == Filter(packages, u4) by {
      MaxPriceStageFilters(s3, f);
      FilterFilter(packages, u3, k4, u4);
    }
    var s5 := MinAmountStage(s4, f);
    assert s5 == Filter(packages, u5) by {
      MinAmountStageFilters(s4, f);
      FilterFilter(packages, u4, k5, u5);
    }
    var s6 := MaxAmountStage(s5, f);
    assert s6 == Filter(packages, u6) by {
      MaxAmountStageFilters(s5, f);
      FilterFilter(packages, u5, k6, u6);
    }
  }

  lemma SearchStageFilters(ps: seq<Package>, f: Filters)
    ensures SearchStage(ps, f) == Filter(ps, (p: Package) => KeepSearch(f, p))
  {
    if !IsBlank(f.searchQuery) {
      FilterExt(ps, (p: Package) => MatchesSearch(p, f.searchQuery), (p: Package) => KeepSearch(f, p));
    } else {
      FilterAll(ps, (p: Package) => KeepSearch(f, p));
    }
  }

  lemma CategoryStageFilters(ps: seq<Package>, f: Filters)
    ensures CategoryStage(ps, f) == Filter(ps, (p: Package) => KeepCategory(f, p))
  {
    if f.selectedFilter == "popular" {
      FilterExt(ps, (p: Package) => p.isFeatured, (p: Package) => KeepCategory(f, p));
    } else if f.selectedFilter == "discount" {
      FilterExt(ps, (p: Package) => OriginalOrZero(p) > p.price, (p: Package) => KeepCategory(f, p));
    } else {
      FilterAll(ps, (p: Package) => KeepCategory(f, p));
    }
  }

  lemma MinPriceStageFilters(ps: seq<Package>, f: Filters)
    ensures MinPriceStage(ps, f) == Filter(ps, (p: Package) => KeepMinPrice(f, p))
  {
    if f.minPrice != "" {
      FilterExt(ps, (p: Package) => AtLeast(PriceValue(p), ParseFloat(f.minPrice)), (p: Package) => KeepMinPrice(f, p));
    } else {
      FilterAll(ps, (p: Package) => KeepMinPrice(f, p));
    }
  }

  lemma MaxPriceStageFilters(ps: seq<Package>, f: Filters)
    ensures MaxPriceStage(ps, f) == Filter(ps, (p: Package) => KeepMaxPrice(f, p))
  {
    if f.maxPrice != "" {
      FilterExt(ps, (p: Package) => AtMost(PriceValue(p), ParseFloat(f.maxPrice)), (p: Package) => KeepMaxPrice(f, p));
    } else {
      FilterAll(ps, (p: Package) => KeepMaxPrice(f, p));
    }
  }

  lemma MinAmountStageFilters(ps: seq<Package>, f: Filters)
    ensures MinAmountStage(ps, f) == Filter(ps, (p: Package) => KeepMinAmount(f, p))
  {
    if f.minAmount == "" {
      FilterAll(ps, (p: Package) => KeepMinAmount(f, p));
    }
  }

  lemma MaxAmountStageFilters(ps: seq<Package>, f: Filters)
    ensures MaxAmountStage(ps, f) == Filter(ps, (p: Package) => KeepMaxAmount(f, p))
  {
    if f.maxAmount == "" {
      FilterAll(ps, (p: Package) => KeepMaxAmount(f, p));
    }
  }

  /** What each sort order promises about neighbouring positions of the result. */
  lemma SortedMeaning(sortBy: string, ps: seq<Package>)
    ensures var r := SortFor(sortBy, ps);
            && (sortBy == "amount_desc" ==> forall i, j :: 0 <= i < j < |r| ==> r[i].amount >= r[j].amount)
            && (sortBy == "amount_asc" ==> forall i, j :: 0 <= i < j < |r| ==> r[i].amount <= r[j].amount)
            && (sortBy == "price_desc" ==> forall i, j :: 0 <= i < j < |r| ==> r[i].price >= r[j].price)
            && (sortBy == "price_asc" ==> forall i, j :: 0 <= i < j < |r| ==> r[i].price <= r[j].price)
            && (sortBy == "discount" ==>
                  forall i, j :: 0 <= i < j < |r| ==> DiscountMagnitude(r[i]) >= DiscountMagnitude(r[j]))
  {
  }

  /** A range field counts as set once anything is typed into it. */
  predicate Filled(s: string)
  {
    s != ""
  }

  /** What the badge shows: the filled range fields, plus one for a category, plus one for a non-default order. */
  function ActiveFilterCount(f: Filters): nat
  {
    Count([f.minPrice, f.maxPrice, f.minAmount, f.maxAmount], Filled)
    + (if f.selectedFilter != "all" then 1 else 0)
    + (if f.sortBy != "amount_desc" then 1 else 0)
  }

  /** The badge, counted field by field as the screen does. */
  method CountActiveFilters(f: Filters) returns (count: nat)
    ensures count == ActiveFilterCount(f)
    ensures count <= 6
    ensures count == 0 <==> f.minPrice == "" && f.maxPrice == "" && f.minAmount == "" && f.maxAmount == ""
                            && f.selectedFilter == "all" && f.sortBy == "amount_desc"
  {
    count := 0;
    if f.minPrice != "" { count := count + 1; }
    if f.maxPrice != "" { count := count + 1; }
    if f.minAmount != "" { count := count + 1; }
    if f.maxAmount != "" { count := count + 1; }
    if f.selectedFilter != "all" { count := count + 1; }
    if f.sortBy != "amount_desc" { count := count + 1; }
    RangeFieldsFilled(f);
  }

  lemma RangeFieldsFilled(f: Filters)
    ensures Count([f.minPrice, f.maxPrice, f.minAmount, f.maxAmount], Filled)
         == (if f.minPrice != "" then 1 else 0) + (if f.maxPrice != "" then 1 else 0)
            + (if f.minAmount != "" then 1 else 0) + (if f.maxAmount != "" then 1 else 0)
  {
    CountFour(f.minPrice, f.maxPrice, f.minAmount, f.maxAmount, Filled);
  }

  /** `clearFilters`: every field back to its initial value, the search included. */
  function ClearFilters(f: Filters): (r: Filters)
    ensures r.searchQuery == "" && r.minPrice == "" && r.maxPrice == "" && r.minAmount == "" && r.maxAmount == ""
    ensures r.selectedFilter == "all" && r.sortBy == "amount_desc"
  {
    Filters("", "all", "", "", "", "", "amount_desc")
  }

  /** After clearing, no filter is counted and every package is shown, by amount, largest first. */
  lemma ClearedShowsAll(packages: seq<Package>, f: Filters)
    ensures var v := CatalogView(packages, ClearFilters(f));
            multiset(v) == multiset(packages)
            && forall i, j :: 0 <= i < j < |v| ==> v[i].amount >= v[j].amount
  {
    var c := ClearFilters(f);
    assert IsBlank(c.searchQuery);
    FilterAll(packages, (p: Package) => Matches(c, p));
    SortedMeaning(c.sortBy, packages);
  }

  /** The search text is not counted: two panels differing only in it show the same badge. */
  lemma SearchNotCounted(f: Filters, query: string)
    ensures ActiveFilterCount(f.(searchQuery := query)) == ActiveFilterCount(f)
  {
  }

  /** `popular` keeps exactly the featured packages, each as often as it was fetched, whatever the sort. */
  lemma PopularIsFeatured(packages: seq<Package>, f: Filters)
    requires f.selectedFilter == "popular" && IsBlank(f.searchQuery)
    requires f.minPrice == "" && f.maxPrice == "" && f.minAmount == "" && f.maxAmount == ""
    ensures multiset(CatalogView(packages, f)) == multiset(Filter(packages, (p: Package) => p.isFeatured))
  {
    FilterExt(packages, (p: Package) => Matches(f, p), (p: Package) => p.isFeatured);
  }

  /**
   * `Math.round(n / d)` for an exact quotient: the integer `r` with `r - 1/2 <= n / d < r + 1/2`
   * (halves round up), stated without division.
   */
  function RoundHalfUp(n: int, d: int): (r: int)
    requires d != 0
    ensures d > 0 ==> d * (2 * r - 1) <= 2 * n < d * (2 * r + 1)
    ensures d < 0 ==> d * (2 * r - 1) >= 2 * n > d * (2 * r + 1)
  {
    if d > 0 then
      var q := (2 * n + d) / (2 * d);
      EuclidBounds(2 * n + d, 2 * d);
      q
    else
      var q := (-2 * n - d) / (-2 * d);
      EuclidBounds(-2 * n - d, -2 * d);
      q
  }

  lemma EuclidBounds(num: int, den: int)
    requires den > 0
    ensures den * (num / den) <= num < den * (num / den) + den
  {
  }

  /** `getDiscount`: the percentage saved, rounded; `null` when there is no higher original price. */
  function GetDiscount(p: Package): (r: Option<int>)
    ensures r.Some? <==> p.originalPrice.Some? && p.originalPrice.value != 0 && p.originalPrice.value > p.price
    ensures r.Some? && p.originalPrice.value > 0 ==> var op := p.originalPrice.value;
              op * (2 * r.value - 1) <= 200 * (op - p.price) < op * (2 * r.value + 1)
    ensures r.Some? && p.price >= 0 ==> 0 <= r.value <= 100
  {
    if p.originalPrice.None? || p.originalPrice.value == 0 || p.originalPrice.value <= p.price then None
    else
      var op := p.originalPrice.value;
      var v := RoundHalfUp(100 * (op - p.price), op);
      DiscountInRange(op, p.price, v);
      Some(v)
  }

  lemma DiscountInRange(op: int, price: int, v: int)
    requires op != 0 && price < op
    requires op > 0 ==> op * (2 * v - 1) <= 2 * (100 * (op - price)) < op * (2 * v + 1)
    ensures price >= 0 ==> 0 <= v <= 100
  {
    if price >= 0 {
      assert op * (2 * v - 1) <= op * 200;
      FactorLe(op, 2 * v - 1, 200);
      assert op * (2 * v + 1) > op * 0;
      FactorLt(op, 0, 2 * v + 1);
    }
  }

  /** A positive factor can be cancelled from both sides of `<=`. */
  lemma FactorLe(k: int, a: int, b: int)
    requires k > 0 && k * a <= k * b
    ensures a <= b
  {
  }

  /** A positive factor can be cancelled from both sides of `<`. */
  lemma FactorLt(k: int, a: int, b: int)
    requires k > 0 && k * a < k * b
    ensures a < b
  {
  }
}
