/**
 * What the dish listing promises: the page arithmetic, the filter and sort
 * it builds, and a featured selection of the best-rated specials.
 */
module DishControllerProperties {
  import opened Wrappers
  import opened Text
  import opened DishController

  // ---------------------------------------------------------- page numbers

  /** Decimal digits read in base 10 have their decimal value. */
  lemma {:induction false} DigitsInDecimal(s: string)
    requires AllDigits(s)
    ensures forall i :: 0 <= i < |s| ==> DigitIn(s[i], 10).Some?
    ensures DigitsIn(s, 10) == DigitsValue(s)
  {
    if s != [] {
      assert AllDigits(s[..|s| - 1]);
      DigitsInDecimal(s[..|s| - 1]);
    }
  }

  /** A run of decimal digits without a leading zero is read as its value. */
  lemma ParseIntOfDigits(s: string)
    requires s != [] && AllDigits(s) && (|s| > 1 ==> s[0] != '0')
    ensures ParseInt(s) == Finite(DigitsValue(s))
  {
    assert IsDigit(s[0]);
    TrimStartOfClean(s);
    assert !(s[0] == '-' || s[0] == '+');
    assert !(|s| >= 2 && s[0] == '0');
    DigitsInDecimal(s);
    assert DigitRun(s, 10) == |s|;
    assert s[..|s|] == s;
  }

  /** `parseInt` reads back the decimal rendering of a non-negative integer. */
  lemma ParseIntDecimal(n: nat)
    ensures ParseInt(Decimal(n)) == Finite(n)
  {
    ParseIntOfDigits(Decimal(n));
  }

  /** Without `page` and `limit` the first ten are asked for. */
  lemma DefaultPaging(q: DishQueryParams)
    requires q.page.None? && q.limit.None?
    ensures BuildQuery(q).skip == Finite(0) && BuildQuery(q).limit == Finite(10)
  {
  }

  /** `skip` has the value `(page - 1) * limit` for numeric parameters, and is NaN when either is not a number. */
  lemma SkipRule(q: DishQueryParams)
    ensures var page := ParamNumber(q.page, DefaultPage);
      var limit := ParamNumber(q.limit, DefaultLimit);
      && (page.Finite? && limit.Finite? ==> ValueOf(BuildQuery(q).skip) == Some((page.n - 1) * limit.n))
      && (page.NegZero? && limit.Finite? ==> ValueOf(BuildQuery(q).skip) == Some(-limit.n))
      && (limit.NegZero? && !page.NaN? ==> ValueOf(BuildQuery(q).skip) == Some(0))
      && (page.NaN? || limit.NaN? ==> BuildQuery(q).skip == NaN)
  {
    SkipValue(ParamNumber(q.page, DefaultPage), ParamNumber(q.limit, DefaultLimit));
  }

  /** The product rule behind `skip`, for any two numbers. */
  lemma SkipValue(page: Number, limit: Number)
    ensures page.Finite? && limit.Finite? ==> ValueOf(Skip(page, limit)) == Some((page.n - 1) * limit.n)
    ensures page.NegZero? && limit.Finite? ==> ValueOf(Skip(page, limit)) == Some(-limit.n)
    ensures limit.NegZero? && ValueOf(page).Some? ==> ValueOf(Skip(page, limit)) == Some(0)
    ensures page.NaN? || limit.NaN? ==> Skip(page, limit) == NaN
  {
  }

  /** For a positive limit, `totalPages` is the least number of pages of that size holding every dish. */
  lemma TotalPagesCeiling(total: nat, l: int)
    requires l > 0
    ensures TotalPages(total, Finite(l)).Finite?
    ensures var t := TotalPages(total, Finite(l)).n;
      t >= 0 && total <= t * l < total + l
  {
    var x := total + l - 1;
    var t := x / l;
    assert x == t * l + x % l;
  }

  lemma MulLessMonotone(a: int, b: int, l: int)
    requires l > 0 && a < b
    ensures a * l < b * l
  {
    assert b * l - a * l == (b - a) * l;
  }

  /** With a positive limit there is a next page exactly when dishes remain after page `p`. */
  lemma HasNextPageIff(total: nat, p: int, l: int)
    requires l > 0
    ensures PageOf(total, Finite(p), Finite(l)).hasNextPage <==> p * l < total
  {
    TotalPagesCeiling(total, l);
    var t := TotalPages(total, Finite(l)).n;
    if p < t {
      if p < t - 1 {
        MulLessMonotone(p, t - 1, l);
      }
      assert (t - 1) * l == t * l - l;
    } else {
      if t < p {
        MulLessMonotone(t, p, l);
      }
    }
  }

  /** There is a previous page exactly when the parsed page number is above 1. */
  lemma HasPrevPageIff(total: nat, page: Option<string>, limit: Number)
    ensures var p := ParamNumber(page, DefaultPage);
      PageOf(total, p, limit).hasPrevPage <==> p.Finite? && p.n > 1
  {
  }

  /** `limit=0`: `total / 0` is Infinity, and every page claims a next one. */
  lemma ZeroLimitNeverEnds(total: nat, p: int)
    requires total > 0
    ensures PageOf(total, Finite(p), Finite(0)).totalPages == Infinity
    ensures PageOf(total, Finite(p), Finite(0)).hasNextPage
  {
  }

  /** `parseInt` reads "-0", and a minus sign before any run of zeros, as the negative zero. */
  lemma {:induction false} ParseIntNegativeZero(zeros: string)
    requires zeros != [] && forall i :: 0 <= i < |zeros| ==> zeros[i] == '0'
    ensures ParseInt("-" + zeros) == NegZero
  {
    var s := "-" + zeros;
    TrimStartOfClean(s);
    assert s[1..] == zeros;
    assert AllDigits(zeros);
    DigitsInDecimal(zeros);
    ZerosValue(zeros);
    if |zeros| >= 2 {
      assert zeros[1] == '0';
    }
    assert DigitRun(zeros, 10) == |zeros|;
    assert zeros[..|zeros|] == zeros;
  }

  lemma {:induction false} ZerosValue(zeros: string)
    requires forall i :: 0 <= i < |zeros| ==> zeros[i] == '0'
    ensures AllDigits(zeros) && DigitsValue(zeros) == 0
  {
    if zeros != [] {
      ZerosValue(zeros[..|zeros| - 1]);
    }
  }

  /**
   * `limit=-0`: `total / -0` is -Infinity (NaN for no dishes), and no page
   * claims a next one, unlike `limit=0`.
   */
  lemma NegativeZeroLimitEnds(total: nat, page: Number)
    ensures ParamNumber(Some("-0"), DefaultLimit) == NegZero
    ensures total > 0 ==> PageOf(total, page, NegZero).totalPages == NegInfinity
    ensures total == 0 ==> PageOf(total, page, NegZero).totalPages == NaN
    ensures !PageOf(total, page, NegZero).hasNextPage
  {
    ParseIntNegativeZero("0");
    assert "-" + "0" == "-0";
  }

  /** A page that is not a number has neither a next nor a previous page. */
  lemma NaNPageIsolated(total: nat, limit: Number)
    ensures !PageOf(total, NaN, limit).hasNextPage && !PageOf(total, NaN, limit).hasPrevPage
  {
  }

  // -------------------------------------------------------- filter, sort

  /** Every dish the filter selects is available; the diet flags are required exactly for the value 'true'. */
  lemma FilterRules(q: DishQueryParams, d: Dish)
    ensures Matches(BuildFilter(q), d) ==> d.isAvailable
    ensures BuildFilter(q).vegetarian <==> q.isVegetarian == Some("true")
    ensures BuildFilter(q).vegan <==> q.isVegan == Some("true")
    ensures BuildFilter(q).glutenFree <==> q.isGlutenFree == Some("true")
    ensures BuildFilter(q).category.Some? <==> Truthy(q.category)
  {
  }

  /** Descending unless `order` is given and is not 'desc'; by `createdAt` unless `sort` is given. */
  lemma SortRules(q: DishQueryParams)
    ensures BuildSort(q).direction == -1 <==> q.order.None? || q.order == Some("desc")
    ensures BuildSort(q).direction == 1 <==> q.order.Some? && q.order != Some("desc")
    ensures q.sort.None? ==> BuildSort(q).key == "createdAt"
  {
  }

  /** The reply of a listing keeps the database's page and count, and the page parameter as parsed. */
  lemma ListingReply(q: DishQueryParams, items: seq<Dish>, total: nat)
    ensures var (query, reply) := GetAllDishes(q, Ok((items, total)));
      && reply.status == 200 && reply.data.DishPage?
      && reply.data.items == items && reply.data.info.total == total
      && reply.data.info.page == ParamNumber(q.page, DefaultPage)
      && reply.data.info.limit == query.limit
  {
  }

  // -------------------------------------------------------------- featured

  /** The list of candidates holds each available special dish as often as the store does, and nothing else. */
  lemma {:induction false} FeaturableCounts(ds: seq<Dish>, x: Dish)
    ensures multiset(FilterFeaturable(ds))[x] == if Featurable(x) then multiset(ds)[x] else 0
  {
    if ds != [] {
      FeaturableCounts(ds[1..], x);
      assert ds == [ds[0]] + ds[1..];
    }
  }

  /** In a list sorted by rating, whatever follows the first `n` is rated no higher than any of them. */
  lemma LeftOutRatedLower(sorted: seq<Dish>, candidates: seq<Dish>, n: nat)
    requires SortedByRating(sorted) && multiset(sorted) == multiset(candidates) && n <= |sorted|
    ensures multiset(sorted[..n]) <= multiset(candidates)
    ensures forall x :: x in multiset(candidates) - multiset(sorted[..n]) ==>
      forall i :: 0 <= i < |sorted[..n]| ==> x.averageRating <= sorted[..n][i].averageRating
  {
    var r, rest := sorted[..n], sorted[n..];
    assert sorted == r + rest;
    assert multiset(candidates) - multiset(r) == multiset(rest);
    forall x: Dish | x in multiset(rest)
      ensures forall i :: 0 <= i < n ==> x.averageRating <= r[i].averageRating
    {
      var j :| 0 <= j < |rest| && rest[j] == x;
      assert sorted[n + j] == x;
    }
  }

  /** Whatever a permutation of featurable dishes holds is featurable. */
  lemma PermutedFeaturable(sorted: seq<Dish>, candidates: seq<Dish>)
    requires multiset(sorted) == multiset(candidates)
    requires forall i :: 0 <= i < |candidates| ==> Featurable(candidates[i])
    ensures forall i :: 0 <= i < |sorted| ==> Featurable(sorted[i])
  {
    forall i | 0 <= i < |sorted|
      ensures Featurable(sorted[i])
    {
      assert sorted[i] in multiset(sorted);
      var j :| 0 <= j < |candidates| && candidates[j] == sorted[i];
    }
  }

  /** A prefix of a sorted list of featurable dishes is sorted and featurable. */
  lemma SortedPrefix(sorted: seq<Dish>, n: nat)
    requires SortedByRating(sorted) && n <= |sorted|
    requires forall i :: 0 <= i < |sorted| ==> Featurable(sorted[i])
    ensures SortedByRating(sorted[..n])
    ensures forall i :: 0 <= i < |sorted[..n]| ==> Featurable(sorted[..n][i])
  {
  }

  /** The first `n` of a sorted permutation of featurable candidates, as the featured list promises them. */
  predicate TopRated(r: seq<Dish>, candidates: seq<Dish>, n: nat) {
    && (forall i :: 0 <= i < |r| ==> Featurable(r[i]))
    && SortedByRating(r)
    && |r| == n
    && multiset(r) <= multiset(candidates)
    && forall x :: x in multiset(candidates) - multiset(r) ==>
         forall i :: 0 <= i < |r| ==> x.averageRating <= r[i].averageRating
  }

  lemma SortedPrefixTopRated(sorted: seq<Dish>, candidates: seq<Dish>, n: nat)
    requires SortedByRating(sorted) && multiset(sorted) == multiset(candidates) && n <= |sorted|
    requires forall i :: 0 <= i < |candidates| ==> Featurable(candidates[i])
    ensures TopRated(sorted[..n], candidates, n)
  {
    LeftOutRatedLower(sorted, candidates, n);
    PermutedFeaturable(sorted, candidates);
    SortedPrefix(sorted, n);
  }

  /**
   * The featured dishes: available specials only, best rated first, six of
   * them or all there are, and none left out rated above one chosen.
   */
  lemma FeaturedSelection(ds: seq<Dish>)
    ensures TopRated(Featured(ds), FilterFeaturable(ds),
      if |FilterFeaturable(ds)| <= FeaturedCount then |FilterFeaturable(ds)| else FeaturedCount)
  {
    var candidates := FilterFeaturable(ds);
    var sorted := SortByRating(candidates);
    var n := if |sorted| <= FeaturedCount then |sorted| else FeaturedCount;
    assert sorted[..n] == Featured(ds);
    SortedPrefixTopRated(sorted, candidates, n);
  }

  /** Two dishes of equal rating come out of the sort in reverse stored order. */
  lemma TiesReversed(a: Dish, b: Dish)
    requires a.averageRating == b.averageRating
    ensures SortByRating([a, b]) == [b, a]
  {
    assert [a, b][1..] == [b];
    assert [b][1..] == [];
    assert SortByRating([b]) == [b];
  }
}
