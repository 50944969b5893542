/**
 * What the coupon schema promises: exactly the coupons it describes are
 * accepted, defaults are filled in, and the date order is reported on
 * `validUntil`.
 */
module CouponSchemaProperties {
  import opened Wrappers
  import opened Text
  import opened Patterns
  import opened Zod
  import opened CouponSchema

  lemma KeyChecksClean(i: CouponInput)
    ensures (forall k :: 0 <= k < |KeyChecks(i)| ==> KeyChecks(i)[k].issues == []) <==>
      && i.code.Some? && 3 <= |i.code.value| <= 20 && CodePattern(i.code.value)
      && i.description.Some? && |i.description.value| >= 10
      && i.kind.Some? && ParseType(i.kind.value).Some?
      && i.value.Some? && i.value.value > 0
      && (i.minOrderAmount.None? || i.minOrderAmount.value >= 0)
      && (i.maxDiscountAmount.None? || i.maxDiscountAmount.value > 0)
      && i.validFrom.Some? && i.validFrom.value.time.Some?
      && i.validUntil.Some? && i.validUntil.value.time.Some?
      && (i.usageLimit.None? || i.usageLimit.value > 0)
      && (i.perUserLimit.None? || i.perUserLimit.value > 0)
      && (i.applicableCategories.None?
          || forall j :: 0 <= j < |i.applicableCategories.value| ==> ParseCategory(i.applicableCategories.value[j]).Some?)
  {
    EveryOfEleven(KeyChecks(i));
    FirstChecksClean(i);
    MiddleChecksClean(i);
    LastChecksClean(i);
  }

  lemma FirstChecksClean(i: CouponInput)
    ensures var c := KeyChecks(i);
      (c[0].issues == [] && c[1].issues == [] && c[2].issues == [] && c[3].issues == []) <==>
      && i.code.Some? && 3 <= |i.code.value| <= 20 && CodePattern(i.code.value)
      && i.description.Some? && |i.description.value| >= 10
      && i.kind.Some? && ParseType(i.kind.value).Some?
      && i.value.Some? && i.value.value > 0
  {
    var c := KeyChecks(i);
    assert c[0] == CheckCode(i.code) && c[1] == CheckDescription(i.description) && c[2] == CheckType(i.kind);
    assert c[3] == CheckPositive(i.value, "value", ValueMessage);
  }

  lemma MiddleChecksClean(i: CouponInput)
    ensures var c := KeyChecks(i);
      (c[4].issues == [] && c[5].issues == [] && c[6].issues == [] && c[7].issues == []) <==>
      && (i.minOrderAmount.None? || i.minOrderAmount.value >= 0)
      && (i.maxDiscountAmount.None? || i.maxDiscountAmount.value > 0)
      && i.validFrom.Some? && i.validFrom.value.time.Some?
      && i.validUntil.Some? && i.validUntil.value.time.Some?
  {
    var c := KeyChecks(i);
    assert c[4] == CheckMinOrder(i.minOrderAmount);
    assert c[5] == CheckPositiveOr(i.maxDiscountAmount, "maxDiscountAmount", MaxDiscountMessage);
    assert c[6] == CheckDate(i.validFrom, "validFrom", ValidFromMessage);
    assert c[7] == CheckDate(i.validUntil, "validUntil", ValidUntilMessage);
  }

  lemma LastChecksClean(i: CouponInput)
    ensures var c := KeyChecks(i);
      (c[8].issues == [] && c[9].issues == [] && c[10].issues == []) <==>
      && (i.usageLimit.None? || i.usageLimit.value > 0)
      && (i.perUserLimit.None? || i.perUserLimit.value > 0)
      && (i.applicableCategories.None?
          || forall j :: 0 <= j < |i.applicableCategories.value| ==> ParseCategory(i.applicableCategories.value[j]).Some?)
  {
    var c := KeyChecks(i);
    assert c[8] == CheckPositiveOr(i.usageLimit, "usageLimit", UsageLimitMessage);
    assert c[9] == CheckPositiveOr(i.perUserLimit, "perUserLimit", PerUserLimitMessage);
    assert c[10] == CheckCategories(i.applicableCategories);
  }

  /** Eleven checks are all clean exactly when each of them is. */
  lemma EveryOfEleven(c: seq<Checked>)
    requires |c| == 11
    ensures (forall k :: 0 <= k < |c| ==> c[k].issues == []) <==>
      && c[0].issues == [] && c[1].issues == [] && c[2].issues == [] && c[3].issues == []
      && c[4].issues == [] && c[5].issues == [] && c[6].issues == [] && c[7].issues == []
      && c[8].issues == [] && c[9].issues == [] && c[10].issues == []
  {
  }

  /** A key with a clean check did not abort the object. */
  lemma CleanNotAborted(i: CouponInput)
    requires forall k :: 0 <= k < |KeyChecks(i)| ==> KeyChecks(i)[k].issues == []
    ensures !AnyAborted(KeyChecks(i))
  {
    KeyChecksClean(i);
    var c := KeyChecks(i);
    assert c[0] == CheckCode(i.code) && c[2] == CheckType(i.kind) && c[3] == CheckPositive(i.value, "value", ValueMessage);
    assert c[6] == CheckDate(i.validFrom, "validFrom", ValidFromMessage);
    assert c[7] == CheckDate(i.validUntil, "validUntil", ValidUntilMessage);
    assert c[10] == CheckCategories(i.applicableCategories);
  }

  /** The schema accepts a body exactly when every key obeys its rule and the dates are in order. */
  lemma CouponAccepted(i: CouponInput)
    ensures ParseCoupon(i).Ok? <==> CouponValid(i)
  {
    var checks := KeyChecks(i);
    ParseOkIff(i);
    KeyChecksClean(i);
    if forall k :: 0 <= k < |checks| ==> checks[k].issues == [] {
      CleanNotAborted(i);
    }
  }

  /** The parse succeeds exactly when neither the keys nor the refinement report an issue. */
  lemma ParseOkIff(i: CouponInput)
    ensures ParseCoupon(i).Ok? <==>
      AllIssues(KeyChecks(i)) == [] && RefineIssues(i, AnyAborted(KeyChecks(i))) == []
  {
  }

  /** An accepted coupon carries the body's values, with 0, 1, 1, true and empty lists standing in for absent keys. */
  lemma CouponDefaults(i: CouponInput, c: Coupon)
    requires ParseCoupon(i) == Ok(c)
    ensures i.code.Some? && i.value.Some?
    ensures c.code == i.code.value && c.value == i.value.value && c.maxDiscountAmount == i.maxDiscountAmount
    ensures i.minOrderAmount.None? ==> c.minOrderAmount == 0
    ensures i.usageLimit.None? ==> c.usageLimit == 1
    ensures i.perUserLimit.None? ==> c.perUserLimit == 1
    ensures i.isActive.None? ==> c.isActive
    ensures i.applicableCategories.None? ==> c.applicableCategories == []
    ensures i.excludedDishes.None? ==> c.excludedDishes == []
  {
    KeyChecksClean(i);
  }

  /** The schema puts no upper bound on a percentage: 150% passes here. */
  lemma PercentageUnbounded(i: CouponInput)
    requires CouponValid(i)
    ensures ParseCoupon(i.(kind := Some("percentage"), value := Some(150))).Ok?
  {
    CouponAccepted(i.(kind := Some("percentage"), value := Some(150)));
  }

  /** Keys in order but dates not: the one issue is the refinement's, on `validUntil`. */
  lemma DateOrderReported(i: CouponInput)
    requires forall k :: 0 <= k < |KeyChecks(i)| ==> KeyChecks(i)[k].issues == []
    requires i.validFrom.Some? && i.validUntil.Some?
    requires !DatesOrdered(i.validFrom.value, i.validUntil.value)
    ensures ParseCoupon(i) == Err([Issue([Key("validUntil")], DateOrderMessage)])
  {
    var checks := KeyChecks(i);
    CleanNotAborted(i);
    assert AllIssues(checks) == [];
    assert RefineIssues(i, AnyAborted(checks)) == [Issue([Key("validUntil")], DateOrderMessage)];
    assert AllIssues(checks) + RefineIssues(i, AnyAborted(checks)) == [Issue([Key("validUntil")], DateOrderMessage)];
  }

  /** An unparseable `validFrom` is reported twice: by its own check, and by the refinement. */
  lemma UnparseableFromReportedTwice(i: CouponInput, text: string)
    requires CouponValid(i)
    ensures var j := i.(validFrom := Some(DateText(text, None)));
      ParseCoupon(j) == Err([Issue([Key("validFrom")], ValidFromMessage), Issue([Key("validUntil")], DateOrderMessage)])
  {
    var j := i.(validFrom := Some(DateText(text, None)));
    var c := KeyChecks(j);
    OnlyValidFromFails(i, text);
    AllIssuesSingle(c, 6);
    assert !AnyAborted(c);
    var issues := AllIssues(c) + RefineIssues(j, AnyAborted(c));
    assert issues == [Issue([Key("validFrom")], ValidFromMessage)] + [Issue([Key("validUntil")], DateOrderMessage)];
    assert ParseCoupon(j) == Err(issues);
    assert issues == [Issue([Key("validFrom")], ValidFromMessage), Issue([Key("validUntil")], DateOrderMessage)];
  }

  /** Of a valid input with `validFrom` made unparseable, only the `validFrom` check fails, and nothing aborts. */
  lemma OnlyValidFromFails(i: CouponInput, text: string)
    requires CouponValid(i)
    ensures var c := KeyChecks(i.(validFrom := Some(DateText(text, None))));
      && (forall k :: 0 <= k < |c| && k != 6 ==> c[k].issues == [] && !c[k].aborted)
      && c[6] == Checked([Issue([Key("validFrom")], ValidFromMessage)], false)
  {
    var j := i.(validFrom := Some(DateText(text, None)));
    KeyChecksClean(i);
    CleanNotAborted(i);
    assert forall k :: 0 <= k < 11 && k != 6 ==> KeyChecks(j)[k] == KeyChecks(i)[k];
  }

  /** The issues of checks that are all clean but one are that one's. */
  lemma {:induction false} AllIssuesSingle(cs: seq<Checked>, k: nat)
    requires k < |cs|
    requires forall m :: 0 <= m < |cs| && m != k ==> cs[m].issues == []
    ensures AllIssues(cs) == cs[k].issues
  {
    if k == 0 {
      assert AllIssues(cs[1..]) == [];
    } else {
      AllIssuesSingle(cs[1..], k - 1);
    }
  }

  /** A missing key aborts the object, so dates out of order go unreported. */
  lemma MissingKeyHidesDateOrder(i: CouponInput)
    requires i.description.None?
    ensures RefineIssues(i, AnyAborted(KeyChecks(i))) == []
  {
    assert KeyChecks(i)[1].aborted;
  }

  /** Every rule failing at `code` at once: a two-letter lower-case code gets both the length and the pattern issue. */
  lemma ShortLowerCodeTwoIssues()
    ensures CheckCode(Some("ab")).issues == [Issue([Key("code")], CodeMinMessage), Issue([Key("code")], CodePatternMessage)]
  {
    assert !CodePattern("ab") by { assert !IsUpperAscii("ab"[0]) && !IsDigit("ab"[0]); }
  }

  /** The apply request needs a code and a positive order amount, and nothing else. */
  lemma ApplyNeedsPositiveAmount(code: string, amount: int)
    ensures ParseApply(ApplyInput(Some(code), Some(amount))).Ok? <==> amount > 0
    ensures ParseApply(ApplyInput(Some(code), None)).Err?
  {
  }
}
