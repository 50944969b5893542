/**
 * packages/shared/src/schemas/coupon.ts: `CouponSchema` and
 * `ApplyCouponSchema`.
 *
 * Numbers are integers. A date string arrives together with what
 * `new Date(s).getTime()` makes of it: a time value, or `None` for NaN.
 *
 * Zod checks every key in order and reports every failed check. A missing
 * value or an unknown enum value aborts the object; the object's own
 * refinement (the date order) then does not run. Failed string, number and
 * date checks only mark the object dirty, and the refinement still runs.
 */
module CouponSchema {
  import opened Wrappers
  import opened Text
  import opened Patterns
  import opened Zod

  datatype DateText = DateText(text: string, time: Option<int>)

  datatype CouponType = PercentageType | FixedType

  datatype Category = Appetizer | Main | Dessert | Beverage | Special

  /** The request body, as far as the schema reads it. */
  datatype CouponInput = CouponInput(
    code: Option<string>,
    description: Option<string>,
    kind: Option<string>,
    value: Option<int>,
    minOrderAmount: Option<int>,
    maxDiscountAmount: Option<int>,
    validFrom: Option<DateText>,
    validUntil: Option<DateText>,
    usageLimit: Option<int>,
    perUserLimit: Option<int>,
    isActive: Option<bool>,
    applicableCategories: Option<seq<string>>,
    excludedDishes: Option<seq<string>>)

  /** The parsed coupon, defaults filled in. */
  datatype Coupon = Coupon(
    code: string,
    description: string,
    kind: CouponType,
    value: int,
    minOrderAmount: int,
    maxDiscountAmount: Option<int>,
    validFrom: string,
    validUntil: string,
    usageLimit: int,
    perUserLimit: int,
    isActive: bool,
    applicableCategories: seq<Category>,
    excludedDishes: seq<string>)

  const CodeMinMessage: string := "Coupon code must be at least 3 characters"
  const CodeMaxMessage: string := "Coupon code cannot exceed 20 characters"
  const CodePatternMessage: string := "Coupon code must contain only uppercase letters and numbers"
  const DescriptionMessage: string := "Description must be at least 10 characters"
  const ValueMessage: string := "Coupon value must be positive"
  const MinOrderMessage: string := "Minimum order amount cannot be negative"
  const MaxDiscountMessage: string := "Maximum discount amount must be positive"
  const ValidFromMessage: string := "Invalid valid from date"
  const ValidUntilMessage: string := "Invalid valid until date"
  const UsageLimitMessage: string := "Usage limit must be positive"
  const PerUserLimitMessage: string := "Per user limit must be positive"
  const DateOrderMessage: string := "Valid until date must be after valid from date"
  const OrderAmountMessage: string := "Order amount must be positive"

  /** The issues of one key, and whether they abort the object. */
  datatype Checked = Checked(issues: seq<Issue>, aborted: bool)

  function Dirty(issues: seq<Issue>): Checked {
    Checked(issues, false)
  }

  /** An absent required key: "Required", and the object is aborted. */
  function Missing(key: string): Checked {
    Checked([Issue([Key(key)], RequiredMessage)], true)
  }

  /** Zod's message for a string outside an enum. */
  function EnumMessage(options: string, received: string): string {
    "Invalid enum value. Expected " + options + ", received '" + received + "'"
  }

  const TypeOptions: string := "'percentage' | 'fixed'"
  const CategoryOptions: string := "'appetizer' | 'main' | 'dessert' | 'beverage' | 'special'"

  function ParseType(s: string): Option<CouponType> {
    if s == "percentage" then Some(PercentageType)
    else if s == "fixed" then Some(FixedType)
    else None
  }

  function ParseCategory(s: string): Option<Category> {
    if s == "appetizer" then Some(Appetizer)
    else if s == "main" then Some(Main)
    else if s == "dessert" then Some(Dessert)
    else if s == "beverage" then Some(Beverage)
    else if s == "special" then Some(Special)
    else None
  }

  /** `code`: min 3, max 20 and `^[A-Z0-9]+$`, each reported on its own. */
  function CheckCode(v: Option<string>): (r: Checked)
    ensures r.issues == [] <==> v.Some? && 3 <= |v.value| <= 20 && CodePattern(v.value)
    ensures r.aborted <==> v.None?
  {
    match v
    case None => Missing("code")
    case Some(s) =>
      Dirty(IssueIf(|s| < 3, "code", CodeMinMessage)
          + IssueIf(|s| > 20, "code", CodeMaxMessage)
          + IssueIf(!CodePattern(s), "code", CodePatternMessage))
  }

  /** A number that must be positive when given; `None` means required and missing. */
  function CheckPositive(v: Option<int>, key: string, message: string): (r: Checked)
    ensures r.issues == [] <==> v.Some? && v.value > 0
    ensures r.aborted <==> v.None?
  {
    match v
    case None => Missing(key)
    case Some(n) => Dirty(IssueIf(n <= 0, key, message))
  }

  /** A positive number with a default: absent is fine. */
  function CheckPositiveOr(v: Option<int>, key: string, message: string): (r: Checked)
    ensures r.issues == [] <==> v.None? || v.value > 0
    ensures !r.aborted
  {
    match v
    case None => Dirty([])
    case Some(n) => Dirty(IssueIf(n <= 0, key, message))
  }

  function CheckDate(v: Option<DateText>, key: string, message: string): (r: Checked)
    ensures r.issues == [] <==> v.Some? && v.value.time.Some?
    ensures r.aborted <==> v.None?
  {
    match v
    case None => Missing(key)
    case Some(d) => Dirty(IssueIf(d.time.None?, key, message))
  }

  function CheckType(v: Option<string>): (r: Checked)
    ensures r.issues == [] <==> v.Some? && ParseType(v.value).Some?
    ensures r.aborted <==> r.issues != []
  {
    match v
    case None => Missing("type")
    case Some(s) =>
      if ParseType(s).Some? then Dirty([])
      else Checked([Issue([Key("type")], EnumMessage(TypeOptions, s))], true)
  }

  /** The issues of the elements of `applicableCategories` from `i` on. */
  function CategoryIssues(cs: seq<string>, i: nat): (r: seq<Issue>)
    requires i <= |cs|
    ensures r == [] <==> forall j :: i <= j < |cs| ==> ParseCategory(cs[j]).Some?
    decreases |cs| - i
  {
    if i == |cs| then []
    else
      (if ParseCategory(cs[i]).Some? then []
       else [Issue([Key("applicableCategories"), Index(i)], EnumMessage(CategoryOptions, cs[i]))])
      + CategoryIssues(cs, i + 1)
  }

  function CheckCategories(v: Option<seq<string>>): (r: Checked)
    ensures r.issues == [] <==> v.None? || forall j :: 0 <= j < |v.value| ==> ParseCategory(v.value[j]).Some?
    ensures r.aborted <==> r.issues != []
  {
    match v
    case None => Dirty([])
    case Some(cs) => var issues := CategoryIssues(cs, 0); Checked(issues, issues != [])
  }

  function CheckDescription(v: Option<string>): (r: Checked)
    ensures r.issues == [] <==> v.Some? && |v.value| >= 10
    ensures r.aborted <==> v.None?
  {
    match v
    case None => Missing("description")
    case Some(s) => Dirty(IssueIf(|s| < 10, "description", DescriptionMessage))
  }

  function CheckMinOrder(v: Option<int>): (r: Checked)
    ensures r.issues == [] <==> v.None? || v.value >= 0
    ensures !r.aborted
  {
    match v
    case None => Dirty([])
    case Some(n) => Dirty(IssueIf(n < 0, "minOrderAmount", MinOrderMessage))
  }

  /** The checks of the keys, in the order of the schema. */
  function KeyChecks(i: CouponInput): (r: seq<Checked>)
    ensures |r| == 11
  {
    [ CheckCode(i.code),
      CheckDescription(i.description),
      CheckType(i.kind),
      CheckPositive(i.value, "value", ValueMessage),
      CheckMinOrder(i.minOrderAmount),
      CheckPositiveOr(i.maxDiscountAmount, "maxDiscountAmount", MaxDiscountMessage),
      CheckDate(i.validFrom, "validFrom", ValidFromMessage),
      CheckDate(i.validUntil, "validUntil", ValidUntilMessage),
      CheckPositiveOr(i.usageLimit, "usageLimit", UsageLimitMessage),
      CheckPositiveOr(i.perUserLimit, "perUserLimit", PerUserLimitMessage),
      CheckCategories(i.applicableCategories) ]
  }

  function AllIssues(cs: seq<Checked>): (r: seq<Issue>)
    ensures r == [] <==> forall k :: 0 <= k < |cs| ==> cs[k].issues == []
  {
    if cs == [] then [] else cs[0].issues + AllIssues(cs[1..])
  }

  predicate AnyAborted(cs: seq<Checked>) {
    exists k :: 0 <= k < |cs| && cs[k].aborted
  }

  /** `new Date(validFrom) < new Date(validUntil)`: false when either is NaN. */
  predicate DatesOrdered(from: DateText, until: DateText) {
    from.time.Some? && until.time.Some? && from.time.value < until.time.value
  }

  /** The issue of the refinement, which runs only when no key aborted. */
  function RefineIssues(i: CouponInput, aborted: bool): seq<Issue> {
    if aborted || i.validFrom.None? || i.validUntil.None? then []
    else IssueIf(!DatesOrdered(i.validFrom.value, i.validUntil.value), "validUntil", DateOrderMessage)
  }

  /** The coupon an input without issues describes. */
  function Build(i: CouponInput): Coupon
    requires i.code.Some? && i.description.Some? && i.kind.Some? && ParseType(i.kind.value).Some?
    requires i.value.Some? && i.validFrom.Some? && i.validUntil.Some?
    requires i.applicableCategories.Some? ==>
      forall j :: 0 <= j < |i.applicableCategories.value| ==> ParseCategory(i.applicableCategories.value[j]).Some?
  {
    Coupon(
      i.code.value, i.description.value, ParseType(i.kind.value).value, i.value.value,
      match i.minOrderAmount case None => 0 case Some(n) => n,
      i.maxDiscountAmount,
      i.validFrom.value.text, i.validUntil.value.text,
      match i.usageLimit case None => 1 case Some(n) => n,
      match i.perUserLimit case None => 1 case Some(n) => n,
      match i.isActive case None => true case Some(b) => b,
      match i.applicableCategories
        case None => []
        case Some(cs) => seq(|cs|, j requires 0 <= j < |cs| => ParseCategory(cs[j]).value),
      match i.excludedDishes case None => [] case Some(ds) => ds)
  }

  /** `CouponSchema.safeParse(body)`. */
  function ParseCoupon(i: CouponInput): Result<Coupon, seq<Issue>> {
    var checks := KeyChecks(i);
    var issues := AllIssues(checks) + RefineIssues(i, AnyAborted(checks));
    if issues == [] then
      assert forall k :: 0 <= k < |checks| ==> checks[k].issues == [];
      assert checks[0].issues == [] && checks[1].issues == [] && checks[2].issues == [];
      assert checks[3].issues == [] && checks[6].issues == [] && checks[7].issues == [];
      assert checks[10].issues == [];
      Ok(Build(i))
    else Err(issues)
  }

  /** What the schema demands, key by key. */
  predicate CouponValid(i: CouponInput) {
    && i.code.Some? && 3 <= |i.code.value| <= 20 && CodePattern(i.code.value)
    && i.description.Some? && |i.description.value| >= 10
    && i.kind.Some? && ParseType(i.kind.value).Some?
    && i.value.Some? && i.value.value > 0
    && (i.minOrderAmount.None? || i.minOrderAmount.value >= 0)
    && (i.maxDiscountAmount.None? || i.maxDiscountAmount.value > 0)
    && i.validFrom.Some? && i.validUntil.Some?
    && DatesOrdered(i.validFrom.value, i.validUntil.value)
    && (i.usageLimit.None? || i.usageLimit.value > 0)
    && (i.perUserLimit.None? || i.perUserLimit.value > 0)
    && (i.applicableCategories.None?
        || forall j :: 0 <= j < |i.applicableCategories.value| ==> ParseCategory(i.applicableCategories.value[j]).Some?)
  }

  /** The body of an apply-coupon request. */
  datatype ApplyInput = ApplyInput(code: Option<string>, orderAmount: Option<int>)

  datatype ApplyRequest = ApplyRequest(code: string, orderAmount: int)

  /** `ApplyCouponSchema.safeParse(body)`. */
  function ParseApply(i: ApplyInput): (r: Result<ApplyRequest, seq<Issue>>)
    ensures r.Ok? <==> i.code.Some? && i.orderAmount.Some? && i.orderAmount.value > 0
    ensures r.Ok? ==> r.value == ApplyRequest(i.code.value, i.orderAmount.value)
  {
    var issues :=
      (if i.code.None? then [Issue([Key("code")], RequiredMessage)] else [])
      + CheckPositive(i.orderAmount, "orderAmount", OrderAmountMessage).issues;
    if issues == [] then Ok(ApplyRequest(i.code.value, i.orderAmount.value)) else Err(issues)
  }
}
