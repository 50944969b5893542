/**
 * models/Coupon.ts: the coupon document, its setters, defaults and
 * validators, and the unique index on `code`.
 *
 * Dates are time values (`None` when unset); numbers are integers. As in
 * Mongoose, a validator other than `required` is skipped for an unset value,
 * and a required string must be non-empty.
 */
module CouponModel {
  import opened Wrappers
  import opened Text
  import opened Patterns
  import opened UniqueIndex

  /** The fields a new coupon is built from. */
  datatype CouponFields = CouponFields(
    code: Option<string>,
    description: Option<string>,
    discountType: Option<string>,
    discountValue: Option<int>,
    minOrderAmount: Option<int>,
    maxDiscount: Option<int>,
    usageLimit: Option<int>,
    usedCount: Option<int>,
    isActive: Option<bool>,
    validFrom: Option<int>,
    validUntil: Option<int>,
    applicableCategories: seq<string>)

  datatype CouponDoc = CouponDoc(
    code: Option<string>,
    description: Option<string>,
    discountType: Option<string>,
    discountValue: Option<int>,
    minOrderAmount: Option<int>,
    maxDiscount: Option<int>,
    usageLimit: Option<int>,
    usedCount: int,
    isActive: bool,
    validFrom: Option<int>,
    validUntil: Option<int>,
    applicableCategories: seq<string>,
    createdAt: nat,
    updatedAt: nat)

  /** The `uppercase` and then the `trim` setter of `code`. */
  function NormalizeCode(s: string): (r: string)
    ensures r == Upper(Trim(s))
    ensures |r| <= |s|
  {
    TrimUpperCommute(s);
    Trim(Upper(s))
  }

  /** `new CouponModel(fields)`: setters applied, `usedCount` 0 and `isActive` true unless given. */
  function NewCoupon(f: CouponFields, now: nat): (c: CouponDoc)
    ensures f.code.Some? <==> c.code.Some?
    ensures f.code.Some? ==> c.code.value == NormalizeCode(f.code.value)
    ensures f.usedCount.None? ==> c.usedCount == 0
    ensures f.isActive.None? ==> c.isActive
  {
    CouponDoc(
      match f.code case None => None case Some(s) => Some(NormalizeCode(s)),
      f.description, f.discountType, f.discountValue, f.minOrderAmount, f.maxDiscount, f.usageLimit,
      match f.usedCount case None => 0 case Some(n) => n,
      match f.isActive case None => true case Some(b) => b,
      f.validFrom, f.validUntil, f.applicableCategories, now, now)
  }

  predicate RequiredString(s: Option<string>) {
    s.Some? && s.value != ""
  }

  /** A limit that applies only when the value is set. */
  predicate AtLeast(v: Option<int>, min: int) {
    v.None? || v.value >= min
  }

  /** The `discountValue` validator: a percentage cannot exceed 100. */
  predicate DiscountValueValidator(discountType: Option<string>, value: int) {
    discountType == Some("percentage") ==> value <= 100
  }

  /** The `validUntil` validator: `value > this.validFrom`, false when `validFrom` is unset. */
  predicate ValidUntilValidator(validFrom: Option<int>, value: int) {
    validFrom.Some? && value > validFrom.value
  }

  predicate ModelCategory(s: string) {
    s == "appetizer" || s == "main" || s == "dessert" || s == "beverage"
  }

  /** The paths whose validators fail, in the order of the schema. */
  function FailedPaths(c: CouponDoc): (r: seq<string>)
    ensures r == [] <==> Savable(c)
  {
    (if !RequiredString(c.code) || !(3 <= |c.code.value| <= 20) then ["code"] else [])
    + (if !RequiredString(c.description) || |c.description.value| > 200 then ["description"] else [])
    + (if c.discountType.None? || !(c.discountType.value in {"percentage", "fixed"}) then ["discountType"] else [])
    + (if c.discountValue.None? || c.discountValue.value < 0
          || !DiscountValueValidator(c.discountType, c.discountValue.value) then ["discountValue"] else [])
    + (if !AtLeast(c.minOrderAmount, 0) then ["minOrderAmount"] else [])
    + (if !AtLeast(c.maxDiscount, 0) then ["maxDiscount"] else [])
    + (if !AtLeast(c.usageLimit, 1) then ["usageLimit"] else [])
    + (if c.usedCount < 0 then ["usedCount"] else [])
    + (if c.validFrom.None? then ["validFrom"] else [])
    + (if c.validUntil.None? || !ValidUntilValidator(c.validFrom, c.validUntil.value) then ["validUntil"] else [])
    + (if forall k :: 0 <= k < |c.applicableCategories| ==> ModelCategory(c.applicableCategories[k]) then []
       else ["applicableCategories"])
  }

  /** Every validator passes. */
  predicate Savable(c: CouponDoc) {
    && RequiredString(c.code) && 3 <= |c.code.value| <= 20
    && RequiredString(c.description) && |c.description.value| <= 200
    && (c.discountType == Some("percentage") || c.discountType == Some("fixed"))
    && c.discountValue.Some? && c.discountValue.value >= 0
    && (c.discountType == Some("percentage") ==> c.discountValue.value <= 100)
    && AtLeast(c.minOrderAmount, 0) && AtLeast(c.maxDiscount, 0) && AtLeast(c.usageLimit, 1)
    && c.usedCount >= 0
    && c.validFrom.Some? && c.validUntil.Some? && c.validUntil.value > c.validFrom.value
    && forall k :: 0 <= k < |c.applicableCategories| ==> ModelCategory(c.applicableCategories[k])
  }

  /** What a save can fail with. */
  datatype SaveError = ValidationFailed(paths: seq<string>) | DuplicateKey(code: nat)

  function CodeKey(c: CouponDoc): Option<string> {
    c.code
  }

  /** `CouponModel.create(fields)`: validation, then insertion under the unique `code` index. */
  function CreateSpec(coupons: seq<CouponDoc>, f: CouponFields, now: nat): (Result<CouponDoc, SaveError>, seq<CouponDoc>) {
    var c := NewCoupon(f, now);
    var failed := FailedPaths(c);
    if failed != [] then (Err(ValidationFailed(failed)), coupons)
    else
      match Insert(coupons, CodeKey, c)
      case None => (Err(DuplicateKey(DuplicateKeyCode)), coupons)
      case Some(after) => (Ok(c), after)
  }

  /** The coupons collection. */
  class CouponCollection {
    var coupons: seq<CouponDoc>

    /** The unique index holds, and only valid documents are stored. */
    ghost predicate Valid()
      reads this
    {
      && KeysDistinct(coupons, CodeKey)
      && forall k :: 0 <= k < |coupons| ==> Savable(coupons[k])
    }

    constructor()
      ensures Valid() && coupons == []
    {
      coupons := [];
    }

    method Create(f: CouponFields, now: nat) returns (r: Result<CouponDoc, SaveError>)
      requires Valid()
      modifies this
      ensures Valid()
      ensures (r, coupons) == CreateSpec(old(coupons), f, now)
    {
      var c := NewCoupon(f, now);
      var failed := FailedPaths(c);
      if failed != [] {
        return Err(ValidationFailed(failed));
      }
      var inserted := Insert(coupons, CodeKey, c);
      if inserted.None? {
        return Err(DuplicateKey(DuplicateKeyCode));
      }
      StoredStaySavable(coupons, c);
      coupons := inserted.value;
      r := Ok(c);
    }
  }

  lemma StoredStaySavable(coupons: seq<CouponDoc>, c: CouponDoc)
    requires forall k :: 0 <= k < |coupons| ==> Savable(coupons[k])
    requires Savable(c)
    ensures forall k :: 0 <= k < |coupons + [c]| ==> Savable((coupons + [c])[k])
  {
  }
}
