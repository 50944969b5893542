/**
 * What the coupon model promises: the percentage cap, the date order, the
 * stored form of the code and one coupon per code, and where it is
 * stricter than the shared schema.
 */
module CouponModelProperties {
  import opened Wrappers
  import opened Text
  import opened Patterns
  import opened UniqueIndex
  import opened CouponModel

  /** `discountValue` fails exactly when it is unset, negative, or a percentage above 100. */
  lemma DiscountValueRule(c: CouponDoc)
    ensures "discountValue" in FailedPaths(c) <==>
      c.discountValue.None? || c.discountValue.value < 0
      || (c.discountType == Some("percentage") && c.discountValue.value > 100)
  {
  }

  /** `validUntil` fails exactly when either date is unset or it is not after `validFrom`. */
  lemma ValidUntilRule(c: CouponDoc)
    ensures "validUntil" in FailedPaths(c) <==>
      c.validUntil.None? || c.validFrom.None? || c.validUntil.value <= c.validFrom.value
  {
  }

  /** A stored code is upper-case and trimmed: no ASCII lower-case letter and no white space at either end. */
  lemma StoredCodeNormal(s: string)
    ensures var r := NormalizeCode(s);
      && (forall i :: 0 <= i < |r| ==> !IsLowerAscii(r[i]))
      && (r != [] ==> !IsJsSpace(r[0]) && !IsJsSpace(r[|r| - 1]))
  {
    TrimUpperCommute(s);
  }

  /** Normalising a stored code again changes nothing. */
  lemma NormalizeCodeIdempotent(s: string)
    ensures NormalizeCode(NormalizeCode(s)) == NormalizeCode(s)
  {
    var t := Trim(Upper(s));
    TrimUpperCommute(t);
    TrimIdempotent(Upper(s));
    TrimUpperCommute(s);
    UpperIdempotent(Trim(s));
  }

  /** A code the shared schema accepts is stored as it was sent. */
  lemma SchemaCodeStoredAsSent(s: string)
    requires CodePattern(s)
    ensures NormalizeCode(s) == s
  {
    assert s[0] == s[0] && (s[0] == ' ' ==> false);
    TrimStartOfClean(s);
    TrimEndOfClean(s);
    assert Upper(s) == s;
  }

  lemma Save10Normal()
    ensures NormalizeCode(" save10 ") == "SAVE10"
  {
    var s := " save10 ";
    var u := " SAVE10 ";
    assert Upper(s) == u by {
      assert forall i :: 0 <= i < |s| ==> Upper(s)[i] == u[i];
    }
    assert IsJsSpace(u[0]) && u[1..] == "SAVE10 ";
    assert !IsJsSpace('S');
    assert TrimStart("SAVE10 ") == "SAVE10 ";
    assert TrimStart(u) == "SAVE10 ";
    var v := "SAVE10 ";
    assert IsJsSpace(v[6]) && v[..6] == "SAVE10";
    assert !IsJsSpace('0');
    assert TrimEnd("SAVE10") == "SAVE10";
    assert TrimEnd(v) == "SAVE10";
  }

  /** A code taken in any letter case or padding is refused with E11000, and nothing changes. */
  lemma CodeVariantRefused(coupons: seq<CouponDoc>, f: CouponFields, now: nat)
    requires Savable(NewCoupon(f, now))
    requires KeyTaken(coupons, CodeKey, NewCoupon(f, now).code)
    ensures CreateSpec(coupons, f, now) == (Err(DuplicateKey(DuplicateKeyCode)), coupons)
  {
  }

  /** " save10 " and "SAVE10" are the same code. */
  lemma PaddedLowerCaseCollides(coupons: seq<CouponDoc>, f: CouponFields, now: nat)
    requires f.code == Some(" save10 ") && Savable(NewCoupon(f, now))
    requires exists k :: 0 <= k < |coupons| && coupons[k].code == Some("SAVE10")
    ensures CreateSpec(coupons, f, now).0 == Err(DuplicateKey(DuplicateKeyCode))
  {
    Save10Normal();
    var k :| 0 <= k < |coupons| && coupons[k].code == Some("SAVE10");
    assert NewCoupon(f, now).code == Some("SAVE10");
    assert KeyTaken(coupons, CodeKey, NewCoupon(f, now).code) by {
      assert CodeKey(coupons[k]) == Some("SAVE10");
    }
    CodeVariantRefused(coupons, f, now);
  }

  /** A created coupon is stored last, and the collection keeps one coupon per code. */
  lemma CreateStores(coupons: seq<CouponDoc>, f: CouponFields, now: nat, c: CouponDoc)
    requires KeysDistinct(coupons, CodeKey)
    requires CreateSpec(coupons, f, now).0 == Ok(c)
    ensures CreateSpec(coupons, f, now).1 == coupons + [c]
    ensures KeysDistinct(coupons + [c], CodeKey)
    ensures Savable(c) && c.code == Some(NormalizeCode(f.code.value))
  {
  }

  /** A percentage above 100 passes the shared schema and is refused here. */
  lemma SchemaLooserOnPercentage(c: CouponDoc)
    requires c.discountType == Some("percentage") && c.discountValue == Some(150)
    ensures !Savable(c)
  {
  }

  /** So is the category 'special', which only the shared schema lists. */
  lemma SpecialCategoryRefused(c: CouponDoc, k: nat)
    requires k < |c.applicableCategories| && c.applicableCategories[k] == "special"
    ensures "applicableCategories" in FailedPaths(c)
  {
  }
}
