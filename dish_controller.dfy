/**
 * controllers/dishController.ts: the list query of `getAllDishes` (page
 * arithmetic, filter and sort), the selection of `getFeaturedDishes`, and
 * the lookup of `getDishById`.
 *
 * The database is a parameter: what `find` and `countDocuments` return for
 * the list, the stored dishes for the other two. JavaScript numbers are
 * taken as exact integers, the negative zero, NaN and the infinities: the
 * rounding of doubles above 2^53 and the overflow of a long digit run to
 * Infinity are not modelled.
 */
module DishController {
  import opened Wrappers
  import opened Text

  /**
   * A JavaScript number as the page arithmetic meets it: an integer
   * (`Finite(0)` is +0), the negative zero, NaN or an infinity.
   */
  datatype Number = Finite(n: int) | NegZero | NaN | Infinity | NegInfinity

  /** The query string of `GET /dishes`; an absent key is `None`. */
  datatype DishQueryParams = DishQueryParams(
    page: Option<string>,
    limit: Option<string>,
    category: Option<string>,
    cuisine: Option<string>,
    isVegetarian: Option<string>,
    isVegan: Option<string>,
    isGlutenFree: Option<string>,
    search: Option<string>,
    sort: Option<string>,
    order: Option<string>)

  /** The filter object: `isAvailable: true` always, the other conditions when present. */
  datatype DishFilter = DishFilter(
    category: Option<string>,
    cuisine: Option<string>,
    vegetarian: bool,
    vegan: bool,
    glutenFree: bool,
    textSearch: Option<string>)

  /** `{ [sort]: order === 'desc' ? -1 : 1 }`. */
  datatype SortSpec = SortSpec(key: string, direction: int)

  /** What is asked of the database. */
  datatype DishQuery = DishQuery(filter: DishFilter, sort: SortSpec, skip: Number, limit: Number)

  datatype Dish = Dish(
    id: string,
    category: string,
    cuisine: string,
    isVegetarian: bool,
    isVegan: bool,
    isGlutenFree: bool,
    isAvailable: bool,
    isSpecial: bool,
    averageRating: int)

  datatype PageInfo = PageInfo(total: nat, page: Number, limit: Number, totalPages: Number, hasNextPage: bool, hasPrevPage: bool)

  datatype DishData = NoData | OneDish(dish: Dish) | DishList(dishes: seq<Dish>) | DishPage(items: seq<Dish>, info: PageInfo)

  /**
   * A JSON reply. Its `statusCode` key repeats the HTTP status; `error` is the
   * thrown error's message, which only a 500 carries.
   */
  datatype DishReply = DishReply(status: nat, success: bool, message: string, data: DishData, error: Option<string>)

  const DefaultPage: nat := 1
  const DefaultLimit: nat := 10
  const FeaturedCount: nat := 6

  // ------------------------------------------------------------ numbers

  function HexValue(c: char): Option<nat> {
    if '0' <= c <= '9' then Some(c as int - '0' as int)
    else if 'a' <= c <= 'f' then Some(c as int - 'a' as int + 10)
    else if 'A' <= c <= 'F' then Some(c as int - 'A' as int + 10)
    else None
  }

  function DigitIn(c: char, radix: nat): Option<nat> {
    match HexValue(c)
    case None => None
    case Some(v) => if v < radix then Some(v) else None
  }

  /** The length of the longest prefix of `s` made of digits in `radix`. */
  function DigitRun(s: string, radix: nat): (k: nat)
    ensures k <= |s|
    ensures forall i :: 0 <= i < k ==> DigitIn(s[i], radix).Some?
    ensures k < |s| ==> DigitIn(s[k], radix).None?
  {
    if s == [] || DigitIn(s[0], radix).None? then 0 else 1 + DigitRun(s[1..], radix)
  }

  /** The value of digits in `radix`, most significant first. */
  function DigitsIn(s: string, radix: nat): nat
    requires forall i :: 0 <= i < |s| ==> DigitIn(s[i], radix).Some?
  {
    if s == [] then 0
    else
      var init := s[..|s| - 1];
      assert forall i :: 0 <= i < |init| ==> init[i] == s[i];
      var high: nat := DigitsIn(init, radix);
      var low: nat := DigitIn(s[|s| - 1], radix).value;
      ProductNonNegative(radix, high);
      radix * high + low
  }

  lemma ProductNonNegative(a: nat, b: nat)
    ensures a * b >= 0
  {
  }

  /** The value of the longest run of digits in `radix` that heads `digits`, if there is one. */
  function LeadingValue(digits: string, radix: nat): Option<nat> {
    var k := DigitRun(digits, radix);
    if k == 0 then None
    else
      var run := digits[..k];
      assert forall i :: 0 <= i < |run| ==> DigitIn(run[i], radix).Some?;
      Some(DigitsIn(run, radix))
  }

  /** An unsigned number: hexadecimal after "0x" or "0X", decimal otherwise. */
  function LeadingNumber(u: string): Option<nat> {
    if |u| >= 2 && u[0] == '0' && (u[1] == 'x' || u[1] == 'X') then LeadingValue(u[2..], 16)
    else LeadingValue(u, 10)
  }

  /**
   * `parseInt(s)` without a radix: leading white space skipped, an optional
   * sign, then the longest run of digits; none at all is NaN. A minus sign
   * before a zero value gives the negative zero.
   */
  function ParseInt(s: string): (r: Number)
    ensures r.Finite? || r.NaN? || r.NegZero?
    ensures r.NegZero? || (r.Finite? && r.n < 0) ==> TrimStart(s) != [] && TrimStart(s)[0] == '-'
  {
    var t := TrimStart(s);
    var negative := t != [] && t[0] == '-';
    var u := if t != [] && (t[0] == '-' || t[0] == '+') then t[1..] else t;
    match LeadingNumber(u)
    case None => NaN
    case Some(v) =>
      if negative && v == 0 then NegZero else Finite(if negative then -(v as int) else v)
  }

  /** `parseInt(page)` where `page` defaults to the number 1 (and `limit` to 10). */
  function ParamNumber(v: Option<string>, default: nat): Number {
    match v
    case None => Finite(default)
    case Some(s) => ParseInt(s)
  }

  /** The value of a finite number, both zeros being 0. */
  function ValueOf(x: Number): Option<int> {
    match x
    case Finite(n) => Some(n)
    case NegZero => Some(0)
    case _ => None
  }

  /** The sign bit: set for the negative numbers, the negative zero and -Infinity. */
  predicate SignBit(x: Number) {
    (x.Finite? && x.n < 0) || x.NegZero? || x.NegInfinity?
  }

  predicate IsZero(x: Number) {
    x == Finite(0) || x.NegZero?
  }

  /** `x - 1`. */
  function MinusOne(x: Number): Number {
    match x
    case Finite(n) => Finite(n - 1)
    case NegZero => Finite(-1)
    case _ => x
  }

  /** `a * b` on the numbers above: the sign of a zero or an infinite product is the exclusive or of the signs. */
  function Times(a: Number, b: Number): Number {
    var negative := SignBit(a) != SignBit(b);
    if a.NaN? || b.NaN? then NaN
    else if a.Infinity? || a.NegInfinity? || b.Infinity? || b.NegInfinity? then
      if IsZero(a) || IsZero(b) then NaN
      else if negative then NegInfinity else Infinity
    else
      var v := ValueOf(a).value * ValueOf(b).value;
      if v != 0 then Finite(v)
      else if negative then NegZero else Finite(0)
  }

  /** `(pageNumber - 1) * limitNumber`. */
  function Skip(page: Number, limit: Number): Number {
    Times(MinusOne(page), limit)
  }

  /**
   * `Math.ceil(total / limitNumber)`: a ceiling above -1 and below 0 is the
   * negative zero, and dividing by a zero gives an infinity of the zero's sign
   * (NaN for `0 / 0`).
   */
  function TotalPages(total: nat, limit: Number): Number {
    match limit
    case Finite(l) =>
      if l > 0 then Finite((total + l - 1) / l)
      else if l < 0 then (if total < -l then NegZero else Finite(-(total / -l)))
      else if total == 0 then NaN
      else Infinity
    case NegZero => if total == 0 then NaN else NegInfinity
    case Infinity => Finite(0)
    case NegInfinity => NegZero
    case NaN => NaN
  }

  /** JavaScript `a < b`, the two zeros being equal; false whenever NaN is involved. */
  predicate Less(a: Number, b: Number) {
    match (a, b)
    case (NaN, _) => false
    case (_, NaN) => false
    case (NegInfinity, _) => !b.NegInfinity?
    case (_, Infinity) => !a.Infinity?
    case (Infinity, _) => false
    case (_, NegInfinity) => false
    case _ => ValueOf(a).value < ValueOf(b).value
  }

  // ----------------------------------------------------------------- list

  /** A query value is used when it is a non-empty string. */
  function Present(v: Option<string>): Option<string> {
    if Truthy(v) then v else None
  }

  function BuildFilter(q: DishQueryParams): DishFilter {
    DishFilter(
      Present(q.category), Present(q.cuisine),
      q.isVegetarian == Some("true"), q.isVegan == Some("true"), q.isGlutenFree == Some("true"),
      Present(q.search))
  }

  function BuildSort(q: DishQueryParams): SortSpec {
    SortSpec(match q.sort case None => "createdAt" case Some(s) => s,
             if q.order.None? || q.order == Some("desc") then -1 else 1)
  }

  function BuildQuery(q: DishQueryParams): DishQuery {
    var page := ParamNumber(q.page, DefaultPage);
    var limit := ParamNumber(q.limit, DefaultLimit);
    DishQuery(BuildFilter(q), BuildSort(q), Skip(page, limit), limit)
  }

  /** A dish the filter's field conditions select (the text search is left to the database). */
  predicate Matches(f: DishFilter, d: Dish) {
    && d.isAvailable
    && (f.category.None? || d.category == f.category.value)
    && (f.cuisine.None? || d.cuisine == f.cuisine.value)
    && (f.vegetarian ==> d.isVegetarian)
    && (f.vegan ==> d.isVegan)
    && (f.glutenFree ==> d.isGlutenFree)
  }

  function PageOf(total: nat, page: Number, limit: Number): PageInfo {
    var totalPages := TotalPages(total, limit);
    PageInfo(total, page, limit, totalPages, Less(page, totalPages), Less(Finite(1), page))
  }

  /** `getAllDishes`: the query sent, and the reply for what the database answered (the page and the count, or an error). */
  function GetAllDishes(q: DishQueryParams, found: Result<(seq<Dish>, nat), string>): (r: (DishQuery, DishReply))
    ensures r.1.status == 500 <==> found.Err?
    ensures found.Err? ==> r.1 == DishReply(500, false, "Failed to retrieve dishes", NoData, Some(found.error))
    ensures r.1.status == 200 ==> r.1.success && r.1.error.None?
  {
    var query := BuildQuery(q);
    var page := ParamNumber(q.page, DefaultPage);
    match found
    case Err(e) => (query, DishReply(500, false, "Failed to retrieve dishes", NoData, Some(e)))
    case Ok((items, total)) =>
      (query, DishReply(200, true, "Dishes retrieved successfully", DishPage(items, PageOf(total, page, query.limit)), None))
  }

  // ------------------------------------------------------------- featured

  predicate Featurable(d: Dish) {
    d.isAvailable && d.isSpecial
  }

  function FilterFeaturable(ds: seq<Dish>): (r: seq<Dish>)
    ensures forall i :: 0 <= i < |r| ==> Featurable(r[i])
    ensures multiset(r) <= multiset(ds)
  {
    if ds == [] then []
    else
      assert ds == [ds[0]] + ds[1..];
      (if Featurable(ds[0]) then [ds[0]] else []) + FilterFeaturable(ds[1..])
  }

  predicate SortedByRating(ds: seq<Dish>) {
    forall i, j :: 0 <= i < j < |ds| ==> ds[i].averageRating >= ds[j].averageRating
  }

  /** `d` put in place in a list sorted by rating, after the dishes rated as high or higher. */
  function InsertByRating(d: Dish, ds: seq<Dish>): (r: seq<Dish>)
    requires SortedByRating(ds)
    ensures SortedByRating(r)
    ensures multiset(r) == multiset(ds) + multiset{d}
  {
    if ds == [] || ds[0].averageRating < d.averageRating then [d] + ds
    else
      var rest := InsertByRating(d, ds[1..]);
      assert ds == [ds[0]] + ds[1..];
      RatedAtMostFirst(ds, d, rest);
      ConsSorted(ds[0], rest);
      [ds[0]] + rest
  }

  /** A dish rated at least as high as every one of a sorted list can head it. */
  lemma ConsSorted(h: Dish, rest: seq<Dish>)
    requires SortedByRating(rest)
    requires forall i :: 0 <= i < |rest| ==> rest[i].averageRating <= h.averageRating
    ensures SortedByRating([h] + rest)
  {
  }

  /** What is inserted behind the head of a sorted list is rated no higher than the head. */
  lemma RatedAtMostFirst(ds: seq<Dish>, d: Dish, rest: seq<Dish>)
    requires SortedByRating(ds) && ds != [] && d.averageRating <= ds[0].averageRating
    requires multiset(rest) == multiset(ds[1..]) + multiset{d}
    ensures forall i :: 0 <= i < |rest| ==> rest[i].averageRating <= ds[0].averageRating
  {
    forall i | 0 <= i < |rest|
      ensures rest[i].averageRating <= ds[0].averageRating
    {
      assert rest[i] in multiset(rest);
      if rest[i] != d {
        assert rest[i] in multiset(ds[1..]);
        var j :| 0 <= j < |ds[1..]| && ds[1..][j] == rest[i];
        assert ds[j + 1] == rest[i];
      }
    }
  }

  /** `.sort({ averageRating: -1 })`. */
  function SortByRating(ds: seq<Dish>): (r: seq<Dish>)
    ensures SortedByRating(r)
    ensures multiset(r) == multiset(ds)
  {
    if ds == [] then []
    else
      assert ds == [ds[0]] + ds[1..];
      InsertByRating(ds[0], SortByRating(ds[1..]))
  }

  /** `Dish.find({isAvailable: true, isSpecial: true}).sort({averageRating: -1}).limit(6)`. */
  function Featured(ds: seq<Dish>): seq<Dish> {
    var sorted := SortByRating(FilterFeaturable(ds));
    if |sorted| <= FeaturedCount then sorted else sorted[..FeaturedCount]
  }

  function GetFeaturedDishes(ds: Result<seq<Dish>, string>): (r: DishReply)
    ensures r.status == 500 <==> ds.Err?
    ensures ds.Err? ==> r == DishReply(500, false, "Failed to retrieve featured dishes", NoData, Some(ds.error))
    ensures ds.Ok? ==> r.success && r.error.None? && r.data.DishList? && |r.data.dishes| <= FeaturedCount
  {
    match ds
    case Err(e) => DishReply(500, false, "Failed to retrieve featured dishes", NoData, Some(e))
    case Ok(stored) => DishReply(200, true, "Featured dishes retrieved successfully", DishList(Featured(stored)), None)
  }

  // ---------------------------------------------------------------- by id

  function FindDish(ds: seq<Dish>, id: string): (r: Option<Dish>)
    ensures r.Some? ==> r.value in ds && r.value.id == id
    ensures r.None? <==> forall i :: 0 <= i < |ds| ==> ds[i].id != id
  {
    if ds == [] then None
    else if ds[0].id == id then Some(ds[0])
    else FindDish(ds[1..], id)
  }

  /**
   * `getDishById`: `castError` is the message of the CastError thrown by an
   * id that does not cast to an ObjectId, and the catch answers 500 with it.
   */
  function GetDishById(ds: seq<Dish>, id: string, castError: Option<string>): (r: DishReply)
    ensures r.status == 404 <==> castError.None? && forall i :: 0 <= i < |ds| ==> ds[i].id != id
    ensures r.status == 404 ==> r == DishReply(404, false, "Dish not found", NoData, None)
    ensures r.status == 200 ==> r.data.OneDish? && r.data.dish in ds && r.data.dish.id == id && r.error.None?
    ensures r.status == 500 <==> castError.Some?
    ensures castError.Some? ==> r == DishReply(500, false, "Failed to retrieve dish", NoData, castError)
  {
    if castError.Some? then DishReply(500, false, "Failed to retrieve dish", NoData, castError)
    else
      match FindDish(ds, id)
      case None => DishReply(404, false, "Dish not found", NoData, None)
      case Some(d) => DishReply(200, true, "Dish retrieved successfully", OneDish(d), None)
  }
}
