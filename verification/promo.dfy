/**
 * The promo-code engine of routes/promo.js: the public validation endpoint
 * (an ordered chain of rejections followed by the discount arithmetic), the
 * admin create/update/patch/delete rules, the admin listing, and the usage
 * counter that is bumped after an order.
 *
 * Money is `real`, time is an `int` passed in as `now`. The stored optional
 * limits are read by JavaScript truthiness, so a limit, minimum or cap of
 * zero behaves exactly like one that is not set.
 */
module Promo {
  import opened Js
  import opened Text
  import opened Ordering

  const Percentage := "percentage"
  const Fixed := "fixed"

  /** A row of the promo-code table. `discountType` is free text in the table:
      create admits only "percentage" and "fixed", but update and patch store
      whatever they are sent. */
  datatype PromoCode = PromoCode(
    id: int,
    code: string,
    discountType: string,
    discountValue: real,
    minPurchase: Option<real>,
    maxDiscount: Option<real>,
    usageLimit: Option<int>,
    usageCount: int,
    startDate: Option<int>,
    endDate: Option<int>,
    enabled: bool,
    createdAt: int)

  type PromoTable = map<int, PromoCode>

  /** Every row is stored under its own id and no two rows share a code (the
      unique constraint on `code`). */
  ghost predicate Valid(t: PromoTable) {
    && (forall id :: id in t ==> t[id].id == id)
    && (forall a, b :: a in t && b in t && t[a].code == t[b].code ==> a == b)
  }

  ghost predicate CodeTaken(t: PromoTable, code: string) {
    exists id :: id in t && t[id].code == code
  }

  /** `findUnique({ where: { code } })` */
  function FindByCode(t: PromoTable, code: string): (r: Option<PromoCode>)
    requires Valid(t)
    ensures r.Some? <==> CodeTaken(t, code)
    ensures r.Some? ==> r.value.id in t && t[r.value.id] == r.value && r.value.code == code
  {
    if exists id | id in t :: t[id].code == code then
      var id :| id in t && t[id].code == code;
      Some(t[id])
    else
      None
  }

  // ---------------------------------------------------------------------
  // Validation (POST /validate)
  // ---------------------------------------------------------------------

  /** Why a code was refused, in the order the handler checks. */
  datatype Rejection =
    | CodeRequired
    | NotFound
    | Inactive
    | NotYetValid
    | Expired
    | UsageLimitReached
    | BelowMinimum(minimum: real)
  {
    function Status(): int {
      if NotFound? then 404 else 400
    }

    /** The `error` text of the response; the minimum is shown through the
        `toLocaleString('id-ID')` rendering passed as `formatIdr`. */
    function Message(formatIdr: real -> string): string {
      match this
      case CodeRequired => "Promo code is required"
      case NotFound => "Kode promo tidak ditemukan"
      case Inactive => "Kode promo tidak aktif"
      case NotYetValid => "Kode promo belum berlaku"
      case Expired => "Kode promo sudah kadaluarsa"
      case UsageLimitReached => "Kode promo sudah mencapai batas penggunaan"
      case BelowMinimum(m) => "Minimum pembelian Rp " + formatIdr(m) + " untuk kode ini"
    }
  }

  /** The body of a successful validation. */
  datatype Quote = Quote(
    code: string,
    discountType: string,
    discountValue: real,
    discountAmount: real,
    originalPrice: real,
    finalPrice: real)

  datatype Validation = Accepted(quote: Quote) | Rejected(reason: Rejection)

  predicate Started(p: PromoCode, now: int) {
    !(p.startDate.Some? && now < p.startDate.value)
  }

  predicate NotEnded(p: PromoCode, now: int) {
    !(p.endDate.Some? && now > p.endDate.value)
  }

  predicate UsageAvailable(p: PromoCode) {
    !(IsSetInt(p.usageLimit) && p.usageCount >= p.usageLimit.value)
  }

  predicate MeetsMinimum(p: PromoCode, price: real) {
    !(IsSetReal(p.minPurchase) && price < p.minPurchase.value)
  }

  /** The discount before it is clamped to the price: a percentage of the price,
      replaced by a set cap it exceeds, or the fixed amount. Any type other than
      "percentage" is treated as fixed. */
  function UncappedDiscount(p: PromoCode, price: real): real {
    if p.discountType == Percentage then
      var pct := price * p.discountValue / 100.0;
      if IsSetReal(p.maxDiscount) && pct > p.maxDiscount.value then p.maxDiscount.value else pct
    else
      p.discountValue
  }

  /** The discount amount: never more than the price. */
  function Discount(p: PromoCode, price: real): (d: real)
    ensures d <= price
    ensures d == price || d == UncappedDiscount(p, price)
    ensures UncappedDiscount(p, price) <= price ==> d == UncappedDiscount(p, price)
  {
    var raw := UncappedDiscount(p, price);
    if raw > price then price else raw
  }

  /** The checks a found code must pass, in the handler's order, each paired
      with the rejection it raises. */
  function Checks(p: PromoCode, price: real, now: int): seq<(bool, Rejection)> {
    [ (p.enabled, Inactive),
      (Started(p, now), NotYetValid),
      (NotEnded(p, now), Expired),
      (UsageAvailable(p), UsageLimitReached),
      (MeetsMinimum(p, price), BelowMinimum(p.minPurchase.GetOr(0.0))) ]
  }

  /** The rejection of the first failing check, if any. */
  function FirstFailure(checks: seq<(bool, Rejection)>): Option<Rejection> {
    if |checks| == 0 then None
    else if !checks[0].0 then Some(checks[0].1)
    else FirstFailure(checks[1..])
  }

  function QuoteFor(p: PromoCode, price: real): Quote {
    var d := Discount(p, price);
    Quote(p.code, p.discountType, p.discountValue, d, price, price - d)
  }

  /** The checks of the handler on a found code, with the coerced price. */
  function Judge(p: PromoCode, price: real, now: int): (v: Validation)
    ensures v.Accepted? <==>
      p.enabled && Started(p, now) && NotEnded(p, now) && UsageAvailable(p) && MeetsMinimum(p, price)
    ensures v.Accepted? ==> v.quote.code == p.code && v.quote.originalPrice == price
    ensures v.Accepted? ==> 0.0 <= v.quote.finalPrice && v.quote.discountAmount <= price
    ensures v.Accepted? ==> v.quote.finalPrice == price - v.quote.discountAmount
  {
    if !p.enabled then Rejected(Inactive)
    else if p.startDate.Some? && now < p.startDate.value then Rejected(NotYetValid)
    else if p.endDate.Some? && now > p.endDate.value then Rejected(Expired)
    else if IsSetInt(p.usageLimit) && p.usageCount >= p.usageLimit.value then Rejected(UsageLimitReached)
    else if IsSetReal(p.minPurchase) && price < p.minPurchase.value then Rejected(BelowMinimum(p.minPurchase.value))
    else Accepted(QuoteFor(p, price))
  }

  /** POST /validate with body `{code, price}` at time `now`. */
  function Validate(t: PromoTable, code: Field<string>, price: Numeric, now: int): (v: Validation)
    requires Valid(t)
    ensures !TruthyText(code) ==> v == Rejected(CodeRequired)
    ensures TruthyText(code) && !CodeTaken(t, Upper(code.value)) ==> v == Rejected(NotFound)
    ensures TruthyText(code) && CodeTaken(t, Upper(code.value)) ==>
      v == Judge(FindByCode(t, Upper(code.value)).value, NumberOrZero(price), now)
    ensures v.Accepted? ==> 0.0 <= v.quote.finalPrice
    ensures v.Accepted? ==> v.quote.discountAmount <= v.quote.originalPrice
    ensures v.Accepted? ==> v.quote.finalPrice == v.quote.originalPrice - v.quote.discountAmount
    ensures v.Accepted? ==> v.quote.originalPrice == NumberOrZero(price)
    ensures v.Accepted? ==> v.quote.code == Upper(code.value)
  {
    if !TruthyText(code) then Rejected(CodeRequired)
    else
      match FindByCode(t, Upper(code.value))
      case None => Rejected(NotFound)
      case Some(p) => Judge(p, NumberOrZero(price), now)
  }

  /** A found code is judged by the first failing check in the fixed order
      enabled, start date, end date, usage limit, minimum purchase; when none
      fails the quote is computed from the promo and the price. */
  lemma JudgeIsFirstFailure(p: PromoCode, price: real, now: int)
    ensures match FirstFailure(Checks(p, price, now))
            case Some(reason) => Judge(p, price, now) == Rejected(reason)
            case None => Judge(p, price, now) == Accepted(QuoteFor(p, price))
  {
    var c := Checks(p, price, now);
    var c4 := [c[4]];
    var c3 := [c[3]] + c4;
    var c2 := [c[2]] + c3;
    var c1 := [c[1]] + c2;
    assert c == [c[0]] + c1;
    assert c1[1..] == c2 && c2[1..] == c3 && c3[1..] == c4 && c4[1..] == [];
    assert FirstFailure(c4) == if !c[4].0 then Some(c[4].1) else None;
    assert FirstFailure(c3) == if !c[3].0 then Some(c[3].1) else FirstFailure(c4);
    assert FirstFailure(c2) == if !c[2].0 then Some(c[2].1) else FirstFailure(c3);
    assert FirstFailure(c1) == if !c[1].0 then Some(c[1].1) else FirstFailure(c2);
    assert FirstFailure(c) == if !c[0].0 then Some(c[0].1) else FirstFailure(c1);
  }

  /** The date window is inclusive at both ends: a code that passes its other
      checks is accepted exactly when `startDate <= now <= endDate` (each bound
      only when set). */
  lemma DateWindowInclusive(p: PromoCode, price: real, now: int)
    requires p.enabled && UsageAvailable(p) && MeetsMinimum(p, price)
    ensures Judge(p, price, now).Accepted? <==>
      (p.startDate.None? || p.startDate.value <= now) && (p.endDate.None? || now <= p.endDate.value)
  {
  }

  /** Replacing a row by one with the same code changes the outcome of a
      validation only for that code, which is then judged on the new row. */
  lemma ValidateAfterReplace(t: PromoTable, id: int, q: PromoCode, code: Field<string>, price: Numeric, now: int)
    requires Valid(t) && id in t && q.id == id && q.code == t[id].code
    ensures Valid(t[id := q])
    ensures Validate(t[id := q], code, price, now) ==
      if TruthyText(code) && Upper(code.value) == q.code then Judge(q, NumberOrZero(price), now)
      else Validate(t, code, price, now)
  {
    RecodeKeepsValid(t, id, q);
    var t' := t[id := q];
    if TruthyText(code) {
      var c := Upper(code.value);
      if c == q.code {
        assert t'[id].code == c;
        assert FindByCode(t', c).value.id == id;
      } else {
        if CodeTaken(t, c) {
          var r := FindByCode(t, c).value;
          assert t'[r.id].code == c;
          assert FindByCode(t', c) == Some(r);
        }
        if CodeTaken(t', c) {
          var r := FindByCode(t', c).value;
          assert t[r.id].code == c;
        }
      }
    }
  }

  /** Two rows with the same id and code that judge the price alike give the
      same validation in place of the stored row. */
  lemma SameJudgeSameValidate(t: PromoTable, id: int, p: PromoCode, q: PromoCode,
                              code: Field<string>, price: Numeric, now: int)
    requires Valid(t) && id in t
    requires p.id == id && p.code == t[id].code && q.id == id && q.code == t[id].code
    requires Judge(p, NumberOrZero(price), now) == Judge(q, NumberOrZero(price), now)
    ensures Validate(t[id := p], code, price, now) == Validate(t[id := q], code, price, now)
  {
    ValidateAfterReplace(t, id, p, code, price, now);
    ValidateAfterReplace(t, id, q, code, price, now);
  }

  /** A stored usage limit of zero behaves exactly like one that is not set. */
  lemma ZeroLimitMeansUnset(t: PromoTable, id: int, code: Field<string>, price: Numeric, now: int)
    requires Valid(t) && id in t
    ensures var p := t[id];
            Validate(t[id := p.(usageLimit := Some(0))], code, price, now)
              == Validate(t[id := p.(usageLimit := None)], code, price, now)
  {
    var p := t[id];
    var x := NumberOrZero(price);
    assert Judge(p.(usageLimit := Some(0)), x, now) == Judge(p.(usageLimit := None), x, now);
    SameJudgeSameValidate(t, id, p.(usageLimit := Some(0)), p.(usageLimit := None), code, price, now);
  }

  /** A stored minimum purchase of zero behaves exactly like one that is not set. */
  lemma ZeroMinimumMeansUnset(t: PromoTable, id: int, code: Field<string>, price: Numeric, now: int)
    requires Valid(t) && id in t
    ensures var p := t[id];
            Validate(t[id := p.(minPurchase := Some(0.0))], code, price, now)
              == Validate(t[id := p.(minPurchase := None)], code, price, now)
  {
    var p := t[id];
    var x := NumberOrZero(price);
    assert Judge(p.(minPurchase := Some(0.0)), x, now) == Judge(p.(minPurchase := None), x, now);
    SameJudgeSameValidate(t, id, p.(minPurchase := Some(0.0)), p.(minPurchase := None), code, price, now);
  }

  /** A stored discount cap of zero behaves exactly like one that is not set. */
  lemma ZeroCapMeansUnset(t: PromoTable, id: int, code: Field<string>, price: Numeric, now: int)
    requires Valid(t) && id in t
    ensures var p := t[id];
            Validate(t[id := p.(maxDiscount := Some(0.0))], code, price, now)
              == Validate(t[id := p.(maxDiscount := None)], code, price, now)
  {
    var p := t[id];
    var x := NumberOrZero(price);
    assert Judge(p.(maxDiscount := Some(0.0)), x, now) == Judge(p.(maxDiscount := None), x, now);
    SameJudgeSameValidate(t, id, p.(maxDiscount := Some(0.0)), p.(maxDiscount := None), code, price, now);
  }

  /** With a non-negative price, value and cap the discount lies between zero
      and the price, and so does the final price. */
  lemma QuoteBounds(t: PromoTable, code: Field<string>, price: Numeric, now: int)
    requires Valid(t)
    requires NumberOrZero(price) >= 0.0
    requires forall id :: id in t ==> t[id].discountValue >= 0.0
    requires forall id :: id in t && t[id].maxDiscount.Some? ==> t[id].maxDiscount.value >= 0.0
    ensures var v := Validate(t, code, price, now);
            v.Accepted? ==>
              && 0.0 <= v.quote.discountAmount <= v.quote.originalPrice
              && 0.0 <= v.quote.finalPrice <= v.quote.originalPrice
  {
    var v := Validate(t, code, price, now);
    if v.Accepted? {
      var p := FindByCode(t, Upper(code.value)).value;
      assert p == t[p.id];
      var x := NumberOrZero(price);
      assert 0.0 <= x * p.discountValue;
    }
  }

  /** A percentage promo of at most 100% takes `min(price * value / 100, cap)`
      off, the cap only when set; a fixed promo takes `min(value, price)`. */
  lemma DiscountFormula(p: PromoCode, price: real)
    requires price >= 0.0
    ensures p.discountType == Percentage && 0.0 <= p.discountValue <= 100.0 ==>
      var pct := price * p.discountValue / 100.0;
      Discount(p, price) == if IsSetReal(p.maxDiscount) && p.maxDiscount.value < pct then p.maxDiscount.value else pct
    ensures p.discountType != Percentage ==>
      Discount(p, price) == if p.discountValue < price then p.discountValue else price
  {
    if p.discountType == Percentage && 0.0 <= p.discountValue <= 100.0 {
      var pct := price * p.discountValue / 100.0;
      assert price * p.discountValue <= price * 100.0;
      assert pct <= price;
      if IsSetReal(p.maxDiscount) && p.maxDiscount.value < pct {
        assert UncappedDiscount(p, price) == p.maxDiscount.value;
      } else {
        assert UncappedDiscount(p, price) == pct;
      }
    }
  }

  /** A cap below zero is honoured as written: 10% off 100000 with a cap of
      -5000 yields a discount of -5000 and a final price of 105000. */
  lemma NegativeCapRaisesPrice()
    ensures var p := PromoCode(1, "NEG", Percentage, 10.0, None, Some(-5000.0), None, 0, None, None, true, 0);
            var q := QuoteFor(p, 100000.0);
            q.discountAmount == -5000.0 && q.finalPrice == 105000.0
  {
  }

  /** SAVE10: 10% capped at 5000 on 100000 gives 5000 off and 95000 to pay. */
  lemma ExampleCappedPercentage()
    ensures var p := PromoCode(1, "SAVE10", Percentage, 10.0, None, Some(5000.0), None, 0, None, None, true, 0);
            Validate(map[1 := p], Given("save10"), Num(100000.0), 0)
              == Accepted(Quote("SAVE10", Percentage, 10.0, 5000.0, 100000.0, 95000.0))
  {
    var p := PromoCode(1, "SAVE10", Percentage, 10.0, None, Some(5000.0), None, 0, None, None, true, 0);
    assert Upper("save10") == "SAVE10";
    assert map[1 := p][1].code == "SAVE10";
    assert FindByCode(map[1 := p], "SAVE10") == Some(p);
  }

  /** FLAT20K: 20000 off a 15000 price is clamped to 15000, leaving 0 to pay. */
  lemma ExampleClampedFixed()
    ensures var p := PromoCode(2, "FLAT20K", Fixed, 20000.0, None, None, None, 0, None, None, true, 0);
            Validate(map[2 := p], Given("FLAT20K"), Num(15000.0), 0)
              == Accepted(Quote("FLAT20K", Fixed, 20000.0, 15000.0, 15000.0, 0.0))
  {
    var p := PromoCode(2, "FLAT20K", Fixed, 20000.0, None, None, None, 0, None, None, true, 0);
    assert Upper("FLAT20K") == "FLAT20K";
    assert map[2 := p][2].code == "FLAT20K";
    assert FindByCode(map[2 := p], "FLAT20K") == Some(p);
  }

  // ---------------------------------------------------------------------
  // Admin create, update, patch, delete
  // ---------------------------------------------------------------------

  /** A promo request body. Numbers arrive already parsed; dates as timestamps
      (a date string that was sent is non-empty, hence truthy); `enabled` as a
      boolean. */
  datatype PromoInput = PromoInput(
    code: Field<string>,
    discountType: Field<string>,
    discountValue: Option<real>,
    minPurchase: Field<real>,
    maxDiscount: Field<real>,
    usageLimit: Field<int>,
    startDate: Field<int>,
    endDate: Field<int>,
    enabled: Option<bool>)

  /** POST / : the new row is stored under the fresh id `nextId` at time `now`. */
  function Create(t: PromoTable, b: PromoInput, nextId: int, now: int): (r: Response<(PromoTable, PromoCode)>)
    requires Valid(t) && nextId !in t
    ensures r.Ok? <==>
      && TruthyText(b.code) && TruthyText(b.discountType) && b.discountValue.Some?
      && b.discountType.value in {Percentage, Fixed}
      && !CodeTaken(t, Upper(b.code.value))
    ensures r.Fail? ==> r.status == 400
    ensures r.Ok? ==>
      var (t', p) := r.value;
      && t' == t[nextId := p]
      && p.id == nextId
      && p.code == Upper(b.code.value)
      && p.discountType == b.discountType.value
      && p.discountValue == b.discountValue.value
      && p.minPurchase == RealOrNull(b.minPurchase)
      && p.maxDiscount == RealOrNull(b.maxDiscount)
      && p.usageLimit == IntOrNull(b.usageLimit)
      && p.startDate == ValueOrNull(b.startDate)
      && p.endDate == ValueOrNull(b.endDate)
      && p.usageCount == 0
      && p.enabled == (b.enabled != Some(false))
      && Valid(t')
  {
    if !TruthyText(b.code) || !TruthyText(b.discountType) || b.discountValue.None? then
      Fail(400, "Code, discount type, and discount value are required")
    else if b.discountType.value !in {Percentage, Fixed} then
      Fail(400, "Discount type must be \"percentage\" or \"fixed\"")
    else if FindByCode(t, Upper(b.code.value)).Some? then
      Fail(400, "Promo code already exists")
    else
      var p := PromoCode(
        nextId, Upper(b.code.value), b.discountType.value, b.discountValue.value,
        RealOrNull(b.minPurchase), RealOrNull(b.maxDiscount), IntOrNull(b.usageLimit),
        0, ValueOrNull(b.startDate), ValueOrNull(b.endDate), b.enabled != Some(false), now);
      Ok((t[nextId := p], p))
  }

  /** What PUT writes: every field falls back to the stored value when it is
      left out, and the code, type and value also when they are falsy. The id,
      the usage count and the creation time are never written. */
  ghost predicate UpdateApplied(e: PromoCode, b: PromoInput, p: PromoCode) {
    && p.id == e.id && p.usageCount == e.usageCount && p.createdAt == e.createdAt
    && p.code == (if TruthyText(b.code) then Upper(b.code.value) else e.code)
    && p.discountType == (if TruthyText(b.discountType) then b.discountType.value else e.discountType)
    && p.discountValue == (if b.discountValue.Some? then b.discountValue.value else e.discountValue)
    && p.minPurchase == (if b.minPurchase.Absent? then e.minPurchase else RealOrNull(b.minPurchase))
    && p.maxDiscount == (if b.maxDiscount.Absent? then e.maxDiscount else RealOrNull(b.maxDiscount))
    && p.usageLimit == (if b.usageLimit.Absent? then e.usageLimit else IntOrNull(b.usageLimit))
    && p.startDate == (if b.startDate.Absent? then e.startDate else ValueOrNull(b.startDate))
    && p.endDate == (if b.endDate.Absent? then e.endDate else ValueOrNull(b.endDate))
    && p.enabled == (if b.enabled.Some? then b.enabled.value else e.enabled)
  }

  /** What PATCH writes: exactly the fields present in the body. */
  ghost predicate PatchApplied(e: PromoCode, b: PromoInput, p: PromoCode) {
    && p.id == e.id && p.usageCount == e.usageCount && p.createdAt == e.createdAt
    && p.code == (if b.code.Given? then Upper(b.code.value) else e.code)
    && p.discountType == (if b.discountType.Given? then b.discountType.value else e.discountType)
    && p.discountValue == (if b.discountValue.Some? then b.discountValue.value else e.discountValue)
    && p.minPurchase == (if b.minPurchase.Absent? then e.minPurchase else RealOrNull(b.minPurchase))
    && p.maxDiscount == (if b.maxDiscount.Absent? then e.maxDiscount else RealOrNull(b.maxDiscount))
    && p.usageLimit == (if b.usageLimit.Absent? then e.usageLimit else IntOrNull(b.usageLimit))
    && p.startDate == (if b.startDate.Absent? then e.startDate else ValueOrNull(b.startDate))
    && p.endDate == (if b.endDate.Absent? then e.endDate else ValueOrNull(b.endDate))
    && p.enabled == (if b.enabled.Some? then b.enabled.value else e.enabled)
  }

  /** The optional columns after a write that keeps left-out fields. */
  function WriteOptionals(e: PromoCode, b: PromoInput): PromoCode {
    e.(
      discountValue := b.discountValue.GetOr(e.discountValue),
      minPurchase := if b.minPurchase.Defined() then RealOrNull(b.minPurchase) else e.minPurchase,
      maxDiscount := if b.maxDiscount.Defined() then RealOrNull(b.maxDiscount) else e.maxDiscount,
      usageLimit := if b.usageLimit.Defined() then IntOrNull(b.usageLimit) else e.usageLimit,
      startDate := if b.startDate.Defined() then ValueOrNull(b.startDate) else e.startDate,
      endDate := if b.endDate.Defined() then ValueOrNull(b.endDate) else e.endDate,
      enabled := b.enabled.GetOr(e.enabled))
  }

  /** PUT /:id */
  function Update(t: PromoTable, id: int, b: PromoInput): (r: Response<(PromoTable, PromoCode)>)
    requires Valid(t)
    ensures id !in t ==> r == Fail(404, "Promo code not found")
    ensures id in t && TruthyText(b.code) && Upper(b.code.value) != t[id].code && CodeTaken(t, Upper(b.code.value))
            ==> r == Fail(400, "Promo code already exists")
    ensures r.Ok? <==> id in t && !(TruthyText(b.code) && Upper(b.code.value) != t[id].code
                                    && CodeTaken(t, Upper(b.code.value)))
    ensures r.Fail? ==> r.status in {400, 404}
    ensures r.Ok? ==> id in t && r.value.0 == t[id := r.value.1] && Valid(r.value.0)
    ensures r.Ok? ==> UpdateApplied(t[id], b, r.value.1)
  {
    if id !in t then Fail(404, "Promo code not found")
    else
      var e := t[id];
      if TruthyText(b.code) && Upper(b.code.value) != e.code && FindByCode(t, Upper(b.code.value)).Some? then
        Fail(400, "Promo code already exists")
      else
        var p := WriteOptionals(e, b).(
          code := if TruthyText(b.code) then Upper(b.code.value) else e.code,
          discountType := TextOr(b.discountType, e.discountType));
        RecodeKeepsValid(t, id, p);
        Ok((t[id := p], p))
  }

  /** Replacing row `id` keeps the table valid when the new code is the old one
      or is not taken. */
  lemma RecodeKeepsValid(t: PromoTable, id: int, p: PromoCode)
    requires Valid(t) && id in t && p.id == id
    requires p.code == t[id].code || !CodeTaken(t, p.code)
    ensures Valid(t[id := p])
  {
    var t' := t[id := p];
    forall a, b | a in t' && b in t' && t'[a].code == t'[b].code ensures a == b {
      if a != id && b != id {
        assert t[a].code == t[b].code;
      }
    }
  }

  /** Whether a body names any field PATCH would write. */
  predicate HasPatchField(b: PromoInput) {
    || b.code.Defined() || b.discountType.Defined() || b.discountValue.Some?
    || b.minPurchase.Defined() || b.maxDiscount.Defined() || b.usageLimit.Defined()
    || b.startDate.Defined() || b.endDate.Defined() || b.enabled.Some?
  }

  /** PATCH /:id : only the fields present in the body are written. A `null`
      code makes `toUpperCase` throw and a `null` discount type is refused by
      the required column; both end in 500. */
  function Patch(t: PromoTable, id: int, b: PromoInput): (r: Response<(PromoTable, PromoCode)>)
    requires Valid(t)
    ensures id !in t ==> r == Fail(404, "Promo code not found")
    ensures id in t && !HasPatchField(b) ==> r == Fail(400, "No fields provided for update")
    ensures id in t && b.code.Given? && Upper(b.code.value) != t[id].code && CodeTaken(t, Upper(b.code.value))
            ==> r == Fail(400, "Promo code already exists")
    ensures id in t && b.code.Null? ==> r == Fail(500, InternalError)
    ensures (&& id in t && !b.code.Null?
             && !(b.code.Given? && Upper(b.code.value) != t[id].code && CodeTaken(t, Upper(b.code.value)))
             && HasPatchField(b) && b.discountType.Null?)
            ==> r == Fail(500, InternalError)
    ensures r.Ok? <==>
      && id in t && !b.code.Null?
      && !(b.code.Given? && Upper(b.code.value) != t[id].code && CodeTaken(t, Upper(b.code.value)))
      && HasPatchField(b) && !b.discountType.Null?
    ensures r.Ok? ==> id in t && r.value.0 == t[id := r.value.1] && Valid(r.value.0)
    ensures r.Ok? ==> PatchApplied(t[id], b, r.value.1)
  {
    if id !in t then Fail(404, "Promo code not found")
    else
      var e := t[id];
      if b.code.Null? then Fail(500, InternalError)
      else if b.code.Given? && Upper(b.code.value) != e.code && FindByCode(t, Upper(b.code.value)).Some? then
        Fail(400, "Promo code already exists")
      else if !HasPatchField(b) then Fail(400, "No fields provided for update")
      else if b.discountType.Null? then Fail(500, InternalError)
      else
        var p := WriteOptionals(e, b).(
          code := if b.code.Given? then Upper(b.code.value) else e.code,
          discountType := if b.discountType.Given? then b.discountType.value else e.discountType);
        RecodeKeepsValid(t, id, p);
        Ok((t[id := p], p))
  }

  /** Re-sending a PATCH body that succeeded changes nothing more. */
  lemma PatchIdempotent(t: PromoTable, id: int, b: PromoInput)
    requires Valid(t) && Patch(t, id, b).Ok?
    ensures Patch(Patch(t, id, b).value.0, id, b) == Patch(t, id, b)
  {
    var (t', p) := Patch(t, id, b).value;
    if b.code.Given? {
      UpperIdempotent(b.code.value);
    }
    var (t'', p') := Patch(t', id, b).value;
    assert p' == p;
    assert t'' == t';
  }

  /** A PATCH leaves every other row untouched. */
  lemma PatchKeepsOtherRows(t: PromoTable, id: int, b: PromoInput, other: int)
    requires Valid(t) && Patch(t, id, b).Ok?
    requires other in t && other != id
    ensures other in Patch(t, id, b).value.0 && Patch(t, id, b).value.0[other] == t[other]
  {
  }

  /** DELETE /:id */
  function Delete(t: PromoTable, id: int): (r: Response<PromoTable>)
    ensures id !in t <==> r == Fail(404, "Promo code not found")
    ensures r.Ok? ==> r.value.Keys == t.Keys - {id}
    ensures r.Ok? ==> forall k :: k in r.value ==> r.value[k] == t[k]
  {
    if id !in t then Fail(404, "Promo code not found") else Ok(t - {id})
  }

  // ---------------------------------------------------------------------
  // Usage counter
  // ---------------------------------------------------------------------

  /** `incrementPromoUsage(code)`: adds one to the usage count of the row with
      the upper-cased code; an unknown code makes the update fail, which is
      logged and swallowed, so the table is unchanged. */
  function IncrementUsage(t: PromoTable, code: string): (t': PromoTable)
    requires Valid(t)
    ensures Valid(t')
    ensures t'.Keys == t.Keys
    ensures forall id :: id in t && t[id].code != Upper(code) ==> t'[id] == t[id]
    ensures forall id :: id in t && t[id].code == Upper(code) ==>
      t'[id] == t[id].(usageCount := t[id].usageCount + 1)
  {
    match FindByCode(t, Upper(code))
    case None => t
    case Some(p) =>
      RecodeKeepsValid(t, p.id, p.(usageCount := p.usageCount + 1));
      t[p.id := p.(usageCount := p.usageCount + 1)]
  }

  /** Once the redemption that reaches the limit is counted, the code is
      refused with "usage limit reached" (before that it was accepted). */
  lemma IncrementReachesLimit(t: PromoTable, code: string, price: Numeric, now: int)
    requires Valid(t) && code != ""
    requires Validate(t, Given(code), price, now).Accepted?
    requires var p := FindByCode(t, Upper(code)).value;
             IsSetInt(p.usageLimit) && p.usageCount + 1 == p.usageLimit.value
    ensures Validate(IncrementUsage(t, code), Given(code), price, now) == Rejected(UsageLimitReached)
  {
    var p := FindByCode(t, Upper(code)).value;
    var t' := IncrementUsage(t, code);
    assert t'[p.id].code == Upper(code);
    assert FindByCode(t', Upper(code)).value.id == p.id;
  }

  // ---------------------------------------------------------------------
  // Admin reads
  // ---------------------------------------------------------------------

  /** The JSON shape sent to the admin pages (`transformPromo`). */
  datatype PromoView = PromoView(
    id: int,
    code: string,
    discountType: string,
    discountValue: real,
    minPurchase: Option<real>,
    maxDiscount: Option<real>,
    usageLimit: Option<int>,
    usageCount: int,
    startDate: Option<int>,
    endDate: Option<int>,
    enabled: bool)

  /** `transformPromo`: a zero minimum or cap is reported as null, like one
      that is not set. */
  function ToView(p: PromoCode): (v: PromoView)
    ensures v.id == p.id && v.code == p.code
    ensures v.discountType == p.discountType && v.discountValue == p.discountValue
    ensures v.minPurchase.Some? <==> IsSetReal(p.minPurchase)
    ensures v.maxDiscount.Some? <==> IsSetReal(p.maxDiscount)
    ensures v.minPurchase.Some? ==> v.minPurchase == p.minPurchase
    ensures v.maxDiscount.Some? ==> v.maxDiscount == p.maxDiscount
    ensures v.usageLimit == p.usageLimit && v.usageCount == p.usageCount
    ensures v.startDate == p.startDate && v.endDate == p.endDate && v.enabled == p.enabled
  {
    PromoView(
      p.id, p.code, p.discountType, p.discountValue,
      if IsSetReal(p.minPurchase) then p.minPurchase else None,
      if IsSetReal(p.maxDiscount) then p.maxDiscount else None,
      p.usageLimit, p.usageCount, p.startDate, p.endDate, p.enabled)
  }

  /** GET /:id */
  function Get(t: PromoTable, id: int): (r: Response<PromoView>)
    ensures id !in t <==> r == Fail(404, "Promo code not found")
    ensures r.Ok? ==> r.value == ToView(t[id])
  {
    if id !in t then Fail(404, "Promo code not found") else Ok(ToView(t[id]))
  }

  /** GET / : every promo once, newest `createdAt` first. */
  method List(t: PromoTable) returns (r: seq<PromoView>)
    requires Valid(t)
    ensures forall i :: 0 <= i < |r| ==> r[i].id in t && r[i] == ToView(t[r[i].id])
    ensures forall id :: id in t <==> exists i :: 0 <= i < |r| && r[i].id == id
    ensures forall i, j :: 0 <= i < j < |r| ==> r[i].id != r[j].id
    ensures forall i, j :: 0 <= i < j < |r| ==> t[r[i].id].createdAt >= t[r[j].id].createdAt
  {
    var keys := map id | id in t :: NewestFirst(t[id].createdAt, id);
    var ids := OrderIds(keys);
    r := seq(|ids|, i requires 0 <= i < |ids| => ToView(t[ids[i]]));
    assert forall i :: 0 <= i < |r| ==> r[i].id == ids[i];
    forall id | id in t ensures exists i :: 0 <= i < |r| && r[i].id == id {
      assert id in keys && id in ids;
      var i :| 0 <= i < |ids| && ids[i] == id;
      assert r[i].id == id;
    }
    forall i, j | 0 <= i < j < |r| ensures t[r[i].id].createdAt >= t[r[j].id].createdAt {
      NewestFirstOrder(t[ids[i]].createdAt, ids[i], t[ids[j]].createdAt, ids[j]);
    }
  }
}
