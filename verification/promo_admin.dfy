/**
 * The promo-code admin page (client/src/pages/admin/PromoManagement.jsx):
 * the status shown for each code, the usage flag, the enable toggle, and
 * the request body built from the create form.
 */
module PromoAdmin {
  import opened Js
  import opened Text
  import Promo

  /** `isPromoActive(promo)` at time `now`: enabled, started, not ended, and
      not used up when a (non-zero) usage limit is set. */
  predicate IsPromoActive(v: Promo.PromoView, now: int) {
    if !v.enabled then false
    else if v.startDate.Some? && now < v.startDate.value then false
    else if v.endDate.Some? && now > v.endDate.value then false
    else if IsSetInt(v.usageLimit) && v.usageCount >= v.usageLimit.value then false
    else true
  }

  /** The page calls a code active exactly when the validation would accept
      it for a price that meets its minimum. */
  lemma ActiveMeansRedeemable(p: Promo.PromoCode, price: real, now: int)
    requires Promo.MeetsMinimum(p, price)
    ensures IsPromoActive(Promo.ToView(p), now) <==> Promo.Judge(p, price, now).Accepted?
  {
  }

  /** The red usage count: a limit is set and reached. */
  predicate UsageExhausted(v: Promo.PromoView) {
    IsSetInt(v.usageLimit) && v.usageCount >= v.usageLimit.value
  }

  /** The usage flag is the validation's usage check negated. */
  lemma UsageFlagMatchesValidation(p: Promo.PromoCode)
    ensures UsageExhausted(Promo.ToView(p)) <==> !Promo.UsageAvailable(p)
  {
  }

  /** The status badge's text. */
  function StatusLabel(v: Promo.PromoView, now: int): (r: string)
    ensures r == "Active" <==> IsPromoActive(v, now)
    ensures r == "Disabled" <==> !v.enabled
    ensures r == "Expired/Full" <==> v.enabled && !IsPromoActive(v, now)
  {
    if IsPromoActive(v, now) then "Active" else if v.enabled then "Expired/Full" else "Disabled"
  }

  /** The body of `handleToggleEnabled`: `{ enabled: !promo.enabled }`. */
  function ToggleBody(v: Promo.PromoView): (b: Promo.PromoInput)
    ensures b.enabled == Some(!v.enabled)
    ensures Promo.HasPatchField(b)
  {
    Promo.PromoInput(Absent, Absent, None, Absent, Absent, Absent, Absent, Absent, Some(!v.enabled))
  }

  /** Toggling a stored code flips its `enabled` flag and nothing else. */
  lemma ToggleFlipsOnlyEnabled(t: Promo.PromoTable, id: int)
    requires Promo.Valid(t) && id in t
    ensures var r := Promo.Patch(t, id, ToggleBody(Promo.ToView(t[id])));
            r.Ok? && r.value.1 == t[id].(enabled := !t[id].enabled) && r.value.0 == t[id := r.value.1]
  {
  }

  /** Toggling twice gives the table back. */
  lemma ToggleTwice(t: Promo.PromoTable, id: int)
    requires Promo.Valid(t) && id in t
    ensures var t1 := Promo.Patch(t, id, ToggleBody(Promo.ToView(t[id]))).value.0;
            Promo.Patch(t1, id, ToggleBody(Promo.ToView(t1[id]))).value.0 == t
  {
    ToggleFlipsOnlyEnabled(t, id);
    var t1 := Promo.Patch(t, id, ToggleBody(Promo.ToView(t[id]))).value.0;
    ToggleFlipsOnlyEnabled(t1, id);
  }

  /** The create form. The number inputs hold either nothing (None) or a
      number; the date inputs either nothing or a day, given as a time. */
  datatype PromoForm = PromoForm(
    code: string,
    discountType: string,
    discountValue: Option<real>,
    minPurchase: Option<real>,
    maxDiscount: Option<real>,
    usageLimit: Option<int>,
    startDate: Option<int>,
    endDate: Option<int>,
    enabled: bool)

  /** The form a new code starts from. */
  const BlankForm := PromoForm("", Promo.Percentage, None, None, None, None, None, None, true)

  datatype Submission = Refused(message: string) | Send(body: Promo.PromoInput)

  const Required := "Code and discount value are required"

  /** `x ? parse(x) : null` for an optional number input. */
  function NumberOrNull<T>(x: Option<T>): (f: Field<T>)
    ensures x.None? <==> f == Null
    ensures x.Some? ==> f == Given(x.value)
  {
    if x.Some? then Given(x.value) else Null
  }

  /** `handleSubmit` on a new code: refused without a code or a value;
      otherwise the code is upper-cased and every empty optional input is
      sent as null. */
  function Submit(f: PromoForm): (r: Submission)
    ensures r.Refused? <==> f.code == "" || f.discountValue.None?
    ensures r.Refused? ==> r.message == Required
    ensures r.Send? ==>
      && r.body.code == Given(Upper(f.code)) && r.body.discountType == Given(f.discountType)
      && r.body.discountValue == f.discountValue
      && r.body.minPurchase.Null? == f.minPurchase.None? && r.body.maxDiscount.Null? == f.maxDiscount.None?
      && r.body.usageLimit.Null? == f.usageLimit.None?
      && r.body.startDate.Null? == f.startDate.None? && r.body.endDate.Null? == f.endDate.None?
      && r.body.enabled == Some(f.enabled)
    ensures r.Send? ==>
      && (f.minPurchase.Some? ==> r.body.minPurchase == Given(f.minPurchase.value))
      && (f.maxDiscount.Some? ==> r.body.maxDiscount == Given(f.maxDiscount.value))
      && (f.usageLimit.Some? ==> r.body.usageLimit == Given(f.usageLimit.value))
      && (f.startDate.Some? ==> r.body.startDate == Given(f.startDate.value))
      && (f.endDate.Some? ==> r.body.endDate == Given(f.endDate.value))
  {
    if f.code == "" || f.discountValue.None? then Refused(Required)
    else
      Send(Promo.PromoInput(
        Given(Upper(f.code)), Given(f.discountType), f.discountValue,
        NumberOrNull(f.minPurchase), NumberOrNull(f.maxDiscount), NumberOrNull(f.usageLimit),
        NumberOrNull(f.startDate), NumberOrNull(f.endDate), Some(f.enabled)))
  }

  /** A form that passes the page's check, with a known type and a code not
      yet taken, creates a code whose page status is read straight from the
      form: unused (so used up only under a negative limit), enabled as
      ticked, and with the code in upper case. */
  lemma SubmittedFormIsStored(t: Promo.PromoTable, f: PromoForm, nextId: int, now: int)
    requires Promo.Valid(t) && nextId !in t
    requires f.code != "" && f.discountValue.Some?
    requires f.discountType in {Promo.Percentage, Promo.Fixed}
    requires !Promo.CodeTaken(t, Upper(f.code))
    ensures var r := Promo.Create(t, Submit(f).body, nextId, now);
            && r.Ok?
            && r.value.1.code == Upper(f.code)
            && r.value.1.discountValue == f.discountValue.value
            && r.value.1.startDate == f.startDate && r.value.1.endDate == f.endDate
            && r.value.1.usageCount == 0
            && r.value.1.enabled == f.enabled
            && (f.usageLimit.Some? && f.usageLimit.value != 0 <==> r.value.1.usageLimit.Some?)
            && (UsageExhausted(Promo.ToView(r.value.1)) <==> IsSetInt(f.usageLimit) && f.usageLimit.value < 0)
  {
    UpperIdempotent(f.code);
  }

  /** The blank form is refused until a code and a value are given. */
  lemma BlankFormRefused()
    ensures Submit(BlankForm) == Refused(Required)
  {
  }
}
