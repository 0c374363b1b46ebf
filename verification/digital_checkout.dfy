/**
 * The digital-product checkout page (client/src/pages/DigitalProductDetail.jsx):
 * the customer picks a package, gives an e-mail address (and optionally a
 * name), may apply a promo code (POST /promo/validate), uploads a transfer
 * proof and confirms; confirming places the order (POST /orders) and shows
 * it. The promo fields the page adds to the order request are ignored by the
 * order handler, so the stored price is the package price whatever the page
 * showed.
 */
module DigitalCheckout {
  import opened Js
  import opened Text
  import opened Store
  import opened CheckoutForms
  import Orders
  import Promo

  datatype DigitalPage = DigitalPage(
    selected: Option<int>,
    email: string,
    name: string,
    showModal: bool,
    proof: ProofState,
    promoCode: string,
    promoApplied: Option<Promo.Quote>,
    promoError: string,
    error: string,
    orderSuccess: bool,
    orderData: Option<Orders.OrderView>)

  /** The page once the packages have loaded. */
  function Load(pkgs: seq<Package>): (s: DigitalPage)
    ensures s.selected == FirstPackage(pkgs)
    ensures s.email == "" && s.name == "" && s.promoCode == "" && s.promoApplied.None?
    ensures !s.showModal && s.proof == NoProof && !s.orderSuccess && s.orderData.None?
  {
    DigitalPage(FirstPackage(pkgs), "", "", false, NoProof, "", None, "", "", false, None)
  }

  /** The `user_data` the page sends: `{ email, name }`. */
  function UserData(s: DigitalPage): (d: FormData)
    ensures FormGet(d, "email") == Some(s.email) && FormGet(d, "name") == Some(s.name)
    ensures |d| == 2 && UniqueKeys(d)
  {
    [("email", s.email), ("name", s.name)]
  }

  /** `handleProceedToPayment` */
  function Proceed(s: DigitalPage): (r: DigitalPage)
    ensures r.showModal <==> s.showModal || ValidateDigital(s.selected, s.email).None?
    ensures r.error == ValidateDigital(s.selected, s.email).GetOr("")
    ensures r.(showModal := s.showModal, error := s.error) == s
  {
    match ValidateDigital(s.selected, s.email)
    case Some(message) => s.(error := message)
    case None => s.(error := "", showModal := true)
  }

  /** Only an address of the required shape opens the payment step. */
  lemma ProceedNeedsEmail(s: DigitalPage)
    requires !s.showModal
    ensures Proceed(s).showModal ==> PackageChosen(s.selected) && MatchesEmailPattern(s.email)
  {
  }

  /** `handlePaymentProofUpload` for a file of `size` bytes. */
  function Upload(s: DigitalPage, size: int, upload: Response<string>, preview: string): (r: DigitalPage)
    ensures r.(proof := s.proof, error := s.error) == s
    ensures (r.proof, r.error) == UploadProof(s.proof, s.error, size, upload, preview)
  {
    var (proof, error) := UploadProof(s.proof, s.error, size, upload, preview);
    s.(proof := proof, error := error)
  }

  const PromoBlank := "Masukkan kode promo"
  const PromoInvalid := "Kode promo tidak valid"

  /** `handleApplyPromo` with the promo table `t` at time `now`: a blank code
      is refused on the page, nothing happens without a selected package, and
      otherwise the answer of the validation request for the package's price
      is applied or its error shown. */
  function ApplyPromo(s: DigitalPage, pkgs: seq<Package>, t: Promo.PromoTable, now: int,
                      formatIdr: real -> string): (r: DigitalPage)
    requires Promo.Valid(t)
    ensures Trim(s.promoCode) == "" ==> r == s.(promoError := PromoBlank)
    ensures Trim(s.promoCode) != "" && FindPackage(pkgs, s.selected).None? ==> r == s
    ensures r.(promoApplied := s.promoApplied, promoError := s.promoError) == s
    ensures r.promoApplied.Some? && r.promoApplied != s.promoApplied ==>
      var pkg := FindPackage(pkgs, s.selected).value;
      Promo.Validate(t, Given(s.promoCode), Num(pkg.price), now) == Promo.Accepted(r.promoApplied.value)
    ensures Trim(s.promoCode) != "" && FindPackage(pkgs, s.selected).Some? ==>
      var v := Promo.Validate(t, Given(s.promoCode), Num(FindPackage(pkgs, s.selected).value.price), now);
      && (v.Accepted? ==> r.promoApplied == Some(v.quote) && r.promoError == "")
      && (v.Rejected? ==> r.promoApplied == None && r.promoError == ErrorOr(v.reason.Message(formatIdr), PromoInvalid))
  {
    if Trim(s.promoCode) == "" then s.(promoError := PromoBlank)
    else
      match FindPackage(pkgs, s.selected)
      case None => s
      case Some(pkg) =>
        match Promo.Validate(t, Given(s.promoCode), Num(pkg.price), now)
        case Accepted(q) => s.(promoApplied := Some(q), promoError := "")
        case Rejected(why) => s.(promoError := ErrorOr(why.Message(formatIdr), PromoInvalid), promoApplied := None)
  }

  /** A code of white space alone is refused without consulting the promo
      table: any two tables give the same page. */
  lemma BlankCodeSendsNothing(s: DigitalPage, pkgs: seq<Package>, t1: Promo.PromoTable, t2: Promo.PromoTable,
                              now: int, formatIdr: real -> string)
    requires Promo.Valid(t1) && Promo.Valid(t2)
    requires forall i :: 0 <= i < |s.promoCode| ==> IsSpace(s.promoCode[i])
    ensures ApplyPromo(s, pkgs, t1, now, formatIdr) == ApplyPromo(s, pkgs, t2, now, formatIdr)
    ensures ApplyPromo(s, pkgs, t1, now, formatIdr).promoError == PromoBlank
  {
    TrimEmptyIffBlank(s.promoCode);
  }

  /** `handleRemovePromo` */
  function RemovePromo(s: DigitalPage): (r: DigitalPage)
    ensures r.promoCode == "" && r.promoApplied.None? && r.promoError == ""
    ensures r.(promoCode := s.promoCode, promoApplied := s.promoApplied, promoError := s.promoError) == s
  {
    s.(promoCode := "", promoApplied := None, promoError := "")
  }

  /** `handleClosePaymentModal`: everything `RemovePromo` clears, and also
      the step, the proof, the error and a shown order. */
  function Close(s: DigitalPage): (r: DigitalPage)
    ensures !r.showModal && r.proof == NoProof && r.error == ""
    ensures r.promoCode == "" && r.promoApplied.None? && r.promoError == ""
    ensures !r.orderSuccess && r.orderData == (if s.orderSuccess then None else s.orderData)
    ensures r.selected == s.selected && r.email == s.email && r.name == s.name
  {
    var s' := if s.orderSuccess then s.(orderSuccess := false, orderData := None) else s;
    s'.(showModal := false, proof := NoProof, promoCode := "", promoApplied := None, promoError := "", error := "")
  }

  /** Closing subsumes removing the promo, and closing twice is closing once. */
  lemma CloseLaws(s: DigitalPage)
    ensures Close(RemovePromo(s)) == Close(s)
    ensures Close(Close(s)) == Close(s)
  {
  }

  /** `getFinalPrice`: 0 without a found package, the applied promo's final
      price, or the package price. */
  function FinalPrice(s: DigitalPage, pkgs: seq<Package>): (r: real)
    ensures FindPackage(pkgs, s.selected).None? ==> r == 0.0
    ensures FindPackage(pkgs, s.selected).Some? && s.promoApplied.Some? ==> r == s.promoApplied.value.finalPrice
    ensures FindPackage(pkgs, s.selected).Some? && s.promoApplied.None? ==> r == FindPackage(pkgs, s.selected).value.price
  {
    match FindPackage(pkgs, s.selected)
    case None => 0.0
    case Some(pkg) => if s.promoApplied.Some? then s.promoApplied.value.finalPrice else pkg.price
  }

  /** Right after a promo is applied to a package of non-negative price, and
      with promo values and caps that are not negative, the price shown lies
      between 0 and the package price. */
  lemma AppliedPriceWithinPackagePrice(s: DigitalPage, pkgs: seq<Package>, t: Promo.PromoTable, now: int,
                                       formatIdr: real -> string)
    requires Promo.Valid(t)
    requires forall id :: id in t ==> t[id].discountValue >= 0.0
    requires forall id :: id in t && t[id].maxDiscount.Some? ==> t[id].maxDiscount.value >= 0.0
    requires FindPackage(pkgs, s.selected).Some? && FindPackage(pkgs, s.selected).value.price >= 0.0
    ensures var r := ApplyPromo(s, pkgs, t, now, formatIdr);
            r.promoApplied.Some? && r.promoApplied != s.promoApplied ==>
              0.0 <= FinalPrice(r, pkgs) <= FindPackage(pkgs, s.selected).value.price
  {
    var pkg := FindPackage(pkgs, s.selected).value;
    Promo.QuoteBounds(t, Given(s.promoCode), Num(pkg.price), now);
  }

  /** The order request: product, package (null when none is selected),
      `{ email, name }` and the proof, plus the promo's code, discount and
      final price exactly when a promo is applied. */
  function Payload(s: DigitalPage, pid: int): (b: Orders.OrderInput)
    ensures b.productId == Given(pid) && b.userData == Given(UserData(s)) && b.paymentProof == Given(s.proof.url)
    ensures s.selected.Some? ==> b.packageId == Given(s.selected.value)
    ensures s.selected.None? ==> b.packageId == Null
    ensures b.promoCode.Given? <==> s.promoApplied.Some?
    ensures b.finalPrice.Num? <==> s.promoApplied.Some?
    ensures s.promoApplied.Some? ==>
      && b.promoCode == Given(s.promoApplied.value.code)
      && b.discountAmount == Num(s.promoApplied.value.discountAmount)
      && b.finalPrice == Num(s.promoApplied.value.finalPrice)
    ensures s.promoApplied.None? ==> b.promoCode == Absent && b.discountAmount == Undefined && b.finalPrice == Undefined
  {
    var b := Orders.OrderInput(Given(pid), if s.selected.Some? then Given(s.selected.value) else Null,
                               Given(UserData(s)), Given(s.proof.url), Absent, Undefined, Undefined);
    match s.promoApplied
    case None => b
    case Some(q) => b.(promoCode := Given(q.code), discountAmount := Num(q.discountAmount), finalPrice := Num(q.finalPrice))
  }

  const ProofRequired := "Please upload payment proof"
  const CheckoutFailed := "Failed to process checkout"

  /** `handleConfirmPayment`: without a proof nothing is sent; otherwise the
      order request's answer is shown, or its error. */
  function Confirm(c: Catalog, t: Orders.OrderTable, s: DigitalPage, pid: int, nextId: int, now: int)
    : (r: (Orders.OrderTable, DigitalPage))
    requires Store.Valid(c) && Orders.Valid(t) && nextId !in t
    ensures s.proof.url == "" ==> r == (t, s.(error := ProofRequired))
    ensures r.1.orderSuccess != s.orderSuccess || r.1.orderData != s.orderData ==>
      var created := Orders.Create(c, t, Payload(s, pid), nextId, now);
      && s.proof.url != "" && created.Ok?
      && r == (created.value.0, s.(orderSuccess := true, orderData := Some(Orders.ToView(created.value.1)), error := ""))
    ensures s.proof.url != "" && Orders.Create(c, t, Payload(s, pid), nextId, now).Ok? ==> r.1.orderSuccess
    ensures s.proof.url != "" && Orders.Create(c, t, Payload(s, pid), nextId, now).Fail? ==>
      r == (t, s.(error := ErrorOr(Orders.Create(c, t, Payload(s, pid), nextId, now).error, CheckoutFailed)))
    ensures r.0 != t ==> r.1.orderSuccess
  {
    if s.proof.url == "" then (t, s.(error := ProofRequired))
    else
      match Orders.Create(c, t, Payload(s, pid), nextId, now)
      case Fail(_, e) => (t, s.(error := ErrorOr(e, CheckoutFailed)))
      case Ok((t', o)) => (t', s.(orderSuccess := true, orderData := Some(Orders.ToView(o)), error := ""))
  }

  /** The promo does not reach the order: confirming with a promo applied
      stores and shows the same order as confirming without one, at the
      package price, even when the page showed a lower final price. */
  lemma PromoDoesNotReachOrder(c: Catalog, t: Orders.OrderTable, s: DigitalPage, pkgs: seq<Package>,
                               pid: int, nextId: int, now: int)
    requires Store.Valid(c) && Orders.Valid(t) && nextId !in t
    ensures var (with, without) := (Confirm(c, t, s, pid, nextId, now), Confirm(c, t, s.(promoApplied := None), pid, nextId, now));
            with.0 == without.0 && with.1.orderData == without.1.orderData && with.1.error == without.1.error
    ensures var (_, r) := Confirm(c, t, s, pid, nextId, now);
            r.orderData != s.orderData && s.selected.Some? ==>
              r.orderData.value.price == c.packages[s.selected.value].price
  {
    var b := Payload(s, pid);
    var b0 := Payload(s.(promoApplied := None), pid);
    assert b == b0.(promoCode := b.promoCode, discountAmount := b.discountAmount, finalPrice := b.finalPrice);
    Orders.PromoFieldsIgnored(c, t, b0, nextId, now, b0.paymentProof, b.promoCode, b.discountAmount, b.finalPrice);
  }
}
