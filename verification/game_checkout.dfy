/**
 * The game checkout page (client/src/pages/ProductDetail.jsx): the customer
 * picks a package, answers the product's input fields, uploads a transfer
 * proof and confirms. Confirming places the order (POST /orders) and then
 * asks for the WhatsApp link (POST /public/checkout-url) to redirect to.
 *
 * Because the link handler as written always fails once its lookups pass,
 * `Confirm` never redirects: the order is stored and the page shows
 * "Internal server error", and a second click stores a second order.
 * `ConfirmIntended` is the same page against the corrected handler.
 */
module GameCheckout {
  import opened Js
  import opened Store
  import opened InputFields
  import opened CheckoutForms
  import Orders
  import Settings
  import Storefront

  datatype GamePage = GamePage(
    selected: Option<int>,
    form: FormData,
    showModal: bool,
    proof: ProofState,
    error: string)

  /** The page once the product and its packages have loaded. */
  function Load(fields: seq<InputField>, pkgs: seq<Package>): (s: GamePage)
    ensures s.selected == FirstPackage(pkgs)
    ensures forall i :: 0 <= i < |fields| ==> FormGet(s.form, fields[i].name) == Some("")
    ensures !s.showModal && s.proof == NoProof && s.error == ""
  {
    InitialAnswersEmpty(fields);
    GamePage(FirstPackage(pkgs), InitialFormData(fields), false, NoProof, "")
  }

  /** `handleInputChange(name, value)` */
  function Input(s: GamePage, name: string, value: string): (r: GamePage)
    ensures FormGet(r.form, name) == Some(value)
    ensures forall k :: k != name ==> FormGet(r.form, k) == FormGet(s.form, k)
    ensures r.(form := s.form) == s
  {
    s.(form := FormSet(s.form, name, value))
  }

  /** `handleProceedToPayment`: the payment step opens only when the form
      passes, and otherwise the first failure is shown. */
  function Proceed(s: GamePage, fields: seq<InputField>): (r: GamePage)
    ensures r.showModal <==> s.showModal || ValidateGame(s.selected, fields, s.form).None?
    ensures r.error == ValidateGame(s.selected, fields, s.form).GetOr("")
    ensures r.(showModal := s.showModal, error := s.error) == s
  {
    match ValidateGame(s.selected, fields, s.form)
    case Some(message) => s.(error := message)
    case None => s.(error := "", showModal := true)
  }

  /** `handlePaymentProofUpload` for a file of `size` bytes. */
  function Upload(s: GamePage, size: int, upload: Response<string>, preview: string): (r: GamePage)
    ensures r.(proof := s.proof, error := s.error) == s
    ensures (r.proof, r.error) == UploadProof(s.proof, s.error, size, upload, preview)
  {
    var (proof, error) := UploadProof(s.proof, s.error, size, upload, preview);
    s.(proof := proof, error := error)
  }

  /** `handleRemoveProof` */
  function RemoveProof(s: GamePage): (r: GamePage)
    ensures r.proof.url == "" && r.(proof := s.proof) == s
  {
    s.(proof := NoProof)
  }

  /** `handleClosePaymentModal`: the step closes and the proof and error are
      cleared; the package and the answers stay. */
  function Close(s: GamePage): (r: GamePage)
    ensures !r.showModal && r.proof == NoProof && r.error == ""
    ensures r.selected == s.selected && r.form == s.form
  {
    s.(showModal := false, proof := NoProof, error := "")
  }

  /** Closing twice is closing once, and removing the proof first changes
      nothing. */
  lemma CloseLaws(s: GamePage)
    ensures Close(Close(s)) == Close(s)
    ensures Close(RemoveProof(s)) == Close(s)
  {
  }

  /** The order request: product, package (null when none is selected),
      answers and proof, and nothing else. */
  function Payload(pid: int, selected: Option<int>, form: FormData, proofUrl: string): (b: Orders.OrderInput)
    ensures b.productId == Given(pid) && b.userData == Given(form) && b.paymentProof == Given(proofUrl)
    ensures selected.Some? ==> b.packageId == Given(selected.value)
    ensures selected.None? ==> b.packageId == Null
    ensures b.promoCode == Absent && b.discountAmount == Undefined && b.finalPrice == Undefined
  {
    Orders.OrderInput(Given(pid), if selected.Some? then Given(selected.value) else Null,
                      Given(form), Given(proofUrl), Absent, Undefined, Undefined)
  }

  datatype Outcome = Redirect(url: string) | Stay(page: GamePage)

  const ProofRequired := "Please upload payment proof"
  const CheckoutFailed := "Failed to process checkout"

  /** The order placed by a confirmation, if any. */
  function Created(c: Catalog, t: Orders.OrderTable, s: GamePage, pid: int, nextId: int, now: int)
    : Response<(Orders.OrderTable, Orders.Order)>
    requires Store.Valid(c) && Orders.Valid(t) && nextId !in t
  {
    Orders.Create(c, t, Payload(pid, s.selected, s.form, s.proof.url), nextId, now)
  }

  /** After the order request: its failure is shown; otherwise the answer of
      the link request decides between the redirect and an error. */
  function AfterOrder(t: Orders.OrderTable, s: GamePage, created: Response<(Orders.OrderTable, Orders.Order)>,
                      link: Response<string>): (r: (Orders.OrderTable, Outcome))
    ensures created.Fail? ==> r == (t, Stay(s.(error := ErrorOr(created.error, CheckoutFailed))))
    ensures created.Ok? ==> r.0 == created.value.0
    ensures created.Ok? && link.Ok? ==> r.1 == Redirect(link.value)
    ensures created.Ok? && link.Fail? ==> r.1 == Stay(s.(error := ErrorOr(link.error, CheckoutFailed)))
  {
    match created
    case Fail(_, e) => (t, Stay(s.(error := ErrorOr(e, CheckoutFailed))))
    case Ok((t', _)) =>
      match link
      case Ok(url) => (t', Redirect(url))
      case Fail(_, e) => (t', Stay(s.(error := ErrorOr(e, CheckoutFailed))))
  }

  /** `handleConfirmPayment` against the link handler as written; `pid` is
      the product id of the route and `imageUrl` stands for `getImageUrl`. */
  function Confirm(c: Catalog, t: Orders.OrderTable, s: GamePage, pid: int, nextId: int, now: int,
                   imageUrl: string -> string): (r: (Orders.OrderTable, Outcome))
    requires Store.Valid(c) && Orders.Valid(t) && nextId !in t
    ensures s.proof.url == "" ==> r == (t, Stay(s.(error := ProofRequired)))
    ensures r.1.Stay?
    ensures s.proof.url != "" && Created(c, t, s, pid, nextId, now).Ok? ==>
      r == (Created(c, t, s, pid, nextId, now).value.0, Stay(s.(error := InternalError)))
    ensures s.proof.url != "" && Created(c, t, s, pid, nextId, now).Fail? ==> r.0 == t
  {
    if s.proof.url == "" then (t, Stay(s.(error := ProofRequired)))
    else
      var b := Payload(pid, s.selected, s.form, s.proof.url);
      AfterOrder(t, s, Orders.Create(c, t, b, nextId, now),
                 Storefront.CheckoutUrl(c, b.(paymentProof := Given(imageUrl(s.proof.url)))))
  }

  /** `handleConfirmPayment` against the corrected link handler, with the
      shop's settings `rows`, the formatted time and the environment
      functions it needs. */
  function ConfirmIntended(c: Catalog, t: Orders.OrderTable, s: GamePage, pid: int, nextId: int, now: int,
                           imageUrl: string -> string, rows: seq<Settings.Setting>, orderTime: string,
                           formatIdr: real -> string, encode: string -> string): (r: (Orders.OrderTable, Outcome))
    requires Store.Valid(c) && Orders.Valid(t) && nextId !in t
    ensures s.proof.url == "" ==> r == (t, Stay(s.(error := ProofRequired)))
    ensures s.proof.url != "" ==> (r.1.Redirect? <==> Created(c, t, s, pid, nextId, now).Ok?)
    ensures r.1.Redirect? ==> r.0 == Created(c, t, s, pid, nextId, now).value.0
    ensures r.1.Stay? ==> r.0 == t
  {
    if s.proof.url == "" then (t, Stay(s.(error := ProofRequired)))
    else
      var b := Payload(pid, s.selected, s.form, s.proof.url);
      var b' := b.(paymentProof := Given(imageUrl(s.proof.url)));
      assert Orders.Resolve(c, b') == Orders.Resolve(c, b);
      AfterOrder(t, s, Orders.Create(c, t, b, nextId, now),
                 Storefront.CheckoutUrlIntended(c, rows, b', orderTime, formatIdr, encode))
  }

  /** As written, confirming again after the error places a second order
      with the same package and answers. */
  lemma RetryStoresSecondOrder(c: Catalog, t: Orders.OrderTable, s: GamePage, pid: int,
                               id1: int, id2: int, now1: int, now2: int, imageUrl: string -> string)
    requires Store.Valid(c) && Orders.Valid(t) && id1 !in t && id2 !in t && id1 != id2
    requires s.proof.url != "" && Created(c, t, s, pid, id1, now1).Ok?
    ensures var (t1, out1) := Confirm(c, t, s, pid, id1, now1, imageUrl);
            var (t2, out2) := Confirm(c, t1, out1.page, pid, id2, now2, imageUrl);
            && id1 in t2 && id2 in t2 && |t2.Keys| == |t.Keys| + 2
            && t2[id1].userData == t2[id2].userData == s.form
            && t2[id1].packageId == t2[id2].packageId
            && out2 == Stay(s.(error := InternalError))
  {
    var (t1, out1) := Confirm(c, t, s, pid, id1, now1, imageUrl);
    var s1 := out1.page;
    assert s1 == s.(error := InternalError);
    assert Payload(pid, s1.selected, s1.form, s1.proof.url) == Payload(pid, s.selected, s.form, s.proof.url);
    assert Created(c, t1, s1, pid, id2, now2).Ok?;
    assert t1.Keys == t.Keys + {id1};
  }
}
