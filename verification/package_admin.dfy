/**
 * The package admin page of one product
 * (client/src/pages/admin/PackageManagement.jsx): the dialog's form, how it
 * opens for a stored package, and the body a new package is created from.
 *
 * As written the dialog opens with `enabled: pkg.enabled === 1`, which is
 * false for the boolean the package routes send, so every package opens
 * unticked. `OpenAsWritten` is the dialog as written and `Open` the one
 * that reads the flag as sent.
 */
module PackageAdmin {
  import opened Js
  import opened Store
  import Packages

  /** The dialog's form. `price` is the number input's value: the input is
      required and has `min="0"`, so the browser submits only a
      non-negative number. The image, download and file-type inputs are
      sent but not stored by the routes. */
  datatype PackageForm = PackageForm(
    name: string,
    description: string,
    price: real,
    imageUrl: string,
    downloadUrl: string,
    fileType: string,
    enabled: bool)

  /** `handleOpenModal(pkg)` as written. A package row has no image,
      download or file-type column, so those inputs open empty. */
  function OpenAsWritten(p: Package): (f: PackageForm)
    ensures !f.enabled
    ensures f.name == p.name && f.description == p.description.GetOr("") && f.price == p.price
  {
    PackageForm(p.name, p.description.GetOr(""), p.price, "", "", "", false)
  }

  /** `handleOpenModal(pkg)` reading the flag as the routes send it. */
  function Open(p: Package): (f: PackageForm)
    ensures f.enabled == p.enabled
    ensures f.name == p.name && f.description == p.description.GetOr("") && f.price == p.price
  {
    PackageForm(p.name, p.description.GetOr(""), p.price, "", "", "", p.enabled)
  }

  /** The body of a new package: `{ ...currentData, product_id: parseInt(productId) }`
      with `price: parseFloat(...)` and `enabled: 1/0`. */
  function CreateBody(f: PackageForm, productId: int): (b: Packages.PackageInput)
    ensures b.productId == Given(productId) && b.name == Given(f.name) && b.price == Num(f.price)
    ensures b.description == Given(f.description) && b.enabled == Some(f.enabled)
  {
    Packages.PackageInput(Given(productId), Given(f.name), Given(f.description), Num(f.price), Some(f.enabled),
                          Given(f.imageUrl), Given(f.downloadUrl), Given(f.fileType))
  }

  /** A named package with an allowed price, under a stored product, is
      created; reopening it (reading the flag as sent) gives back the form
      without the inputs that are not stored, while the dialog as written
      shows it unticked whatever was ticked. */
  lemma CreatedPackageReopens(c: Catalog, f: PackageForm, productId: int, nextId: int)
    requires Valid(c) && nextId !in c.packages
    requires productId in c.products && productId != 0
    requires f.name != "" && f.price >= 0.0
    ensures var r := Packages.Create(c, CreateBody(f, productId), nextId);
            && r.Ok?
            && r.value.1.productId == productId
            && Open(r.value.1) == f.(imageUrl := "", downloadUrl := "", fileType := "")
            && OpenAsWritten(r.value.1) == f.(imageUrl := "", downloadUrl := "", fileType := "", enabled := false)
  {
    var b := CreateBody(f, productId);
    assert !Packages.PriceRejected(b.price);
  }
}
