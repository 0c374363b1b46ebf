/**
 * The category admin page (client/src/pages/admin/CategoryManagement.jsx):
 * the dialog's form, the icon mode it opens in, the icon upload and removal,
 * and the body a new category is created from.
 */
module CategoryAdmin {
  import opened Js
  import opened Text
  import opened Store
  import Uploads
  import CheckoutForms
  import Categories

  datatype CategoryForm = CategoryForm(name: string, slug: string, description: string, icon: string)

  const BlankForm := CategoryForm("", "", "", "")

  /** The three ways the icon input can be shown. */
  datatype IconMode = Emoji | Upload | Url

  /** The mode an icon opens in: a path under `/uploads` is an uploaded file,
      an `http` address a link, and anything else (an empty icon too) an
      emoji. */
  function ModeOf(icon: string): (m: IconMode)
    ensures m == Upload <==> StartsWith(icon, "/uploads")
    ensures m == Url <==> !StartsWith(icon, "/uploads") && StartsWith(icon, "http")
    ensures m == Emoji <==> !StartsWith(icon, "/uploads") && !StartsWith(icon, "http")
  {
    if icon == "" then Emoji
    else if StartsWith(icon, "/uploads") then Upload
    else if StartsWith(icon, "http") then Url
    else Emoji
  }

  /** The dialog: its form, icon mode, icon preview and error. */
  datatype Dialog = Dialog(open: bool, form: CategoryForm, mode: IconMode, preview: Option<string>, error: string)

  /** `handleOpenModal(category)`; `imageUrl` stands for `getImageUrl`. An
      emoji icon has no preview. */
  function Open(cat: Option<Category>, imageUrl: string -> string): (d: Dialog)
    ensures d.open && d.error == ""
    ensures cat.None? ==> d.form == BlankForm && d.mode == Emoji
    ensures cat.Some? ==> d.form == CategoryForm(cat.value.name, cat.value.slug,
                                                cat.value.description.GetOr(""), cat.value.icon.GetOr(""))
    ensures d.mode == ModeOf(d.form.icon)
    ensures d.preview.Some? <==> d.mode != Emoji
    ensures d.preview.Some? ==> d.preview.value == imageUrl(d.form.icon)
  {
    match cat
    case None => Dialog(true, BlankForm, Emoji, None, "")
    case Some(c) =>
      var form := CategoryForm(c.name, c.slug, c.description.GetOr(""), c.icon.GetOr(""));
      var mode := ModeOf(form.icon);
      Dialog(true, form, mode, if mode == Emoji then None else Some(imageUrl(form.icon)), "")
  }

  /** `handleCloseModal` */
  function Close(d: Dialog): (r: Dialog)
    ensures !r.open && r.form == BlankForm && r.mode == Emoji && r.preview.None? && r.error == ""
  {
    Dialog(false, BlankForm, Emoji, None, "")
  }

  /** `handleRemoveIcon`: the icon and its preview are cleared; the mode
      stays. */
  function RemoveIcon(d: Dialog): (r: Dialog)
    ensures r.form.icon == "" && r.preview.None?
    ensures r.(form := d.form, preview := d.preview) == d
    ensures r.form.(icon := d.form.icon) == d.form
  {
    d.(form := d.form.(icon := ""), preview := None)
  }

  /** `handleIconUpload` for a file of `size` bytes and type `mime`;
      `upload` is the upload request's answer. */
  function UploadIcon(d: Dialog, size: int, mime: string, upload: Response<string>,
                      imageUrl: string -> string): (r: Dialog)
    ensures Uploads.CategoryIconError(size, mime).Some? ==>
      r == d.(error := Uploads.CategoryIconError(size, mime).value)
    ensures Uploads.CategoryIconError(size, mime).None? && upload.Ok? ==>
      r == d.(form := d.form.(icon := upload.value), preview := Some(imageUrl(upload.value)), error := "")
    ensures Uploads.CategoryIconError(size, mime).None? && upload.Fail? ==>
      r == d.(error := CheckoutForms.ErrorOr(upload.error, "Failed to upload icon"))
  {
    match Uploads.CategoryIconError(size, mime)
    case Some(e) => d.(error := e)
    case None =>
      match upload
      case Ok(url) => d.(form := d.form.(icon := url), preview := Some(imageUrl(url)), error := "")
      case Fail(_, e) => d.(error := CheckoutForms.ErrorOr(e, "Failed to upload icon"))
  }

  /** Closing twice is closing once; removing the icon first changes nothing,
      and removing it twice is removing it once. */
  lemma CloseLaws(d: Dialog)
    ensures Close(Close(d)) == Close(d)
    ensures Close(RemoveIcon(d)) == Close(d)
    ensures RemoveIcon(RemoveIcon(d)) == RemoveIcon(d)
  {
  }

  /** The body of a new category: the form as it stands. */
  function CreateBody(f: CategoryForm): (b: Categories.CategoryInput)
    ensures b == Categories.CategoryInput(Given(f.name), Given(f.slug), Given(f.description), Given(f.icon))
  {
    Categories.CategoryInput(Given(f.name), Given(f.slug), Given(f.description), Given(f.icon))
  }

  /** A category created from the dialog reopens with the very form it was
      created from, in the mode its icon calls for. */
  lemma CreatedCategoryReopens(c: Catalog, f: CategoryForm, nextId: int, imageUrl: string -> string)
    requires Valid(c) && nextId !in c.categories
    requires Categories.Create(c, CreateBody(f), nextId).Ok?
    ensures var d := Open(Some(Categories.Create(c, CreateBody(f), nextId).value.1), imageUrl);
            d.form == f && d.mode == ModeOf(f.icon)
  {
  }

  /** The path the upload route answers with, `/uploads/<file name>`. */
  function UploadedPath(fileName: string): string {
    "/uploads/" + fileName
  }

  /** An icon that was uploaded reopens in upload mode, with its preview. */
  lemma UploadedIconReopensAsUpload(d: Dialog, size: int, mime: string, fileName: string,
                                    imageUrl: string -> string)
    requires Uploads.CategoryIconError(size, mime).None?
    ensures var r := UploadIcon(d, size, mime, Ok(UploadedPath(fileName)), imageUrl);
            ModeOf(r.form.icon) == Upload && r.preview == Some(imageUrl(r.form.icon))
  {
    assert UploadedPath(fileName)[..|"/uploads"|] == "/uploads";
  }
}
