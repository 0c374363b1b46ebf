/**
 * The checks the pages make on a chosen file before uploading it: the size
 * limit of 5 MB (checked first) and, for images on the product and category
 * admin pages, a list of accepted MIME types. The payment-proof uploads of
 * the checkout pages and the package image upload check the size only.
 */
module Uploads {
  import opened Js

  /** `5 * 1024 * 1024` */
  const MaxBytes: int := 5 * 1024 * 1024

  const TooLarge := "File size must be less than 5MB"

  /** The image types of admin/ProductManagement.jsx. */
  const ImageTypes: seq<string> := ["image/jpeg", "image/jpg", "image/png", "image/gif", "image/webp"]

  /** The icon types of admin/CategoryManagement.jsx: the image types and SVG. */
  const IconTypes: seq<string> := ImageTypes + ["image/svg+xml"]

  /** The size check alone: the error to show, or None to go on. */
  function SizeError(size: int): (r: Option<string>)
    ensures r.None? <==> size <= 5242880
    ensures r.Some? ==> r.value == TooLarge
  {
    if size > MaxBytes then Some(TooLarge) else None
  }

  /** The size check, then the type check with its page's message. */
  function FileError(size: int, mime: string, accepted: seq<string>, typeMessage: string): (r: Option<string>)
    ensures r.None? <==> size <= MaxBytes && mime in accepted
    ensures size > MaxBytes ==> r == Some(TooLarge)
    ensures size <= MaxBytes && mime !in accepted ==> r == Some(typeMessage)
  {
    if size > MaxBytes then Some(TooLarge)
    else if mime !in accepted then Some(typeMessage)
    else None
  }

  /** `handleImageUpload` of admin/ProductManagement.jsx. */
  function ProductImageError(size: int, mime: string): (r: Option<string>)
    ensures r.None? <==> size <= MaxBytes && mime in ImageTypes
  {
    FileError(size, mime, ImageTypes, "Only image files are allowed (JPEG, PNG, GIF, WebP)")
  }

  /** `handleIconUpload` of admin/CategoryManagement.jsx. */
  function CategoryIconError(size: int, mime: string): (r: Option<string>)
    ensures r.None? <==> size <= MaxBytes && mime in IconTypes
  {
    FileError(size, mime, IconTypes, "Only image files are allowed")
  }

  /** Every file the product page accepts the category page accepts, and SVG
      icons only the category page accepts. */
  lemma IconCheckIsWider(size: int, mime: string)
    ensures ProductImageError(size, mime).None? ==> CategoryIconError(size, mime).None?
    ensures size <= MaxBytes ==>
      CategoryIconError(size, "image/svg+xml").None? && ProductImageError(size, "image/svg+xml").Some?
  {
    assert IconTypes[5] == "image/svg+xml";
    assert forall i :: 0 <= i < |ImageTypes| ==> ImageTypes[i] != "image/svg+xml" by {
      forall i | 0 <= i < |ImageTypes| ensures ImageTypes[i] != "image/svg+xml" {
        assert |ImageTypes[i]| != |"image/svg+xml"|;
      }
    }
  }

  /** A file the type check accepts is accepted exactly when it is small
      enough: the size check alone decides then. */
  lemma SizeDecidesAcceptedTypes(size: int, mime: string, accepted: seq<string>, typeMessage: string)
    requires mime in accepted
    ensures FileError(size, mime, accepted, typeMessage) == SizeError(size)
  {
  }
}
