/**
 * What the two checkout pages (client/src/pages/ProductDetail.jsx for games
 * and DigitalProductDetail.jsx for digital products) share: the form object
 * the customer fills in, the package chosen after load, the checks made
 * before the payment step, and the payment-proof upload.
 */
module CheckoutForms {
  import opened Js
  import opened Text
  import opened Store
  import opened InputFields
  import Uploads

  /** A form object: key/value entries in insertion order. */
  type FormData = seq<(string, string)>

  /** No key occurs twice, as in a JavaScript object. */
  ghost predicate UniqueKeys(form: FormData) {
    forall i, j :: 0 <= i < j < |form| ==> form[i].0 != form[j].0
  }

  /** `formData[key]` */
  function FormGet(form: FormData, key: string): (r: Option<string>)
    ensures r.Some? ==> exists i :: 0 <= i < |form| && form[i] == (key, r.value)
    ensures r.None? <==> forall i :: 0 <= i < |form| ==> form[i].0 != key
  {
    if |form| == 0 then None
    else if form[0].0 == key then Some(form[0].1)
    else
      var r := FormGet(form[1..], key);
      assert forall i :: 1 <= i < |form| ==> form[i] == form[1..][i - 1];
      r
  }

  /** `{ ...prev, [key]: value }`: the key reads as the new value and every
      other key as before. */
  function FormSet(form: FormData, key: string, value: string): (r: FormData)
    ensures FormGet(r, key) == Some(value)
    ensures forall k :: k != key ==> FormGet(r, k) == FormGet(form, k)
  {
    if |form| == 0 then [(key, value)]
    else if form[0].0 == key then [(key, value)] + form[1..]
    else
      var rest := FormSet(form[1..], key, value);
      var r := [form[0]] + rest;
      assert r[1..] == rest;
      assert forall i :: 1 <= i < |form| ==> form[i] == form[1..][i - 1];
      r
  }

  /** Setting a key keeps the keys unique. */
  lemma FormSetKeepsUnique(form: FormData, key: string, value: string)
    requires UniqueKeys(form)
    ensures UniqueKeys(FormSet(form, key, value))
  {
    FormSetPlaces(form, key, value);
  }

  /** An existing key keeps its place, and no other entry changes; a new key
      goes at the end. */
  lemma FormSetPlaces(form: FormData, key: string, value: string)
    ensures FormGet(form, key).None? ==> FormSet(form, key, value) == form + [(key, value)]
    ensures FormGet(form, key).Some? ==>
      var r := FormSet(form, key, value);
      && |r| == |form|
      && (forall i :: 0 <= i < |form| ==> r[i].0 == form[i].0)
      && (forall i :: 0 <= i < |form| && form[i].0 != key ==> r[i] == form[i])
  {
    if FormGet(form, key).None? {
      FormSetAppends(form, key, value);
    } else {
      FormSetInPlace(form, key, value);
    }
  }

  /** A key the form does not hold goes at the end. */
  lemma {:induction false} FormSetAppends(form: FormData, key: string, value: string)
    requires FormGet(form, key).None?
    ensures FormSet(form, key, value) == form + [(key, value)]
  {
    if |form| > 0 {
      assert form[0].0 != key;
      assert FormGet(form[1..], key) == FormGet(form, key);
      FormSetAppends(form[1..], key, value);
      assert FormSet(form, key, value) == [form[0]] + (form[1..] + [(key, value)]);
      assert form == [form[0]] + form[1..];
    }
  }

  /** A key the form holds is overwritten in place. */
  lemma {:induction false} FormSetInPlace(form: FormData, key: string, value: string)
    requires FormGet(form, key).Some?
    ensures |FormSet(form, key, value)| == |form|
    ensures forall i :: 0 <= i < |form| ==> FormSet(form, key, value)[i].0 == form[i].0
    ensures forall i :: 0 <= i < |form| && form[i].0 != key ==> FormSet(form, key, value)[i] == form[i]
  {
    if form[0].0 != key {
      assert FormGet(form[1..], key) == FormGet(form, key);
      FormSetInPlace(form[1..], key, value);
      var rest := FormSet(form[1..], key, value);
      var r := FormSet(form, key, value);
      assert r == [form[0]] + rest;
      forall i | 1 <= i < |form| ensures r[i].0 == form[i].0 && (form[i].0 != key ==> r[i] == form[i]) {
        assert r[i] == rest[i - 1] && form[i] == form[1..][i - 1];
      }
    }
  }

  /** The form a product's page starts with: one empty answer per declared
      field. */
  function InitialFormData(fields: seq<InputField>): (r: FormData)
    ensures UniqueKeys(r)
    decreases |fields|
  {
    if |fields| == 0 then []
    else
      var prev := InitialFormData(fields[..|fields| - 1]);
      FormSetKeepsUnique(prev, fields[|fields| - 1].name, "");
      FormSet(prev, fields[|fields| - 1].name, "")
  }

  /** Every declared field starts with the empty answer. */
  lemma {:induction false} InitialAnswersEmpty(fields: seq<InputField>)
    ensures forall i :: 0 <= i < |fields| ==> FormGet(InitialFormData(fields), fields[i].name) == Some("")
    decreases |fields|
  {
    if |fields| > 0 {
      var init := fields[..|fields| - 1];
      var last := fields[|fields| - 1];
      InitialAnswersEmpty(init);
      var prev := InitialFormData(init);
      forall i | 0 <= i < |fields|
        ensures FormGet(InitialFormData(fields), fields[i].name) == Some("")
      {
        if fields[i].name != last.name {
          assert init[i] == fields[i];
          assert FormGet(prev, init[i].name) == Some("");
        }
      }
    }
  }

  /** The starting form has no key other than a declared field's name. */
  lemma {:induction false} InitialKeysDeclared(fields: seq<InputField>, key: string)
    requires forall i :: 0 <= i < |fields| ==> fields[i].name != key
    ensures FormGet(InitialFormData(fields), key).None?
    decreases |fields|
  {
    if |fields| > 0 {
      InitialKeysDeclared(fields[..|fields| - 1], key);
    }
  }

  /** The package selected after the list has loaded: the first one, or
      none while the list is empty. */
  function FirstPackage(pkgs: seq<Package>): (r: Option<int>)
    ensures r.Some? <==> |pkgs| > 0
    ensures r.Some? ==> r.value == pkgs[0].id
  {
    if |pkgs| > 0 then Some(pkgs[0].id) else None
  }

  /** `packages.find(p => p.id === selectedPackage)` */
  function FindPackage(pkgs: seq<Package>, selected: Option<int>): (r: Option<Package>)
    ensures r.Some? ==> selected.Some? && r.value in pkgs && r.value.id == selected.value
    ensures r.None? <==> selected.None? || forall i :: 0 <= i < |pkgs| ==> pkgs[i].id != selected.value
    ensures r.Some? && |pkgs| > 0 && pkgs[0].id == selected.value ==> r.value == pkgs[0]
  {
    if selected.None? || |pkgs| == 0 then None
    else if pkgs[0].id == selected.value then Some(pkgs[0])
    else
      var r := FindPackage(pkgs[1..], selected);
      assert forall i :: 1 <= i < |pkgs| ==> pkgs[i] == pkgs[1..][i - 1];
      r
  }

  /** The first package of a non-empty list is both selected and found. */
  lemma FirstPackageFound(pkgs: seq<Package>)
    requires |pkgs| > 0
    ensures FindPackage(pkgs, FirstPackage(pkgs)) == Some(pkgs[0])
  {
  }

  /** `selectedPackage` is truthy: chosen, and not the id 0. */
  predicate PackageChosen(selected: Option<int>) {
    selected.Some? && selected.value != 0
  }

  /** `formData[name]` is truthy. */
  predicate Filled(form: FormData, name: string) {
    FormGet(form, name).Some? && FormGet(form, name).value != ""
  }

  /** A required field without an answer. */
  predicate Missing(f: InputField, form: FormData) {
    f.required && !Filled(form, f.name)
  }

  const SelectPackage := "Please select a package"

  /** `validateForm` of the game page: the message to show, or None to go on. */
  function ValidateGame(selected: Option<int>, fields: seq<InputField>, form: FormData): (r: Option<string>)
    ensures !PackageChosen(selected) ==> r == Some(SelectPackage)
    ensures PackageChosen(selected) ==> (r.None? <==> forall j :: 0 <= j < |fields| ==> !Missing(fields[j], form))
    ensures PackageChosen(selected) && r.Some? ==>
      exists j :: 0 <= j < |fields| && Missing(fields[j], form)
        && (forall i :: 0 <= i < j ==> !Missing(fields[i], form))
        && r.value == fields[j].labelText + " is required"
  {
    if !PackageChosen(selected) then Some(SelectPackage)
    else
      match FirstMissing(fields, form)
      case None => None
      case Some(j) => Some(fields[j].labelText + " is required")
  }

  /** The index of the first required field without an answer. */
  function FirstMissing(fields: seq<InputField>, form: FormData): (r: Option<nat>)
    ensures r.Some? ==> r.value < |fields| && Missing(fields[r.value], form)
    ensures r.Some? ==> forall j :: 0 <= j < r.value ==> !Missing(fields[j], form)
    ensures r.None? <==> forall j :: 0 <= j < |fields| ==> !Missing(fields[j], form)
  {
    if |fields| == 0 then None
    else if Missing(fields[0], form) then Some(0)
    else
      assert forall j :: 1 <= j < |fields| ==> fields[j] == fields[1..][j - 1];
      match FirstMissing(fields[1..], form)
      case None => None
      case Some(i) => Some(i + 1)
  }

  /** On the form the page starts with, the check passes exactly when no
      field is required. */
  lemma FreshFormNeedsRequired(selected: Option<int>, fields: seq<InputField>)
    requires PackageChosen(selected)
    ensures ValidateGame(selected, fields, InitialFormData(fields)).None?
            <==> forall j :: 0 <= j < |fields| ==> !fields[j].required
  {
    var form := InitialFormData(fields);
    InitialAnswersEmpty(fields);
    forall j | 0 <= j < |fields|
      ensures Missing(fields[j], form) <==> fields[j].required
    {
      assert FormGet(form, fields[j].name) == Some("");
    }
  }

  /** Answering a field with a non-empty value makes it no longer missing,
      and changes nothing for the fields of other names. */
  lemma AnswerFillsField(fields: seq<InputField>, form: FormData, name: string, value: string)
    requires value != ""
    ensures forall j :: 0 <= j < |fields| ==>
      !Missing(fields[j], FormSet(form, name, value))
      || (fields[j].name != name && Missing(fields[j], form))
  {
  }

  // ---------------------------------------------------------------------
  // The e-mail check of the digital page
  // ---------------------------------------------------------------------

  /** A run of `[^\s@]+`. */
  ghost predicate Part(x: string) {
    |x| > 0 && forall j :: 0 <= j < |x| ==> !IsSpace(x[j]) && x[j] != '@'
  }

  /** `s` matches `^[^\s@]+@[^\s@]+\.[^\s@]+$`: a local part, '@', a domain
      part, '.', and a last part, none empty and none holding white space or
      '@'. */
  ghost predicate MatchesEmailPattern(s: string) {
    exists i, k :: 0 < i && i + 1 < k && k + 1 < |s| && s[i] == '@' && s[k] == '.'
      && Part(s[..i]) && Part(s[i + 1..k]) && Part(s[k + 1..])
  }

  /** The index of the first `c` in `s`. */
  function FirstIndex(s: string, c: char): (r: Option<nat>)
    ensures r.Some? ==> r.value < |s| && s[r.value] == c && c !in s[..r.value]
    ensures r.None? ==> c !in s
  {
    if |s| == 0 then None
    else if s[0] == c then Some(0)
    else
      match FirstIndex(s[1..], c)
      case None => None
      case Some(i) =>
        assert s[..i + 1] == [s[0]] + s[1..][..i];
        Some(i + 1)
  }

  /** The check as a computation: no white space, a single '@' that is not
      first, and a '.' after it with at least one character on either side. */
  predicate IsEmail(s: string) {
    && (forall j :: 0 <= j < |s| ==> !IsSpace(s[j]))
    && FirstIndex(s, '@').Some?
    && var i := FirstIndex(s, '@').value;
       0 < i && '@' !in s[i + 1..] && i + 2 <= |s| - 1 && '.' in s[i + 2..|s| - 1]
  }

  /** The computed check accepts exactly the strings the pattern matches. */
  lemma EmailCheckIsPattern(s: string)
    ensures IsEmail(s) <==> MatchesEmailPattern(s)
  {
    if IsEmail(s) {
      EmailCheckSound(s);
    }
    if MatchesEmailPattern(s) {
      EmailCheckComplete(s);
    }
  }

  /** Every string the computed check accepts matches the pattern. */
  lemma EmailCheckSound(s: string)
    requires IsEmail(s)
    ensures MatchesEmailPattern(s)
  {
    var i := FirstIndex(s, '@').value;
    var m :| 0 <= m < |s[i + 2..|s| - 1]| && s[i + 2..|s| - 1][m] == '.';
    var k := i + 2 + m;
    assert s[k] == '.';
    assert forall j :: 0 <= j < i ==> s[..i][j] == s[j] && s[j] in s[..i];
    assert forall j :: i + 1 <= j < |s| ==> s[j] in s[i + 1..];
    assert Part(s[..i]);
    assert Part(s[i + 1..k]);
    assert Part(s[k + 1..]);
  }

  /** Every string the pattern matches passes the computed check. */
  lemma EmailCheckComplete(s: string)
    requires MatchesEmailPattern(s)
    ensures IsEmail(s)
  {
    var i, k :| 0 < i && i + 1 < k && k + 1 < |s| && s[i] == '@' && s[k] == '.'
      && Part(s[..i]) && Part(s[i + 1..k]) && Part(s[k + 1..]);
    EmailPartsNoSpace(s, i, k);
    FirstAtIs(s, i);
    assert s[i + 2..|s| - 1][k - (i + 2)] == '.';
  }

  /** In a matched address every character is free of white space and every
      character after the '@' is not '@'. */
  lemma EmailPartsNoSpace(s: string, i: int, k: int)
    requires 0 < i && i + 1 < k && k + 1 < |s| && s[i] == '@' && s[k] == '.'
    requires Part(s[..i]) && Part(s[i + 1..k]) && Part(s[k + 1..])
    ensures forall j :: 0 <= j < |s| ==> !IsSpace(s[j])
    ensures '@' !in s[i + 1..]
  {
    forall j | 0 <= j < |s| ensures !IsSpace(s[j]) && (j > i ==> s[j] != '@') {
      if j < i {
        assert s[j] == s[..i][j];
      } else if i < j < k {
        assert s[j] == s[i + 1..k][j - (i + 1)];
      } else if k < j {
        assert s[j] == s[k + 1..][j - (k + 1)];
      }
    }
  }

  /** The first '@' is the one the pattern matched. */
  lemma FirstAtIs(s: string, i: int)
    requires 0 < i < |s| && s[i] == '@' && Part(s[..i])
    ensures FirstIndex(s, '@') == Some(i)
  {
    assert s[i] in s[..i + 1];
    assert forall j :: 0 <= j < i ==> s[..i][j] == s[j];
  }

  const EmailRequired := "Email is required for product delivery"
  const EmailInvalid := "Please enter a valid email address"

  /** `validateForm` of the digital page: the package, then a non-empty
      e-mail, then its shape; the first failure decides the message. */
  function ValidateDigital(selected: Option<int>, email: string): (r: Option<string>)
    ensures !PackageChosen(selected) ==> r == Some(SelectPackage)
    ensures PackageChosen(selected) && email == "" ==> r == Some(EmailRequired)
    ensures PackageChosen(selected) && email != "" ==>
      (r.None? <==> MatchesEmailPattern(email)) && (r.Some? ==> r == Some(EmailInvalid))
    ensures r.None? ==> PackageChosen(selected) && MatchesEmailPattern(email)
  {
    EmailCheckIsPattern(email);
    if !PackageChosen(selected) then Some(SelectPackage)
    else if email == "" then Some(EmailRequired)
    else if !IsEmail(email) then Some(EmailInvalid)
    else None
  }

  // ---------------------------------------------------------------------
  // The payment proof
  // ---------------------------------------------------------------------

  /** The uploaded proof's URL (empty when none) and the preview shown. */
  datatype ProofState = ProofState(url: string, preview: Option<string>)

  const NoProof := ProofState("", None)

  /** `error.response?.data?.error || fallback` */
  function ErrorOr(error: string, fallback: string): (r: string)
    ensures fallback != "" ==> r != ""
    ensures error != "" ==> r == error
  {
    if error != "" then error else fallback
  }

  const UploadFailed := "Failed to upload payment proof"

  /** `handlePaymentProofUpload`: a file over 5 MB is refused with the size
      message and nothing is sent; otherwise `upload` is the answer of the
      upload request and `preview` the file read as a data URL. Returns the
      new proof and the page's error text. */
  function UploadProof(proof: ProofState, error: string, size: int, upload: Response<string>, preview: string)
    : (r: (ProofState, string))
    ensures Uploads.SizeError(size).Some? ==> r == (proof, Uploads.TooLarge)
    ensures Uploads.SizeError(size).None? && upload.Ok? ==> r == (ProofState(upload.value, Some(preview)), "")
    ensures Uploads.SizeError(size).None? && upload.Fail? ==>
      r == (proof.(preview := None), ErrorOr(upload.error, UploadFailed))
    ensures r.0.url != proof.url ==> size <= Uploads.MaxBytes && upload.Ok? && r.0.url == upload.value
  {
    match Uploads.SizeError(size)
    case Some(message) => (proof, message)
    case None =>
      match upload
      case Ok(url) => (ProofState(url, Some(preview)), "")
      case Fail(_, e) => (proof.(preview := None), ErrorOr(e, UploadFailed))
  }
}
