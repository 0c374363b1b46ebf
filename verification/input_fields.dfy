/**
 * The descriptors of a product's checkout form (`input_fields`): what the
 * product admin page (client/src/pages/admin/ProductManagement.jsx) edits
 * row by row and sends as JSON, what the server stores as a JSON array, and
 * what the checkout page (client/src/pages/ProductDetail.jsx) builds its
 * form from.
 */
module InputFields {
  import opened Js

  /** `{ name, label, type, required, placeholder, help }` */
  datatype InputField = InputField(
    name: string,
    labelText: string,
    fieldType: string,
    required: bool,
    placeholder: string,
    help: string)

  /** The row `addInputField` appends. */
  const BlankField := InputField("", "", "text", false, "", "")

  /** `addInputField`: one blank row at the end. */
  function AddField(fs: seq<InputField>): (r: seq<InputField>)
    ensures |r| == |fs| + 1
    ensures r[..|fs|] == fs
    ensures r[|fs|] == BlankField && !r[|fs|].required
  {
    fs + [BlankField]
  }

  /** `updateInputField(index, field)`: the row at `index` becomes `field`;
      no other row changes. */
  function UpdateField(fs: seq<InputField>, index: int, field: InputField): (r: seq<InputField>)
    requires 0 <= index < |fs|
    ensures |r| == |fs|
    ensures r[index] == field
    ensures forall i :: 0 <= i < |fs| && i != index ==> r[i] == fs[i]
  {
    fs[index := field]
  }

  /** `removeInputField(index)`: `inputFields.filter((_, i) => i !== index)`. */
  function RemoveField(fs: seq<InputField>, index: int): (r: seq<InputField>)
    ensures 0 <= index < |fs| ==> |r| == |fs| - 1
    ensures 0 <= index < |fs| ==> forall i :: 0 <= i < |r| ==> r[i] == (if i < index then fs[i] else fs[i + 1])
    ensures !(0 <= index < |fs|) ==> r == fs
  {
    if 0 <= index < |fs| then fs[..index] + fs[index + 1..] else fs
  }

  /** Removing the row just added gives the list back. */
  lemma RemoveUndoesAdd(fs: seq<InputField>)
    ensures RemoveField(AddField(fs), |fs|) == fs
  {
    assert AddField(fs)[..|fs|] == fs;
  }

  /** Updating a row to what it already holds changes nothing, and updating
      twice keeps only the second value. */
  lemma UpdateLaws(fs: seq<InputField>, index: int, f: InputField, g: InputField)
    requires 0 <= index < |fs|
    ensures UpdateField(fs, index, fs[index]) == fs
    ensures UpdateField(UpdateField(fs, index, f), index, g) == UpdateField(fs, index, g)
  {
  }

  /** The JSON object of one row. */
  function ToJson(f: InputField): Json {
    JObject([("name", JString(f.name)), ("label", JString(f.labelText)), ("type", JString(f.fieldType)),
             ("required", JBool(f.required)), ("placeholder", JString(f.placeholder)),
             ("help", JString(f.help))])
  }

  /** The value of the first entry with this key. */
  function Member(entries: seq<(string, Json)>, key: string): (r: Option<Json>)
    ensures r.Some? ==> exists i :: 0 <= i < |entries| && entries[i] == (key, r.value)
    ensures r.None? ==> forall i :: 0 <= i < |entries| ==> entries[i].0 != key
  {
    if |entries| == 0 then None
    else if entries[0].0 == key then Some(entries[0].1)
    else
      var r := Member(entries[1..], key);
      assert forall i :: 1 <= i < |entries| ==> entries[i] == entries[1..][i - 1];
      r
  }

  function MemberText(entries: seq<(string, Json)>, key: string): Option<string> {
    match Member(entries, key)
    case Some(JString(s)) => Some(s)
    case _ => None
  }

  /** Reads a row back from JSON; None unless every member has its type. */
  function FromJson(j: Json): (r: Option<InputField>)
    ensures r.Some? ==> j.JObject?
  {
    if !j.JObject? then None
    else
      var n, l, t := MemberText(j.entries, "name"), MemberText(j.entries, "label"), MemberText(j.entries, "type");
      var req, p, h := Member(j.entries, "required"), MemberText(j.entries, "placeholder"), MemberText(j.entries, "help");
      if n.Some? && l.Some? && t.Some? && req.Some? && req.value.JBool? && p.Some? && h.Some? then
        Some(InputField(n.value, l.value, t.value, req.value.b, p.value, h.value))
      else None
  }

  /** The member names of a row's JSON object, in order. */
  const RowKeys: seq<string> := ["name", "label", "type", "required", "placeholder", "help"]

  lemma RowKeysDistinct()
    ensures forall i, j :: 0 <= i < j < |RowKeys| ==> RowKeys[i] != RowKeys[j]
  {
    assert forall i, j :: 0 <= i < j < |RowKeys| ==> RowKeys[i][0] != RowKeys[j][0];
  }

  /** Encoding then decoding a row gives the row back. */
  lemma RowRoundTrip(f: InputField)
    ensures FromJson(ToJson(f)) == Some(f)
  {
    var es := ToJson(f).entries;
    assert |es| == 6 && forall i :: 0 <= i < 6 ==> es[i].0 == RowKeys[i];
    RowKeysDistinct();
    MemberTextAt(es, RowKeys[0], 0, f.name);
    MemberTextAt(es, RowKeys[1], 1, f.labelText);
    MemberTextAt(es, RowKeys[2], 2, f.fieldType);
    MemberAt(es, RowKeys[3], 3);
    MemberTextAt(es, RowKeys[4], 4, f.placeholder);
    MemberTextAt(es, RowKeys[5], 5, f.help);
  }

  lemma MemberTextAt(entries: seq<(string, Json)>, key: string, k: int, s: string)
    requires 0 <= k < |entries| && entries[k] == (key, JString(s))
    requires forall j :: 0 <= j < k ==> entries[j].0 != key
    ensures MemberText(entries, key) == Some(s)
  {
    MemberAt(entries, key, k);
  }

  /** The first entry with the key decides. */
  lemma {:induction false} MemberAt(entries: seq<(string, Json)>, key: string, k: int)
    requires 0 <= k < |entries| && entries[k].0 == key
    requires forall j :: 0 <= j < k ==> entries[j].0 != key
    ensures Member(entries, key) == Some(entries[k].1)
    decreases k
  {
    if k > 0 {
      MemberAt(entries[1..], key, k - 1);
    }
  }

  /** The JSON array the admin page sends (before `JSON.stringify`). */
  function EncodeFields(fs: seq<InputField>): (j: Json)
    ensures j.JArray? && |j.items| == |fs|
    ensures forall i :: 0 <= i < |fs| ==> j.items[i] == ToJson(fs[i])
  {
    JArray(seq(|fs|, i requires 0 <= i < |fs| => ToJson(fs[i])))
  }

  /** Reads the rows of a JSON array; None unless every element is a row. */
  function DecodeItems(items: seq<Json>): (r: Option<seq<InputField>>)
    ensures r.Some? ==> |r.value| == |items|
    ensures r.Some? ==> forall i :: 0 <= i < |items| ==> FromJson(items[i]) == Some(r.value[i])
  {
    if |items| == 0 then Some([])
    else
      match (FromJson(items[0]), DecodeItems(items[1..]))
      case (Some(f), Some(rest)) =>
        var r := [f] + rest;
        assert forall i :: 1 <= i < |items| ==> items[i] == items[1..][i - 1] && r[i] == rest[i - 1];
        Some(r)
      case _ => None
  }

  /** Encoding then decoding the whole list gives the list back. */
  lemma {:induction false} FieldsRoundTrip(fs: seq<InputField>)
    ensures DecodeItems(EncodeFields(fs).items) == Some(fs)
    decreases |fs|
  {
    if |fs| > 0 {
      var items := EncodeFields(fs).items;
      assert items[1..] == EncodeFields(fs[1..]).items;
      FieldsRoundTrip(fs[1..]);
      RowRoundTrip(fs[0]);
      assert [fs[0]] + fs[1..] == fs;
    }
  }
}
