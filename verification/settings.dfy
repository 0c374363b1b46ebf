/**
 * The settings store (routes/settings.js): key/value rows with unique keys,
 * read one at a time or folded into one object, and written by upsert.
 */
module Settings {
  import opened Js

  datatype Setting = Setting(key: string, value: string)

  /** `key TEXT PRIMARY KEY` */
  ghost predicate UniqueKeys(rows: seq<Setting>) {
    forall i, j :: 0 <= i < j < |rows| ==> rows[i].key != rows[j].key
  }

  ghost predicate HasKey(rows: seq<Setting>, key: string) {
    exists i :: 0 <= i < |rows| && rows[i].key == key
  }

  /** `findUnique({ where: { key } })?.value` */
  function Lookup(rows: seq<Setting>, key: string): (r: Option<string>)
    ensures r.Some? <==> HasKey(rows, key)
    ensures r.Some? ==> exists i :: 0 <= i < |rows| && rows[i] == Setting(key, r.value)
  {
    if |rows| == 0 then None
    else if rows[0].key == key then Some(rows[0].value)
    else
      var r := Lookup(rows[1..], key);
      assert HasKey(rows[1..], key) ==> HasKey(rows, key);
      assert HasKey(rows, key) ==> HasKey(rows[1..], key) by {
        if HasKey(rows, key) {
          var i :| 0 <= i < |rows| && rows[i].key == key;
          assert rows[1..][i - 1].key == key;
        }
      }
      if r.Some? then
        var i :| 0 <= i < |rows[1..]| && rows[1..][i] == Setting(key, r.value);
        assert rows[i + 1] == Setting(key, r.value);
        r
      else r
  }

  /** GET / : `settings.forEach(s => obj[s.key] = s.value)`. */
  function ToObject(rows: seq<Setting>): (m: map<string, string>)
    ensures forall k :: k in m <==> HasKey(rows, k)
  {
    if |rows| == 0 then map[]
    else
      var init := rows[..|rows| - 1];
      var last := rows[|rows| - 1];
      assert forall k :: HasKey(init, k) ==> HasKey(rows, k) by {
        forall k | HasKey(init, k) ensures HasKey(rows, k) {
          var i :| 0 <= i < |init| && init[i].key == k;
          assert rows[i].key == k;
        }
      }
      ToObject(init)[last.key := last.value]
  }

  /** With unique keys a lookup finds the value of the one row with the key. */
  lemma {:induction false} LookupAt(rows: seq<Setting>, i: int)
    requires UniqueKeys(rows) && 0 <= i < |rows|
    ensures Lookup(rows, rows[i].key) == Some(rows[i].value)
    decreases |rows|
  {
    if i > 0 {
      assert rows[1..][i - 1] == rows[i];
      LookupAt(rows[1..], i - 1);
    }
  }

  /** With unique keys the folded object maps each row's key to its value. */
  lemma {:induction false} ToObjectAt(rows: seq<Setting>, i: int)
    requires UniqueKeys(rows) && 0 <= i < |rows|
    ensures ToObject(rows)[rows[i].key] == rows[i].value
    decreases |rows|
  {
    var init := rows[..|rows| - 1];
    if i < |rows| - 1 {
      assert init[i] == rows[i];
      ToObjectAt(init, i);
    }
  }

  /** With unique keys the folded object holds, for every stored key, the
      value a single lookup of that key returns. */
  lemma ToObjectAgreesWithLookup(rows: seq<Setting>, key: string)
    requires UniqueKeys(rows)
    requires HasKey(rows, key)
    ensures ToObject(rows)[key] == Lookup(rows, key).value
  {
    var i :| 0 <= i < |rows| && rows[i].key == key;
    LookupAt(rows, i);
    ToObjectAt(rows, i);
  }

  /** With unique keys the object has exactly one entry per stored row. */
  lemma {:induction false} ToObjectSize(rows: seq<Setting>)
    requires UniqueKeys(rows)
    ensures |ToObject(rows)| == |rows|
    decreases |rows|
  {
    if |rows| > 0 {
      var init := rows[..|rows| - 1];
      ToObjectSize(init);
    }
  }

  /** GET /:key */
  function Get(rows: seq<Setting>, key: string): (r: Response<Setting>)
    ensures !HasKey(rows, key) <==> r == Fail(404, "Setting not found")
    ensures r.Ok? ==> r.value.key == key && r.value.value == Lookup(rows, key).value
  {
    match Lookup(rows, key)
    case None => Fail(404, "Setting not found")
    case Some(v) => Ok(Setting(key, v))
  }

  /** The rows after `upsert`: the row with the key gets the new value in
      place, or a new row is appended. */
  function Upsert(rows: seq<Setting>, key: string, value: string): (r: seq<Setting>)
    ensures Lookup(r, key) == Some(value)
    ensures forall k :: k != key ==> Lookup(r, k) == Lookup(rows, k)
    ensures |r| == if HasKey(rows, key) then |rows| else |rows| + 1
  {
    if |rows| == 0 then [Setting(key, value)]
    else if rows[0].key == key then
      var r := [Setting(key, value)] + rows[1..];
      assert r[1..] == rows[1..];
      r
    else
      var rest := Upsert(rows[1..], key, value);
      var r := [rows[0]] + rest;
      assert r[1..] == rest;
      assert HasKey(rows, key) <==> HasKey(rows[1..], key) by {
        if HasKey(rows, key) {
          var i :| 0 <= i < |rows| && rows[i].key == key;
          assert rows[1..][i - 1].key == key;
        }
        if HasKey(rows[1..], key) {
          var i :| 0 <= i < |rows[1..]| && rows[1..][i].key == key;
          assert rows[i + 1].key == key;
        }
      }
      r
  }

  /** Upserting keeps the keys unique. */
  lemma {:induction false} UpsertKeepsUnique(rows: seq<Setting>, key: string, value: string)
    requires UniqueKeys(rows)
    ensures UniqueKeys(Upsert(rows, key, value))
    decreases |rows|
  {
    if |rows| > 0 && rows[0].key != key {
      var rest := Upsert(rows[1..], key, value);
      assert [rows[0]] + rest == Upsert(rows, key, value);
      UpsertKeepsUnique(rows[1..], key, value);
      TailLacksHead(rows);
      assert Lookup(rest, rows[0].key) == Lookup(rows[1..], rows[0].key);
      ConsKeepsUnique(rows[0], rest);
    } else if |rows| > 0 {
      assert Upsert(rows, key, value) == [Setting(key, value)] + rows[1..];
      ConsKeepsUnique(Setting(key, value), rows[1..]);
    }
  }

  /** With unique keys, the first row's key is not among the others. */
  lemma TailLacksHead(rows: seq<Setting>)
    requires UniqueKeys(rows) && |rows| > 0
    ensures !HasKey(rows[1..], rows[0].key)
  {
    forall i | 0 <= i < |rows[1..]| ensures rows[1..][i].key != rows[0].key {
      assert rows[1..][i] == rows[i + 1];
    }
  }

  /** A row whose key the others lack can go in front of them. */
  lemma ConsKeepsUnique(s: Setting, rows: seq<Setting>)
    requires UniqueKeys(rows) && !HasKey(rows, s.key)
    ensures UniqueKeys([s] + rows)
  {
    var r := [s] + rows;
    forall i, j | 0 <= i < j < |r| ensures r[i].key != r[j].key {
      assert r[j] == rows[j - 1];
      if i > 0 {
        assert r[i] == rows[i - 1];
      }
    }
  }


  /** PUT /:key : a left-out value is refused; a `null` value fails the
      NOT NULL column. */
  function Put(rows: seq<Setting>, key: string, value: Field<string>): (r: Response<(seq<Setting>, Setting)>)
    requires UniqueKeys(rows)
    ensures value.Absent? <==> r == Fail(400, "Value is required")
    ensures value.Null? <==> r == Fail(500, InternalError)
    ensures r.Ok? ==>
      var (rows', s) := r.value;
      && s == Setting(key, value.value)
      && UniqueKeys(rows')
      && Lookup(rows', key) == Some(value.value)
      && (forall k :: k != key ==> Lookup(rows', k) == Lookup(rows, k))
  {
    match value
    case Absent => Fail(400, "Value is required")
    case Null => Fail(500, InternalError)
    case Given(v) =>
      UpsertKeepsUnique(rows, key, v);
      Ok((Upsert(rows, key, v), Setting(key, v)))
  }

  /** After a PUT the folded object is the old one with that key set. */
  lemma PutThenGetAll(rows: seq<Setting>, key: string, value: string)
    requires UniqueKeys(rows)
    ensures ToObject(Put(rows, key, Given(value)).value.0) == ToObject(rows)[key := value]
  {
    var rows' := Put(rows, key, Given(value)).value.0;
    assert UniqueKeys(rows') && Lookup(rows', key) == Some(value);
    var m := ToObject(rows);
    var m' := ToObject(rows');
    forall k ensures k in m' <==> k in m[key := value] {
      assert k != key ==> Lookup(rows', k) == Lookup(rows, k);
    }
    forall k | k in m' ensures m'[k] == m[key := value][k] {
      ToObjectAgreesWithLookup(rows', k);
      if k != key {
        ToObjectAgreesWithLookup(rows, k);
      }
    }
  }

  /** Putting the same value twice is the same as putting it once. */
  lemma PutIdempotent(rows: seq<Setting>, key: string, value: string)
    requires UniqueKeys(rows)
    ensures var once := Put(rows, key, Given(value)).value.0;
            Put(once, key, Given(value)).value.0 == once
  {
    UpsertExisting(Put(rows, key, Given(value)).value.0, key, value);
  }

  /** Upserting the value a key already has changes nothing. */
  lemma {:induction false} UpsertExisting(rows: seq<Setting>, key: string, value: string)
    requires Lookup(rows, key) == Some(value)
    ensures Upsert(rows, key, value) == rows
    decreases |rows|
  {
    if rows[0].key == key {
      assert [Setting(key, value)] + rows[1..] == rows;
    } else {
      UpsertExisting(rows[1..], key, value);
      assert [rows[0]] + rows[1..] == rows;
    }
  }
}
