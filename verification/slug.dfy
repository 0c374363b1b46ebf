/**
 * The slug generator of the digital product admin page
 * (client/src/pages/admin/DigitalProductManagement.jsx): lower-case the name,
 * drop every character other than a-z, 0-9, white space and `-`, turn each
 * run of white space into one `-`, collapse runs of `-`, and trim.
 *
 * A slug so made holds only a-z, 0-9 and `-` and never two `-` in a row, so
 * making a slug of a slug changes nothing; and since no white space is left
 * for the final trim, a name that starts or ends with a space gives a slug
 * that starts or ends with `-`.
 */
module Slug {
  import opened Text
  import opened Lists

  /** The characters the second step keeps. */
  predicate Kept(c: char) {
    IsLowerAscii(c) || IsDigit(c) || IsSpace(c) || c == '-'
  }

  /** The characters a slug is made of. */
  predicate SlugChar(c: char) {
    IsLowerAscii(c) || IsDigit(c) || c == '-'
  }

  predicate NoDoubleDash(s: string) {
    forall i :: 0 <= i < |s| - 1 ==> !(s[i] == '-' && s[i + 1] == '-')
  }

  /** `.replace(/[^a-z0-9\s-]/g, '')` */
  function KeepAllowed(s: string): (r: string)
    ensures forall i :: 0 <= i < |r| ==> Kept(r[i]) && r[i] in s
    ensures (forall i :: 0 <= i < |s| ==> Kept(s[i])) ==> r == s
    ensures r == Filter(s, Kept)
  {
    if |s| == 0 then ""
    else if Kept(s[0]) then
      var r := [s[0]] + KeepAllowed(s[1..]);
      assert [s[0]] + s[1..] == s;
      r
    else KeepAllowed(s[1..])
  }

  /** `.replace(/\s+/g, '-')`: each run of white space becomes one `-` (here
      written at the run's last character). */
  function DashSpaces(s: string): (r: string)
    ensures forall i :: 0 <= i < |r| ==> !IsSpace(r[i]) && (r[i] == '-' || r[i] in s)
    ensures (forall i :: 0 <= i < |s| ==> !IsSpace(s[i])) ==> r == s
  {
    if |s| == 0 then ""
    else if IsSpace(s[0]) then
      if |s| > 1 && IsSpace(s[1]) then DashSpaces(s[1..]) else "-" + DashSpaces(s[1..])
    else
      assert [s[0]] + s[1..] == s;
      [s[0]] + DashSpaces(s[1..])
  }

  /** DashSpaces works piece by piece: text cut anywhere but inside a run of
      white space is transformed one piece at a time. */
  lemma {:induction false} DashSpacesSplits(a: string, b: string)
    requires |a| == 0 || |b| == 0 || !IsSpace(a[|a| - 1]) || !IsSpace(b[0])
    ensures DashSpaces(a + b) == DashSpaces(a) + DashSpaces(b)
    decreases |a|
  {
    if |a| == 0 {
      assert a + b == b;
    } else if |b| == 0 {
      assert a + b == a;
    } else {
      var s := a + b;
      assert s[0] == a[0];
      assert s[1..] == a[1..] + b;
      if |a| == 1 {
        assert a[1..] == "";
        assert s[1] == b[0];
        assert s[1..] == b;
        var head := if IsSpace(a[0]) then "-" else [a[0]];
        assert DashSpaces(a) == head + DashSpaces("");
        assert DashSpaces(s) == head + DashSpaces(b);
      } else {
        assert s[1] == a[1];
        DashSpacesSplits(a[1..], b);
        if IsSpace(a[0]) && IsSpace(a[1]) {
          assert DashSpaces(a) == DashSpaces(a[1..]);
          assert DashSpaces(s) == DashSpaces(a[1..] + b);
        } else {
          var head := if IsSpace(a[0]) then "-" else [a[0]];
          assert DashSpaces(a) == head + DashSpaces(a[1..]);
          assert DashSpaces(s) == head + DashSpaces(a[1..] + b);
        }
      }
    }
  }

  /** A whole run of white space becomes a single `-`. */
  lemma {:induction false} DashSpacesRun(w: string)
    requires |w| > 0 && forall i :: 0 <= i < |w| ==> IsSpace(w[i])
    ensures DashSpaces(w) == "-"
  {
    if |w| > 1 {
      assert IsSpace(w[0]) && IsSpace(w[1]);
      DashSpacesRun(w[1..]);
    } else {
      assert w[1..] == "";
    }
  }

  /** `.replace(/-+/g, '-')`: each run of `-` becomes one `-` (here the run's
      last one is kept). */
  function CollapseDashes(s: string): (r: string)
    ensures |s| > 0 ==> |r| > 0 && r[0] == s[0]
    ensures forall i :: 0 <= i < |r| ==> r[i] in s
    ensures NoDoubleDash(r)
    ensures NoDoubleDash(s) ==> r == s
  {
    if |s| == 0 then ""
    else if s[0] == '-' && |s| > 1 && s[1] == '-' then
      var r := CollapseDashes(s[1..]);
      assert r[0] == '-';
      r
    else
      var rest := CollapseDashes(s[1..]);
      var r := [s[0]] + rest;
      assert r[1..] == rest;
      assert [s[0]] + s[1..] == s;
      r
  }

  /** CollapseDashes works piece by piece: text cut anywhere but inside a run
      of `-` is transformed one piece at a time. */
  lemma {:induction false} CollapseSplits(a: string, b: string)
    requires |a| == 0 || |b| == 0 || a[|a| - 1] != '-' || b[0] != '-'
    ensures CollapseDashes(a + b) == CollapseDashes(a) + CollapseDashes(b)
    decreases |a|
  {
    if |a| == 0 {
      assert a + b == b;
    } else if |b| == 0 {
      assert a + b == a;
    } else {
      var s := a + b;
      assert s[0] == a[0];
      assert s[1..] == a[1..] + b;
      if |a| == 1 {
        assert a[1..] == "";
        assert s[1] == b[0];
        assert s[1..] == b;
      } else {
        assert s[1] == a[1];
        CollapseSplits(a[1..], b);
      }
    }
  }

  /** A whole run of `-` becomes a single `-`. */
  lemma {:induction false} CollapseRun(w: string)
    requires |w| > 0 && forall i :: 0 <= i < |w| ==> w[i] == '-'
    ensures CollapseDashes(w) == "-"
  {
    if |w| > 1 {
      assert w[0] == '-' && w[1] == '-';
      CollapseRun(w[1..]);
    } else {
      assert w[1..] == "";
    }
  }

  /** `generateSlug(name)` */
  function GenerateSlug(name: string): (r: string)
    ensures forall i :: 0 <= i < |r| ==> SlugChar(r[i])
    ensures NoDoubleDash(r)
  {
    var collapsed := CollapseDashes(DashSpaces(KeepAllowed(Lower(name))));
    assert forall i :: 0 <= i < |collapsed| ==> SlugChar(collapsed[i]) by {
      forall i | 0 <= i < |collapsed| ensures SlugChar(collapsed[i]) {
        var c := collapsed[i];
        assert c in DashSpaces(KeepAllowed(Lower(name)));
        assert !IsSpace(c) && (c == '-' || c in KeepAllowed(Lower(name)));
      }
    }
    TrimNoSpace(collapsed);
    Trim(collapsed)
  }

  /** The final `.trim()` removes nothing: the slug is the collapsed text. */
  lemma TrimRemovesNothing(name: string)
    ensures GenerateSlug(name) == CollapseDashes(DashSpaces(KeepAllowed(Lower(name))))
  {
    var collapsed := CollapseDashes(DashSpaces(KeepAllowed(Lower(name))));
    forall i | 0 <= i < |collapsed| ensures !IsSpace(collapsed[i]) {
      assert collapsed[i] in DashSpaces(KeepAllowed(Lower(name)));
    }
    TrimNoSpace(collapsed);
  }

  /** Every slug made of slug characters without `--` is its own slug. */
  lemma SlugFixedPoint(t: string)
    requires forall i :: 0 <= i < |t| ==> SlugChar(t[i])
    requires NoDoubleDash(t)
    ensures GenerateSlug(t) == t
  {
    assert Lower(t) == t;
    assert KeepAllowed(t) == t;
    assert DashSpaces(t) == t;
    TrimRemovesNothing(t);
  }

  /** Making a slug of a slug changes nothing. */
  lemma GenerateSlugIdempotent(name: string)
    ensures GenerateSlug(GenerateSlug(name)) == GenerateSlug(name)
  {
    SlugFixedPoint(GenerateSlug(name));
  }

  /** A name padded with spaces keeps a `-` at each end: " a " gives "-a-". */
  lemma PaddedNameKeepsDashes()
    ensures GenerateSlug(" a ") == "-a-"
  {
    assert Lower(" a ") == " a ";
    assert KeepAllowed(" a ") == " a ";
    assert DashSpaces(" a ") == "-a-";
    assert CollapseDashes("-a-") == "-a-";
    TrimRemovesNothing(" a ");
  }

  /** `handleNameChange`: the name is taken as typed; a new product's slug
      follows it, an edited product's slug stays as it was. */
  function NameChange(slug: string, name: string, editing: bool): (r: (string, string))
    ensures r.0 == name
    ensures editing ==> r.1 == slug
    ensures !editing ==> r.1 == GenerateSlug(name) && GenerateSlug(r.1) == r.1
  {
    GenerateSlugIdempotent(name);
    (name, if editing then slug else GenerateSlug(name))
  }
}
