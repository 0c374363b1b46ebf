/**
 * The string operations of JavaScript the storefront relies on:
 * `toLowerCase`/`toUpperCase` (ASCII letters), the `\s` class of regular
 * expressions, `includes`/`startsWith`, `trim`, `join`, and
 * `String.prototype.replace` with a string pattern, which replaces the first
 * occurrence only and expands `$` patterns in the replacement.
 */
module Text {
  import opened Js

  predicate IsUpperAscii(c: char) {
    'A' <= c <= 'Z'
  }

  predicate IsLowerAscii(c: char) {
    'a' <= c <= 'z'
  }

  predicate IsDigit(c: char) {
    '0' <= c <= '9'
  }

  function LowerChar(c: char): (r: char)
    ensures IsUpperAscii(c) ==> IsLowerAscii(r)
    ensures !IsUpperAscii(c) ==> r == c
  {
    if IsUpperAscii(c) then (c as int + 32) as char else c
  }

  function UpperChar(c: char): (r: char)
    ensures IsLowerAscii(c) ==> IsUpperAscii(r)
    ensures !IsLowerAscii(c) ==> r == c
  {
    if IsLowerAscii(c) then (c as int - 32) as char else c
  }

  /** `s.toLowerCase()` on the ASCII letters. */
  function Lower(s: string): (r: string)
    ensures |r| == |s|
    ensures forall i :: 0 <= i < |s| ==> r[i] == LowerChar(s[i])
  {
    if |s| == 0 then "" else [LowerChar(s[0])] + Lower(s[1..])
  }

  /** `s.toUpperCase()` on the ASCII letters. */
  function Upper(s: string): (r: string)
    ensures |r| == |s|
    ensures forall i :: 0 <= i < |s| ==> r[i] == UpperChar(s[i])
  {
    if |s| == 0 then "" else [UpperChar(s[0])] + Upper(s[1..])
  }

  /** Upper-casing is idempotent, so an already upper-cased code is its own key. */
  lemma UpperIdempotent(s: string)
    ensures Upper(Upper(s)) == Upper(s)
  {
    var u := Upper(s);
    assert forall i :: 0 <= i < |u| ==> !IsLowerAscii(u[i]);
  }

  /** The characters of the `\s` class of ECMAScript regular expressions
      (white space and line terminators), which is also what `trim` removes. */
  predicate IsSpace(c: char) {
    c == '\t' || c == '\n' || c == '\U{000B}' || c == '\U{000C}' || c == '\r' || c == ' '
    || c == '\U{00A0}' || c == '\U{1680}' || ('\U{2000}' <= c <= '\U{200A}')
    || c == '\U{2028}' || c == '\U{2029}' || c == '\U{202F}' || c == '\U{205F}'
    || c == '\U{3000}' || c == '\U{FEFF}'
  }

  /** `sub` occurs in `s` at index `i`. */
  predicate OccursAt(s: string, sub: string, i: int) {
    0 <= i && i + |sub| <= |s| && s[i..i + |sub|] == sub
  }

  /** `s.includes(sub)` */
  predicate Contains(s: string, sub: string) {
    exists i | 0 <= i <= |s| - |sub| :: OccursAt(s, sub, i)
  }

  /** `s.startsWith(prefix)` */
  predicate StartsWith(s: string, prefix: string) {
    |prefix| <= |s| && s[..|prefix|] == prefix
  }

  /** The first index at or after `from` where `sub` occurs (`s.indexOf(sub)` for `from == 0`). */
  function IndexOfFrom(s: string, sub: string, from: nat): (r: Option<nat>)
    requires from <= |s|
    ensures r.Some? ==> from <= r.value && OccursAt(s, sub, r.value)
    ensures r.Some? ==> forall j :: from <= j < r.value ==> !OccursAt(s, sub, j)
    ensures r.None? ==> forall j :: from <= j ==> !OccursAt(s, sub, j)
    decreases |s| - from
  {
    if OccursAt(s, sub, from) then Some(from)
    else if from + |sub| >= |s| then None
    else IndexOfFrom(s, sub, from + 1)
  }

  function IndexOf(s: string, sub: string): (r: Option<nat>)
    ensures r.Some? <==> Contains(s, sub)
    ensures r.Some? ==> OccursAt(s, sub, r.value)
    ensures r.Some? ==> forall j :: 0 <= j < r.value ==> !OccursAt(s, sub, j)
  {
    IndexOfFrom(s, sub, 0)
  }

  /** The value a replacement string stands for in `String.prototype.replace`
      with a string pattern (GetSubstitution of the ECMAScript specification,
      with no capture groups): `$$` is `$`, `$&` the match, `` $` `` the text
      before it and `$'` the text after it; every other character, including a
      `$` that starts none of these, is literal. */
  function Substitution(rep: string, matched: string, before: string, after: string): string
    decreases |rep|
  {
    if |rep| == 0 then ""
    else if rep[0] == '$' && |rep| >= 2 && rep[1] == '$' then
      "$" + Substitution(rep[2..], matched, before, after)
    else if rep[0] == '$' && |rep| >= 2 && rep[1] == '&' then
      matched + Substitution(rep[2..], matched, before, after)
    else if rep[0] == '$' && |rep| >= 2 && rep[1] == '`' then
      before + Substitution(rep[2..], matched, before, after)
    else if rep[0] == '$' && |rep| >= 2 && rep[1] == '\'' then
      after + Substitution(rep[2..], matched, before, after)
    else
      [rep[0]] + Substitution(rep[1..], matched, before, after)
  }

  /** A replacement without `$` is inserted literally. */
  lemma {:induction false} SubstitutionLiteral(rep: string, matched: string, before: string, after: string)
    requires '$' !in rep
    ensures Substitution(rep, matched, before, after) == rep
    decreases |rep|
  {
    if |rep| > 0 {
      assert '$' !in rep[1..];
      SubstitutionLiteral(rep[1..], matched, before, after);
    }
  }

  /** `s.replace(pattern, rep)` with a string pattern: only the FIRST occurrence
      of `pattern` is replaced; without an occurrence `s` is returned unchanged. */
  function ReplaceFirst(s: string, pattern: string, rep: string): (r: string)
    ensures !Contains(s, pattern) ==> r == s
    ensures Contains(s, pattern) ==>
      var i := IndexOf(s, pattern).value;
      r == s[..i] + Substitution(rep, pattern, s[..i], s[i + |pattern|..]) + s[i + |pattern|..]
  {
    match IndexOf(s, pattern)
    case None => s
    case Some(i) =>
      s[..i] + Substitution(rep, pattern, s[..i], s[i + |pattern|..]) + s[i + |pattern|..]
  }

  /** When the first character of `pattern` does not occur in `a`, the first
      occurrence of `pattern` in `a + pattern + b` is the one right after `a`. */
  lemma IndexOfAfterPrefix(a: string, pattern: string, b: string)
    requires |pattern| > 0 && pattern[0] !in a
    ensures IndexOf(a + pattern + b, pattern) == Some(|a|)
  {
    var s := a + pattern + b;
    assert s[|a|..|a| + |pattern|] == pattern;
    assert OccursAt(s, pattern, |a|);
    forall j | 0 <= j < |a| ensures !OccursAt(s, pattern, j) {
      assert s[j] == a[j];
    }
  }

  /** The first-occurrence replacement in a string whose first occurrence is
      known: only that occurrence is replaced, and whatever follows it — other
      occurrences included — is kept. */
  lemma ReplaceFirstAfterPrefix(a: string, pattern: string, b: string, rep: string)
    requires |pattern| > 0 && pattern[0] !in a
    ensures ReplaceFirst(a + pattern + b, pattern, rep) == a + Substitution(rep, pattern, a, b) + b
  {
    var s := a + pattern + b;
    IndexOfAfterPrefix(a, pattern, b);
    assert s[..|a|] == a;
    assert s[|a| + |pattern|..] == b;
  }

  /** A replacement that starts with `$`-free text keeps that text as it is. */
  lemma {:induction false} SubstitutionLiteralPrefix(lit: string, rep: string, matched: string, before: string, after: string)
    requires '$' !in lit
    ensures Substitution(lit + rep, matched, before, after) == lit + Substitution(rep, matched, before, after)
    decreases |lit|
  {
    if |lit| > 0 {
      assert (lit + rep)[0] == lit[0] && lit[0] != '$';
      assert (lit + rep)[1..] == lit[1..] + rep;
      assert '$' !in lit[1..];
      SubstitutionLiteralPrefix(lit[1..], rep, matched, before, after);
      calc {
        Substitution(lit + rep, matched, before, after);
        [lit[0]] + Substitution((lit + rep)[1..], matched, before, after);
        [lit[0]] + (lit[1..] + Substitution(rep, matched, before, after));
        { assert [lit[0]] + lit[1..] == lit; }
        lit + Substitution(rep, matched, before, after);
      }
    } else {
      assert lit + rep == rep;
    }
  }

  /** `s.replace(pattern, () => rep)`: the first occurrence replaced by `rep`
      taken literally. */
  function ReplaceFirstLiteral(s: string, pattern: string, rep: string): (r: string)
    ensures !Contains(s, pattern) ==> r == s
  {
    match IndexOf(s, pattern)
    case None => s
    case Some(i) => s[..i] + rep + s[i + |pattern|..]
  }

  /** The literal replacement in a string whose first occurrence is known. */
  lemma ReplaceFirstLiteralAfterPrefix(a: string, pattern: string, b: string, rep: string)
    requires |pattern| > 0 && pattern[0] !in a
    ensures ReplaceFirstLiteral(a + pattern + b, pattern, rep) == a + rep + b
  {
    var s := a + pattern + b;
    IndexOfAfterPrefix(a, pattern, b);
    assert s[..|a|] == a;
    assert s[|a| + |pattern|..] == b;
  }

  /** Without `$` in the replacement the two replacements agree. */
  lemma ReplaceFirstAgreesWithLiteral(s: string, pattern: string, rep: string)
    requires '$' !in rep
    ensures ReplaceFirst(s, pattern, rep) == ReplaceFirstLiteral(s, pattern, rep)
  {
    match IndexOf(s, pattern)
    case None =>
    case Some(i) =>
      SubstitutionLiteral(rep, pattern, s[..i], s[i + |pattern|..]);
  }

  /** `items.join(sep)` */
  function Join(items: seq<string>, sep: string): string
  {
    if |items| == 0 then ""
    else if |items| == 1 then items[0]
    else items[0] + sep + Join(items[1..], sep)
  }

  /** `s.split(c)` for a one-character separator. */
  function Split(s: string, c: char): (r: seq<string>)
    ensures |r| >= 1
    decreases |s|
  {
    if |s| == 0 then [""]
    else if s[0] == c then [""] + Split(s[1..], c)
    else
      var rest := Split(s[1..], c);
      [[s[0]] + rest[0]] + rest[1..]
  }

  /** Text without the separator is one piece. */
  lemma {:induction false} SplitWithout(x: string, c: char)
    requires c !in x
    ensures Split(x, c) == [x]
    decreases |x|
  {
    if |x| > 0 {
      SplitWithout(x[1..], c);
      assert [x[0]] + x[1..] == x;
    }
  }

  /** The first separator ends the first piece. */
  lemma {:induction false} SplitAtFirst(x: string, c: char, y: string)
    requires c !in x
    ensures Split(x + [c] + y, c) == [x] + Split(y, c)
    decreases |x|
  {
    var s := x + [c] + y;
    if |x| == 0 {
      assert s[0] == c && s[1..] == y;
    } else {
      assert s[0] == x[0] && s[1..] == x[1..] + [c] + y;
      SplitAtFirst(x[1..], c, y);
      assert [x[0]] + x[1..] == x;
    }
  }

  /** Splitting undoes joining when no item holds the separator. */
  lemma {:induction false} SplitJoin(items: seq<string>, c: char)
    requires |items| >= 1
    requires forall i :: 0 <= i < |items| ==> c !in items[i]
    ensures Split(Join(items, [c]), c) == items
    decreases |items|
  {
    if |items| == 1 {
      SplitWithout(items[0], c);
    } else {
      SplitJoin(items[1..], c);
      SplitAtFirst(items[0], c, Join(items[1..], [c]));
      assert [items[0]] + items[1..] == items;
    }
  }

  function TrimStart(s: string): (r: string)
    ensures |r| <= |s| && r == s[|s| - |r|..]
    ensures |r| > 0 ==> !IsSpace(r[0])
    ensures forall i :: 0 <= i < |s| - |r| ==> IsSpace(s[i])
  {
    if |s| > 0 && IsSpace(s[0]) then TrimStart(s[1..]) else s
  }

  function TrimEnd(s: string): (r: string)
    ensures |r| <= |s| && r == s[..|r|]
    ensures |r| > 0 ==> !IsSpace(r[|r| - 1])
    ensures forall i :: |r| <= i < |s| ==> IsSpace(s[i])
  {
    if |s| > 0 && IsSpace(s[|s| - 1]) then TrimEnd(s[..|s| - 1]) else s
  }

  /** `s.trim()` */
  function Trim(s: string): string
  {
    TrimEnd(TrimStart(s))
  }

  /** `s.trim()` is empty exactly when every character of `s` is white space. */
  lemma TrimEmptyIffBlank(s: string)
    ensures Trim(s) == "" <==> forall i :: 0 <= i < |s| ==> IsSpace(s[i])
  {
  }

  /** Trimming a string without white space changes nothing. */
  lemma TrimNoSpace(s: string)
    requires forall i :: 0 <= i < |s| ==> !IsSpace(s[i])
    ensures Trim(s) == s
  {
  }

  /** The characters of `s` other than `c`, in order (`s.replace(/c/g, '')`). */
  function RemoveChar(s: string, c: char): (r: string)
    ensures |r| <= |s|
    ensures c !in r
  {
    if |s| == 0 then "" else (if s[0] == c then "" else [s[0]]) + RemoveChar(s[1..], c)
  }

  /** `w` occurs in `a + w + b` right after `a`. */
  lemma ContainsIn(a: string, w: string, b: string)
    ensures Contains(a + w + b, w)
  {
    assert OccursAt(a + w + b, w, |a|) by {
      assert (a + w + b)[|a|..|a| + |w|] == w;
    }
  }

  /** Every string contains itself. */
  lemma ContainsSelf(w: string)
    ensures Contains(w, w)
  {
    assert OccursAt(w, w, 0) by {
      assert w[0..|w|] == w;
    }
  }

  /** Lower-casing leaves a string without upper-case letters as it is. */
  lemma LowerKeeps(s: string)
    requires forall k :: 0 <= k < |s| ==> !IsUpperAscii(s[k])
    ensures Lower(s) == s
  {
    assert forall k :: 0 <= k < |s| ==> Lower(s)[k] == s[k];
  }

  /** A string without one of `sub`'s characters does not contain `sub`. */
  lemma NotContainsChar(s: string, sub: string, k: int)
    requires 0 <= k < |sub| && sub[k] !in s
    ensures !Contains(s, sub)
  {
    forall i | 0 <= i <= |s| - |sub| ensures !OccursAt(s, sub, i) {
      assert s[i + k] in s;
      assert s[i..i + |sub|][k] == s[i + k];
    }
  }

  lemma {:induction false} RemoveCharConcat(a: string, b: string, c: char)
    ensures RemoveChar(a + b, c) == RemoveChar(a, c) + RemoveChar(b, c)
    decreases |a|
  {
    if |a| == 0 {
      assert a + b == b;
    } else {
      assert (a + b)[0] == a[0] && (a + b)[1..] == a[1..] + b;
      RemoveCharConcat(a[1..], b, c);
    }
  }

  /** Deleting a character that occurs once, between `a` and `b`, joins them. */
  lemma RemoveCharBetween(a: string, b: string, c: char)
    requires c !in a && c !in b
    ensures RemoveChar(a + [c] + b, c) == a + b
  {
    var one: string := [c];
    assert one[1..] == [];
    assert RemoveChar(one, c) == [];
    RemoveCharConcat(a + one, b, c);
    RemoveCharConcat(a, one, c);
    RemoveCharAbsent(a, c);
    RemoveCharAbsent(b, c);
    assert a + [] == a;
  }

  /** Deleting a character everywhere keeps every occurrence, with that
      character deleted from it too. */
  lemma ContainsRemoveChar(s: string, w: string, c: char)
    requires Contains(s, w)
    ensures Contains(RemoveChar(s, c), RemoveChar(w, c))
  {
    var i :| 0 <= i <= |s| - |w| && OccursAt(s, w, i);
    var a, b := s[..i], s[i + |w|..];
    assert s == a + w + b;
    RemoveCharConcat(a + w, b, c);
    RemoveCharConcat(a, w, c);
    ContainsIn(RemoveChar(a, c), RemoveChar(w, c), RemoveChar(b, c));
  }

  /** Lower-casing keeps every occurrence of a word without upper-case letters. */
  lemma ContainsLower(s: string, w: string)
    requires forall k :: 0 <= k < |w| ==> !IsUpperAscii(w[k])
    requires Contains(s, w)
    ensures Contains(Lower(s), w)
  {
    var i :| 0 <= i <= |s| - |w| && OccursAt(s, w, i);
    assert Lower(s)[i..i + |w|] == w by {
      forall k | 0 <= k < |w| ensures Lower(s)[i..i + |w|][k] == w[k] {
        assert s[i + k] == s[i..i + |w|][k];
      }
    }
    assert OccursAt(Lower(s), w, i);
  }

  /** A character `s` lacks is not deleted from it. */
  lemma RemoveCharAbsent(s: string, c: char)
    requires c !in s
    ensures RemoveChar(s, c) == s
  {
  }

  function DigitChar(d: int): (c: char)
    requires 0 <= d < 10
    ensures IsDigit(c)
  {
    ('0' as int + d) as char
  }

  /** The decimal digits of `n`, as a template literal writes a non-negative
      integer. */
  function NatText(n: nat): (r: string)
    ensures |r| >= 1
    ensures forall i :: 0 <= i < |r| ==> IsDigit(r[i])
    decreases n
  {
    if n < 10 then [DigitChar(n)] else NatText(n / 10) + [DigitChar(n % 10)]
  }

  /** `${n}` for an integer `n`. */
  function IntText(n: int): (r: string)
    ensures |r| >= 1
    ensures n < 0 <==> r[0] == '-'
  {
    if n < 0 then "-" + NatText(-n) else NatText(n)
  }

  /** The value of a string of decimal digits. */
  function DigitsValue(s: string): nat
    requires forall i :: 0 <= i < |s| ==> IsDigit(s[i])
  {
    if |s| == 0 then 0
    else
      var last := s[|s| - 1];
      assert IsDigit(last);
      DigitsValue(s[..|s| - 1]) * 10 + (last as int - '0' as int)
  }

  /** Reading the digits back gives the number. */
  lemma {:induction false} NatTextRoundTrip(n: nat)
    ensures DigitsValue(NatText(n)) == n
    decreases n
  {
    if n >= 10 {
      NatTextRoundTrip(n / 10);
      var s := NatText(n);
      assert s[..|s| - 1] == NatText(n / 10);
    }
  }

  /** Different integers are written differently. */
  lemma IntTextInjective(a: int, b: int)
    requires IntText(a) == IntText(b)
    ensures a == b
  {
    if a < 0 {
      assert IntText(a)[1..] == NatText(-a) && IntText(b)[1..] == NatText(-b);
      NatTextRoundTrip(-a);
      NatTextRoundTrip(-b);
    } else {
      NatTextRoundTrip(a);
      NatTextRoundTrip(b);
    }
  }
}
