/**
 * The WhatsApp checkout message of routes/public.js: the customer's answers
 * as one `*key:* value` line each, the template whose seven placeholders are
 * each replaced once, in a fixed order, with `String.prototype.replace`, and
 * the `https://wa.me/<number>?text=<message>` link.
 *
 * `replace` with a string replacement expands `$$`, `$&`, `` $` `` and `$'`
 * in the replacement. The values put into the template include the
 * customer's own answers, so a `$` there does not reach the message as
 * typed; `Render` is the chain as written and `RenderLiteral` the one that
 * inserts every value as it is.
 */
module Message {
  import opened Js
  import opened Text

  /** The placeholders, in the order the chain replaces them. */
  const Placeholders: seq<string> :=
    ["{product_name}", "{category_name}", "{package_name}", "{price}",
     "{user_data}", "{payment_proof}", "{order_time}"]

  /** The template used when the `checkout_message_template` setting is
      missing or empty: the fixed text of `DefaultParts` with the seven
      placeholders between its pieces, each once and in order. */
  const DefaultTemplate: string := Fill(DefaultParts, Placeholders)

  /** The fixed text of the default template around its placeholders. */
  const DefaultParts: seq<string> :=
    ["Halo! Saya ingin membeli:\n\n*Produk:* ", "\n*Kategori:* ", "\n*Paket:* ",
     "\n*Harga:* Rp ", "\n\n*Data yang diperlukan:*\n", "\n\n", "\n\n*Waktu Pemesanan:* ", ""]

  /** The number used when the `whatsapp_number` setting is missing or empty. */
  const DefaultNumber: string := "6281234567890"

  /** The text each placeholder is replaced with. */
  datatype MessageValues = MessageValues(
    productName: string,
    categoryName: string,
    packageName: string,
    price: string,
    userData: string,
    paymentProof: string,
    orderTime: string)

  /** The values in the order of `Placeholders`. */
  function ValueList(v: MessageValues): (r: seq<string>)
    ensures |r| == |Placeholders|
  {
    [v.productName, v.categoryName, v.packageName, v.price, v.userData, v.paymentProof, v.orderTime]
  }

  /** `parts[0] + xs[0] + parts[1] + ... + xs[n-1] + parts[n]`: a text with the
      `xs` between fixed parts. */
  function Fill(parts: seq<string>, xs: seq<string>): string
    requires |parts| == |xs| + 1
    decreases |xs|
  {
    if |xs| == 0 then parts[0] else parts[0] + xs[0] + Fill(parts[1..], xs[1..])
  }

  /** A chain of first-occurrence replacements, `replace` semantics. */
  function ReplaceEach(s: string, patterns: seq<string>, reps: seq<string>): (r: string)
    requires |patterns| == |reps|
    ensures (forall i :: 0 <= i < |patterns| ==> !Contains(s, patterns[i])) ==> r == s
    decreases |patterns|
  {
    if |patterns| == 0 then s
    else ReplaceEach(ReplaceFirst(s, patterns[0], reps[0]), patterns[1..], reps[1..])
  }

  /** A chain of first-occurrence replacements that insert the values as
      they are. */
  function ReplaceEachLiteral(s: string, patterns: seq<string>, reps: seq<string>): (r: string)
    requires |patterns| == |reps|
    ensures (forall i :: 0 <= i < |patterns| ==> !Contains(s, patterns[i])) ==> r == s
    decreases |patterns|
  {
    if |patterns| == 0 then s
    else ReplaceEachLiteral(ReplaceFirstLiteral(s, patterns[0], reps[0]), patterns[1..], reps[1..])
  }

  /** The message as the handler builds it. */
  function Render(template: string, v: MessageValues): (r: string)
    ensures (forall i :: 0 <= i < |Placeholders| ==> !Contains(template, Placeholders[i])) ==> r == template
  {
    ReplaceEach(template, Placeholders, ValueList(v))
  }

  /** The message with every value inserted as it is. */
  function RenderLiteral(template: string, v: MessageValues): (r: string)
    ensures (forall i :: 0 <= i < |Placeholders| ==> !Contains(template, Placeholders[i])) ==> r == template
  {
    ReplaceEachLiteral(template, Placeholders, ValueList(v))
  }

  /** Placeholders that all start with `{`. */
  ghost predicate Braced(patterns: seq<string>) {
    forall i :: 0 <= i < |patterns| ==> |patterns[i]| > 0 && patterns[i][0] == '{'
  }

  ghost predicate NoBrace(xs: seq<string>) {
    forall i :: 0 <= i < |xs| ==> '{' !in xs[i]
  }

  /** On a template whose fixed parts have no `{`, the chain puts into each
      placeholder the expansion `subs[i]` of its value (an expansion that does
      not depend on the text around the placeholder), as long as no expansion
      brings in a `{`. */
  lemma {:induction false} ReplaceEachFill(prefix: string, parts: seq<string>, patterns: seq<string>,
                                           reps: seq<string>, subs: seq<string>)
    requires |parts| == |patterns| + 1 && |reps| == |patterns| && |subs| == |patterns|
    requires Braced(patterns) && '{' !in prefix && NoBrace(parts) && NoBrace(subs)
    requires forall i, before, after :: 0 <= i < |reps| ==>
               Substitution(reps[i], patterns[i], before, after) == subs[i]
    ensures ReplaceEach(prefix + Fill(parts, patterns), patterns, reps) == prefix + Fill(parts, subs)
    decreases |patterns|
  {
    if |patterns| == 0 {
    } else {
      var a := prefix + parts[0];
      var rest := Fill(parts[1..], patterns[1..]);
      var s := prefix + Fill(parts, patterns);
      assert s == a + patterns[0] + rest;
      assert |patterns[0]| > 0 && patterns[0][0] == '{';
      ReplaceFirstAfterPrefix(a, patterns[0], rest, reps[0]);
      assert Substitution(reps[0], patterns[0], a, rest) == subs[0];
      var prefix' := a + subs[0];
      forall i, before, after | 0 <= i < |reps[1..]|
        ensures Substitution(reps[1..][i], patterns[1..][i], before, after) == subs[1..][i]
      {
        assert Substitution(reps[i + 1], patterns[i + 1], before, after) == subs[i + 1];
      }
      assert Braced(patterns[1..]) && NoBrace(parts[1..]) && NoBrace(subs[1..]);
      assert '{' !in parts[0] && '{' !in subs[0];
      ReplaceEachFill(prefix', parts[1..], patterns[1..], reps[1..], subs[1..]);
      assert ReplaceEach(s, patterns, reps) == ReplaceEach(prefix' + rest, patterns[1..], reps[1..]);
      var tail := Fill(parts[1..], subs[1..]);
      assert Fill(parts, subs) == parts[0] + subs[0] + tail;
      Associate(prefix, parts[0], subs[0], tail);
    }
  }

  /** On a template whose fixed parts have no `{`, the literal chain puts
      each value into its placeholder, whatever `$` the values hold. */
  lemma {:induction false} ReplaceEachLiteralFill(prefix: string, parts: seq<string>, patterns: seq<string>,
                                                  reps: seq<string>)
    requires |parts| == |patterns| + 1 && |reps| == |patterns|
    requires Braced(patterns) && '{' !in prefix && NoBrace(parts) && NoBrace(reps)
    ensures ReplaceEachLiteral(prefix + Fill(parts, patterns), patterns, reps) == prefix + Fill(parts, reps)
    decreases |patterns|
  {
    if |patterns| == 0 {
    } else {
      var a := prefix + parts[0];
      assert '{' !in parts[0];
      var rest := Fill(parts[1..], patterns[1..]);
      var s := prefix + Fill(parts, patterns);
      assert s == a + patterns[0] + rest;
      assert |patterns[0]| > 0 && patterns[0][0] == '{';
      ReplaceFirstLiteralAfterPrefix(a, patterns[0], rest, reps[0]);
      assert ReplaceFirstLiteral(s, patterns[0], reps[0]) == a + reps[0] + rest;
      var prefix' := a + reps[0];
      assert '{' !in reps[0];
      assert Braced(patterns[1..]) && NoBrace(parts[1..]) && NoBrace(reps[1..]);
      ReplaceEachLiteralFill(prefix', parts[1..], patterns[1..], reps[1..]);
      assert ReplaceEachLiteral(s, patterns, reps) == ReplaceEachLiteral(prefix' + rest, patterns[1..], reps[1..]);
      var tail := Fill(parts[1..], reps[1..]);
      assert Fill(parts, reps) == parts[0] + reps[0] + tail;
      Associate(prefix, parts[0], reps[0], tail);
    }
  }

  lemma Associate(a: string, b: string, c: string, d: string)
    ensures a + b + c + d == a + (b + c + d)
  {
  }

  /** Without `$` in the values the chain as written and the literal chain
      build the same message. */
  lemma {:induction false} ReplaceEachAgreesWithLiteral(s: string, patterns: seq<string>, reps: seq<string>)
    requires |patterns| == |reps|
    requires forall i :: 0 <= i < |reps| ==> '$' !in reps[i]
    ensures ReplaceEach(s, patterns, reps) == ReplaceEachLiteral(s, patterns, reps)
    decreases |patterns|
  {
    if |patterns| > 0 {
      ReplaceFirstAgreesWithLiteral(s, patterns[0], reps[0]);
      ReplaceEachAgreesWithLiteral(ReplaceFirst(s, patterns[0], reps[0]), patterns[1..], reps[1..]);
    }
  }

  lemma DefaultPartsHaveNoBrace()
    ensures NoBrace(DefaultParts)
  {
  }

  /** With the default template, values without `{` and `$` appear in the
      message as they are, each at its place. */
  lemma DefaultMessage(v: MessageValues)
    requires NoBrace(ValueList(v))
    requires forall i :: 0 <= i < |ValueList(v)| ==> '$' !in ValueList(v)[i]
    ensures Render(DefaultTemplate, v) == Fill(DefaultParts, ValueList(v))
  {
    DefaultPartsHaveNoBrace();
    var vs := ValueList(v);
    forall i, before, after | 0 <= i < |vs|
      ensures Substitution(vs[i], Placeholders[i], before, after) == vs[i]
    {
      SubstitutionLiteral(vs[i], Placeholders[i], before, after);
    }
    ReplaceEachFill("", DefaultParts, Placeholders, vs, vs);
    assert "" + DefaultTemplate == DefaultTemplate;
    assert "" + Fill(DefaultParts, vs) == Fill(DefaultParts, vs);
  }

  /** With the default template, the literal chain puts every value without
      `{` at its place, `$` included. */
  lemma DefaultMessageLiteral(v: MessageValues)
    requires NoBrace(ValueList(v))
    ensures RenderLiteral(DefaultTemplate, v) == Fill(DefaultParts, ValueList(v))
  {
    DefaultPartsHaveNoBrace();
    ReplaceEachLiteralFill("", DefaultParts, Placeholders, ValueList(v));
    assert "" + DefaultTemplate == DefaultTemplate;
    assert "" + Fill(DefaultParts, ValueList(v)) == Fill(DefaultParts, ValueList(v));
  }

  /** Without `$` in any value both renderings agree on every template. */
  lemma RenderAgreesWithLiteral(template: string, v: MessageValues)
    requires forall i :: 0 <= i < |ValueList(v)| ==> '$' !in ValueList(v)[i]
    ensures Render(template, v) == RenderLiteral(template, v)
  {
    ReplaceEachAgreesWithLiteral(template, Placeholders, ValueList(v));
  }

  /** One line of the customer's answers: `*key:* value`. */
  function Line(entry: (string, string)): string {
    "*" + entry.0 + ":* " + entry.1
  }

  /** `Object.entries(user_data).map(...).join('\n')` */
  function FormatUserData(data: seq<(string, string)>): (r: string)
    ensures |data| == 0 ==> r == ""
  {
    Join(seq(|data|, i requires 0 <= i < |data| => Line(data[i])), "\n")
  }

  /** With no line break in any key or value, the formatted answers are one
      line per entry, in entry order. */
  lemma FormatUserDataLines(data: seq<(string, string)>)
    requires |data| > 0
    requires forall i :: 0 <= i < |data| ==> '\n' !in data[i].0 && '\n' !in data[i].1
    ensures Split(FormatUserData(data), '\n') == seq(|data|, i requires 0 <= i < |data| => Line(data[i]))
  {
    var lines := seq(|data|, i requires 0 <= i < |data| => Line(data[i]));
    forall i | 0 <= i < |lines| ensures '\n' !in lines[i] {
      assert lines[i] == "*" + data[i].0 + ":* " + data[i].1;
    }
    SplitJoin(lines, '\n');
  }

  /** `https://wa.me/${number}?text=${encodeURIComponent(message)}`;
      `encode` stands for `encodeURIComponent`. */
  function WhatsAppUrl(number: string, message: string, encode: string -> string): string {
    "https://wa.me/" + number + "?text=" + encode(message)
  }

  /** Reads the number and the encoded text back out of a link. */
  function SplitUrl(url: string): (r: Option<(string, string)>)
    ensures r.Some? ==> url == "https://wa.me/" + r.value.0 + "?text=" + r.value.1
  {
    var head := "https://wa.me/";
    if !StartsWith(url, head) then None
    else
      var tail := url[|head|..];
      match IndexOf(tail, "?text=")
      case None => None
      case Some(i) =>
        assert tail[i..i + 6] == "?text=";
        assert tail == tail[..i] + "?text=" + tail[i + 6..];
        assert url == head + tail;
        Some((tail[..i], tail[i + 6..]))
  }

  /** The link gives back the number and the encoded message whenever the
      number has no `?`. */
  lemma UrlRoundTrip(number: string, message: string, encode: string -> string)
    requires '?' !in number
    ensures SplitUrl(WhatsAppUrl(number, message, encode)) == Some((number, encode(message)))
  {
    var head := "https://wa.me/";
    var url := WhatsAppUrl(number, message, encode);
    assert url[..|head|] == head;
    var tail := url[|head|..];
    assert tail == number + "?text=" + encode(message);
    IndexOfAfterPrefix(number, "?text=", encode(message));
    assert tail[..|number|] == number;
    assert tail[|number| + 6..] == encode(message);
  }

  /** The answer `US$$5` to the question `Catatan`, formatted. */
  lemma DollarAnswerLine()
    ensures FormatUserData([("Catatan", "US$$5")]) == "*Catatan:* US$$5"
  {
  }

  /** `replace` turns the `$$` of that line into `$`, wherever it stands. */
  lemma DollarAnswerExpansion(before: string, after: string)
    ensures Substitution("*Catatan:* US$$5", "{user_data}", before, after) == "*Catatan:* US$5"
  {
    assert "*Catatan:* US$$5" == "*Catatan:* US" + "$$5";
    SubstitutionLiteralPrefix("*Catatan:* US", "$$5", "{user_data}", before, after);
    assert Substitution("$$5", "{user_data}", before, after) == "$" + Substitution("5", "{user_data}", before, after);
    assert "*Catatan:* US" + "$5" == "*Catatan:* US$5";
  }

  /** Every value of such a request expands to itself, except the answers,
      whose `$$` becomes `$`. */
  lemma DollarAnswerValues(v: MessageValues)
    requires v.userData == FormatUserData([("Catatan", "US$$5")])
    requires forall i :: 0 <= i < |ValueList(v)| && i != 4 ==> '$' !in ValueList(v)[i]
    ensures forall i, before, after :: 0 <= i < |ValueList(v)| ==>
      Substitution(ValueList(v)[i], Placeholders[i], before, after) == ValueList(v)[4 := "*Catatan:* US$5"][i]
  {
    var vs := ValueList(v);
    var subs := vs[4 := "*Catatan:* US$5"];
    DollarAnswerLine();
    forall i, before, after | 0 <= i < |vs|
      ensures Substitution(vs[i], Placeholders[i], before, after) == subs[i]
    {
      if i == 4 {
        DollarAnswerExpansion(before, after);
      } else {
        SubstitutionLiteral(vs[i], Placeholders[i], before, after);
      }
    }
  }

  /** What the chain as written makes of that answer in the default
      template. */
  lemma DollarAnswerRender(v: MessageValues)
    requires v.userData == FormatUserData([("Catatan", "US$$5")])
    requires NoBrace(ValueList(v))
    requires forall i :: 0 <= i < |ValueList(v)| && i != 4 ==> '$' !in ValueList(v)[i]
    ensures Render(DefaultTemplate, v) == Fill(DefaultParts, ValueList(v)[4 := "*Catatan:* US$5"])
  {
    var vs := ValueList(v);
    var subs := vs[4 := "*Catatan:* US$5"];
    DollarAnswerValues(v);
    DefaultPartsHaveNoBrace();
    assert NoBrace(subs);
    ReplaceEachFill("", DefaultParts, Placeholders, vs, subs);
    assert "" + DefaultTemplate == DefaultTemplate;
    assert "" + Fill(DefaultParts, subs) == Fill(DefaultParts, subs);
  }

  /** A `$$` in an answer reaches the message as a single `$`: the answer
      `US$$5` to the question `Catatan` ends up as `US$5`, where the literal
      rendering keeps it. */
  lemma DoubledDollarCollapses(v: MessageValues)
    requires v.userData == FormatUserData([("Catatan", "US$$5")])
    requires NoBrace(ValueList(v))
    requires forall i :: 0 <= i < |ValueList(v)| && i != 4 ==> '$' !in ValueList(v)[i]
    ensures Render(DefaultTemplate, v) != RenderLiteral(DefaultTemplate, v)
  {
    var vs := ValueList(v);
    DollarAnswerLine();
    DollarAnswerRender(v);
    DefaultMessageLiteral(v);
    FillDiffers(DefaultParts, vs, vs[4 := "*Catatan:* US$5"], 4);
  }

  /** Fills that differ in one value differ. */
  lemma {:induction false} FillDiffers(parts: seq<string>, xs: seq<string>, ys: seq<string>, k: int)
    requires |parts| == |xs| + 1 && |xs| == |ys| && 0 <= k < |xs|
    requires |xs[k]| != |ys[k]|
    requires forall i :: 0 <= i < |xs| && i != k ==> xs[i] == ys[i]
    ensures Fill(parts, xs) != Fill(parts, ys)
    decreases |xs|
  {
    if k == 0 {
      assert |Fill(parts[1..], xs[1..])| == |Fill(parts[1..], ys[1..])| by {
        FillSameLength(parts[1..], xs[1..], ys[1..]);
      }
    } else {
      FillDiffers(parts[1..], xs[1..], ys[1..], k - 1);
      var a := parts[0] + xs[0];
      var tx := Fill(parts[1..], xs[1..]);
      var ty := Fill(parts[1..], ys[1..]);
      assert Fill(parts, xs) == a + tx && Fill(parts, ys) == a + ty;
      assert (a + tx)[|a|..] == tx && (a + ty)[|a|..] == ty;
    }
  }

  lemma {:induction false} FillSameLength(parts: seq<string>, xs: seq<string>, ys: seq<string>)
    requires |parts| == |xs| + 1 && |xs| == |ys|
    requires forall i :: 0 <= i < |xs| ==> xs[i] == ys[i]
    ensures |Fill(parts, xs)| == |Fill(parts, ys)|
    decreases |xs|
  {
    if |xs| > 0 {
      FillSameLength(parts[1..], xs[1..], ys[1..]);
    }
  }
}
