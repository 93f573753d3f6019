/** Printing the labels of a metric sample: values are escaped by three successive replacements. */
module MetricLabels {
  import opened Text

  /** str.replace of a single character. */
  function Replace(s: string, c: char, to: string): string {
    if s == "" then "" else (if s[0] == c then to else [s[0]]) + Replace(s[1..], c, to)
  }

  /** As the printer escapes a value. */
  function Escape(value: string): string {
    Replace(Replace(Replace(value, '\\', "\\\\"), '\n', "\\n"), '\"', "\\\"")
  }

  /** One character at a time. */
  function EscapeChar(c: char): string {
    if c == '\\' then "\\\\" else if c == '\n' then "\\n" else if c == '\"' then "\\\"" else [c]
  }

  function EscapeOnce(s: string): string {
    if s == "" then "" else EscapeChar(s[0]) + EscapeOnce(s[1..])
  }

  lemma {:induction false} ReplaceConcat(a: string, b: string, c: char, to: string)
    ensures Replace(a + b, c, to) == Replace(a, c, to) + Replace(b, c, to)
  {
    if a == "" {
      assert a + b == b;
    } else {
      assert (a + b)[1..] == a[1..] + b;
      ReplaceConcat(a[1..], b, c, to);
    }
  }

  lemma {:induction false} EscapeConcat(a: string, b: string)
    ensures Escape(a + b) == Escape(a) + Escape(b)
  {
    ReplaceConcat(a, b, '\\', "\\\\");
    var first := Replace(a, '\\', "\\\\");
    var second := Replace(b, '\\', "\\\\");
    ReplaceConcat(first, second, '\n', "\\n");
    ReplaceConcat(Replace(first, '\n', "\\n"), Replace(second, '\n', "\\n"), '\"', "\\\"");
  }

  lemma {:induction false} ReplaceOne(x: char, c: char, to: string)
    ensures Replace([x], c, to) == if x == c then to else [x]
  {
    assert [x][1..] == "";
    assert Replace("", c, to) == "";
  }

  lemma {:induction false} ReplaceTwo(x: char, y: char, c: char, to: string)
    requires x != c && y != c
    ensures Replace([x, y], c, to) == [x, y]
  {
    ReplaceConcat([x], [y], c, to);
    ReplaceOne(x, c, to);
    ReplaceOne(y, c, to);
    assert [x] + [y] == [x, y];
  }

  lemma {:induction false} EscapeOfChar(c: char)
    ensures Escape([c]) == EscapeChar(c)
  {
    ReplaceOne(c, '\\', "\\\\");
    if c == '\\' {
      ReplaceTwo('\\', '\\', '\n', "\\n");
      ReplaceTwo('\\', '\\', '\"', "\\\"");
    } else {
      ReplaceOne(c, '\n', "\\n");
      if c == '\n' {
        ReplaceTwo('\\', 'n', '\"', "\\\"");
      } else {
        ReplaceOne(c, '\"', "\\\"");
      }
    }
  }

  /** Three passes do what one pass does: no replacement disturbs what an earlier one wrote. */
  lemma {:induction false} EscapesAgree(s: string)
    ensures Escape(s) == EscapeOnce(s)
  {
    if s != "" {
      EscapeConcat([s[0]], s[1..]);
      EscapeOfChar(s[0]);
      EscapesAgree(s[1..]);
      assert s == [s[0]] + s[1..];
    }
  }

  // ---------- reading labels back ----------

  /** What follows a backslash. */
  function UnescapeChar(c: char): Option<char> {
    if c == 'n' then Some('\n') else if c == '\\' || c == '\"' then Some(c) else None
  }

  /** Reads an escaped value up to the closing quote: the value and the rest of the text after it. */
  function ReadValue(text: string): Option<(string, string)> {
    if text == "" then None
    else if text[0] == '\"' then Some(("", text[1..]))
    else if text[0] == '\\' then
      if |text| == 1 || UnescapeChar(text[1]).None? then None
      else
        match ReadValue(text[2..])
        case None => None
        case Some((value, rest)) => Some(([UnescapeChar(text[1]).value] + value, rest))
    else
      match ReadValue(text[1..])
      case None => None
      case Some((value, rest)) => Some(([text[0]] + value, rest))
  }

  lemma ReadEscapedChar(c: char, text: string, value: string, rest: string)
    requires ReadValue(text) == Some((value, rest))
    ensures ReadValue(EscapeChar(c) + text) == Some(([c] + value, rest))
  {
    var whole := EscapeChar(c) + text;
    if |EscapeChar(c)| == 2 {
      assert whole[2..] == text;
    } else {
      assert whole[1..] == text;
    }
  }

  lemma RegroupFour(a: string, b: string, c: string, d: string)
    ensures a + b + c + d == a + (b + (c + d)) == a + (b + c + d)
  {
  }

  lemma {:induction false} ReadEscaped(value: string, rest: string)
    ensures ReadValue(EscapeOnce(value) + "\"" + rest) == Some((value, rest))
  {
    if value == "" {
      assert EscapeOnce(value) + "\"" + rest == "\"" + rest;
      assert ("\"" + rest)[1..] == rest;
    } else {
      ReadEscaped(value[1..], rest);
      ReadEscapedChar(value[0], EscapeOnce(value[1..]) + "\"" + rest, value[1..], rest);
      RegroupFour(EscapeChar(value[0]), EscapeOnce(value[1..]), "\"", rest);
      assert value == [value[0]] + value[1..];
    }
  }

  /** Up to the first '='. */
  function ReadKey(text: string): Option<(string, string)> {
    if text == "" then None
    else if text[0] == '=' then Some(("", text[1..]))
    else
      match ReadKey(text[1..])
      case None => None
      case Some((key, rest)) => Some(([text[0]] + key, rest))
  }

  lemma {:induction false} ReadPrintedKey(key: string, rest: string)
    requires '=' !in key
    ensures ReadKey(key + "=" + rest) == Some((key, rest))
  {
    var text := key + "=" + rest;
    if key == "" {
      assert text == "=" + rest;
    } else {
      ReadPrintedKey(key[1..], rest);
      assert text[1..] == key[1..] + "=" + rest;
      assert key == [key[0]] + key[1..];
    }
  }

  lemma {:induction false} ReadValueShrinks(text: string)
    ensures ReadValue(text).Some? ==> |ReadValue(text).value.1| < |text|
  {
    if text != "" && text[0] != '\"' {
      if text[0] != '\\' {
        ReadValueShrinks(text[1..]);
      } else if |text| > 1 {
        ReadValueShrinks(text[2..]);
      }
    }
  }

  lemma {:induction false} ReadKeyShrinks(text: string)
    ensures ReadKey(text).Some? ==> |ReadKey(text).value.1| < |text|
  {
    if text != "" && text[0] != '=' {
      ReadKeyShrinks(text[1..]);
    }
  }

  type Labels = seq<(string, string)>

  /** One label, and what follows it. */
  function ReadLabel(text: string): (r: Option<((string, string), string)>)
    ensures r.Some? ==> |r.value.1| < |text|
  {
    ReadKeyShrinks(text);
    match ReadKey(text)
    case None => None
    case Some((key, rest)) =>
      if rest == "" || rest[0] != '\"' then None
      else
        ReadValueShrinks(rest[1..]);
        match ReadValue(rest[1..])
        case None => None
        case Some((value, after)) => Some(((key, value), after))
  }

  /** Labels separated by commas, up to the closing brace. */
  function ReadLabels(text: string): Option<Labels>
    decreases |text|
  {
    match ReadLabel(text)
    case None => None
    case Some((first, rest)) =>
      if rest == "}" then Some([first])
      else if rest == "" || rest[0] != ',' then None
      else
        match ReadLabels(rest[1..])
        case None => None
        case Some(more) => Some([first] + more)
  }

  function ParseLabels(text: string): Option<Labels> {
    if text == "" then Some([])
    else if text[0] != '{' then None
    else ReadLabels(text[1..])
  }

  // ---------- printing labels ----------

  function Label(l: (string, string)): string {
    l.0 + "=\"" + Escape(l.1) + "\""
  }

  function Joined(labels: Labels): string {
    if labels == [] then ""
    else if |labels| == 1 then Label(labels[0])
    else Label(labels[0]) + "," + Joined(labels[1..])
  }

  /** The labels arrive sorted by key. */
  function FormatLabels(labels: Labels): string {
    if labels == [] then "" else "{" + Joined(labels) + "}"
  }

  function Join(parts: seq<string>): string {
    if parts == [] then "" else if |parts| == 1 then parts[0] else parts[0] + "," + Join(parts[1..])
  }

  function LabelTexts(labels: Labels): seq<string> {
    seq(|labels|, i requires 0 <= i < |labels| => Label(labels[i]))
  }

  lemma {:induction false} JoinedTexts(labels: Labels)
    ensures Join(LabelTexts(labels)) == Joined(labels)
  {
    if |labels| > 1 {
      assert LabelTexts(labels)[1..] == LabelTexts(labels[1..]);
      JoinedTexts(labels[1..]);
    }
  }

  method FormatMetricLabels(labels: Labels) returns (text: string)
    ensures text == FormatLabels(labels)
  {
    if labels == [] {
      return "";
    }
    var formatted: seq<string> := [];
    for i := 0 to |labels|
      invariant formatted == LabelTexts(labels)[..i]
    {
      var escaped := Replace(labels[i].1, '\\', "\\\\");
      escaped := Replace(escaped, '\n', "\\n");
      escaped := Replace(escaped, '\"', "\\\"");
      formatted := formatted + [labels[i].0 + "=\"" + escaped + "\""];
    }
    assert LabelTexts(labels)[..|labels|] == LabelTexts(labels);
    JoinedTexts(labels);
    text := "{" + Join(formatted) + "}";
  }

  // ---------- printing then reading ----------

  predicate PlainKeys(labels: Labels) {
    forall l | l in labels :: '=' !in l.0
  }

  lemma {:induction false} ReadPrintedLabel(l: (string, string), rest: string)
    requires '=' !in l.0
    ensures ReadLabel(Label(l) + rest) == Some((l, rest))
  {
    EscapesAgree(l.1);
    var value := EscapeOnce(l.1) + "\"" + rest;
    ReadEscaped(l.1, rest);
    ReadPrintedKey(l.0, "\"" + value);
    RegroupLabel(l.0, EscapeOnce(l.1), rest);
    assert ("\"" + value)[0] == '\"' && ("\"" + value)[1..] == value;
  }

  lemma RegroupLabel(key: string, value: string, rest: string)
    ensures key + "=\"" + value + "\"" + rest == key + "=" + ("\"" + (value + "\"" + rest))
  {
    assert "=\"" == "=" + "\"";
  }

  lemma ReadLast(last: (string, string))
    requires '=' !in last.0
    ensures ReadLabels(Label(last) + "}") == Some([last])
  {
    ReadPrintedLabel(last, "}");
  }

  lemma ReadOneMore(first: (string, string), text: string, more: Labels)
    requires '=' !in first.0 && ReadLabels(text) == Some(more)
    ensures ReadLabels(Label(first) + ("," + text)) == Some([first] + more)
  {
    var rest := "," + text;
    ReadPrintedLabel(first, rest);
    assert rest[0] == ',' && rest[1..] == text;
  }

  lemma JoinedMore(labels: Labels)
    requires |labels| > 1
    ensures Joined(labels) + "}" == Label(labels[0]) + ("," + (Joined(labels[1..]) + "}"))
  {
    RegroupFour(Label(labels[0]), ",", Joined(labels[1..]), "}");
  }

  lemma {:induction false} ReadPrintedLabels(labels: Labels)
    requires labels != [] && PlainKeys(labels)
    ensures ReadLabels(Joined(labels) + "}") == Some(labels)
    decreases |labels|
  {
    var first, more := labels[0], labels[1..];
    assert labels == [first] + more;
    if |labels| == 1 {
      assert labels == [first];
      ReadLast(first);
    } else {
      ReadPrintedLabels(more);
      ReadOneMore(first, Joined(more) + "}", more);
      JoinedMore(labels);
    }
  }

  lemma Braced(text: string)
    ensures var braced := "{" + text + "}"; braced[0] == '{' && braced[1..] == text + "}"
  {
  }

  /** Reading undoes printing, whatever characters the values hold. */
  lemma ParsingUndoesFormatting(labels: Labels)
    requires PlainKeys(labels)
    ensures ParseLabels(FormatLabels(labels)) == Some(labels)
  {
    if labels != [] {
      ReadPrintedLabels(labels);
      Braced(Joined(labels));
    }
  }

  /** So different labels print differently. */
  lemma DifferentLabelsPrintDifferently(a: Labels, b: Labels)
    requires PlainKeys(a) && PlainKeys(b) && FormatLabels(a) == FormatLabels(b)
    ensures a == b
  {
    ParsingUndoesFormatting(a);
    ParsingUndoesFormatting(b);
  }

  /** An escaped value stays on its line, so a sample is one line. */
  lemma {:induction false} EscapedIsOneLine(s: string)
    ensures '\n' !in Escape(s)
  {
    EscapesAgree(s);
    if s != "" {
      EscapedIsOneLine(s[1..]);
      EscapesAgree(s[1..]);
    }
  }
}
