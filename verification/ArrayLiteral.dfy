/**
 Array literals: how a parameter is printed, and how PostgreSQL reads it back (section 8.15.6 of its
 documentation, "Array Input and Output Syntax").
 */
module ArrayLiteral {
  import opened Outcomes

  // null and undefined print alike; every other scalar prints as its text.
  datatype Value = Null | Text(text: string) | Array(elements: seq<Value>)

  // ---------- Printing ----------

  function ReplaceAll(s: string, c: char, replacement: string): string {
    if s == "" then ""
    else (if s[0] == c then replacement else [s[0]]) + ReplaceAll(s[1..], c, replacement)
  }

  // Backslashes first, so that those put in front of quotes are not doubled again.
  function Escaped(s: string): string {
    ReplaceAll(ReplaceAll(s, '\\', "\\\\"), '"', "\\\"")
  }

  function PrintElement(value: Value): string
    decreases value, 0
  {
    match value
    case Null => "NULL"
    case Text(text) => "\"" + Escaped(text) + "\""
    case Array(elements) => ToArrayLiteral(elements)
  }

  function PrintElements(values: seq<Value>): string
    decreases values, 0
  {
    if values == [] then ""
    else if |values| == 1 then PrintElement(values[0])
    else PrintElement(values[0]) + "," + PrintElements(values[1..])
  }

  function ToArrayLiteral(values: seq<Value>): string
    decreases values, 1
  {
    "{" + PrintElements(values) + "}"
  }

  // ---------- Reading ----------

  predicate IsSpace(c: char) {
    c == ' ' || 9 <= c as int <= 13
  }

  function SkipSpace(s: string): (rest: string)
    ensures |rest| <= |s|
  {
    if s != "" && IsSpace(s[0]) then SkipSpace(s[1..]) else s
  }

  // The rest of a quoted element: a backslash takes the next character as it is.
  function ReadQuoted(s: string): (r: Option<(string, string)>)
    ensures r.Some? ==> |r.value.1| < |s|
    decreases |s|
  {
    if s == "" then None
    else if s[0] == '"' then Some(("", s[1..]))
    else if s[0] == '\\' then
      if |s| == 1 then None else Prefixed(s[1], ReadQuoted(s[2..]))
    else Prefixed(s[0], ReadQuoted(s[1..]))
  }

  function Prefixed(c: char, r: Option<(string, string)>): Option<(string, string)> {
    match r
    case None => None
    case Some((text, rest)) => Some(([c] + text, rest))
  }

  datatype Mark = Mark(c: char, escaped: bool)

  // An element without quotes ends before a comma or a brace; quotes may not occur in it.
  function ReadBare(s: string): (r: Option<(seq<Mark>, string)>)
    ensures r.Some? ==> |r.value.1| + |r.value.0| <= |s|
    decreases |s|
  {
    if s == "" || s[0] == '{' || s[0] == '"' then None
    else if s[0] == ',' || s[0] == '}' then Some(([], s))
    else if s[0] == '\\' then
      if |s| == 1 then None else Marked(Mark(s[1], true), ReadBare(s[2..]))
    else Marked(Mark(s[0], false), ReadBare(s[1..]))
  }

  function Marked(m: Mark, r: Option<(seq<Mark>, string)>): Option<(seq<Mark>, string)> {
    match r
    case None => None
    case Some((marks, rest)) => Some(([m] + marks, rest))
  }

  // Space around an element is dropped unless a backslash protects it.
  function TrimEnd(marks: seq<Mark>): seq<Mark> {
    if marks != [] && IsSpace(marks[|marks| - 1].c) && !marks[|marks| - 1].escaped
    then TrimEnd(marks[..|marks| - 1]) else marks
  }

  function Upper(c: char): char {
    if 'a' <= c <= 'z' then c - 'a' + 'A' else c
  }

  // The word NULL, in any case and without backslashes.
  predicate IsNullWord(marks: seq<Mark>) {
    && |marks| == 4 && forall i :: 0 <= i < 4 ==> !marks[i].escaped && Upper(marks[i].c) == "NULL"[i]
  }

  function BareValue(marks: seq<Mark>): Option<Value> {
    if marks == [] then None
    else if IsNullWord(marks) then Some(Null)
    else Some(Text(seq(|marks|, i requires 0 <= i < |marks| => marks[i].c)))
  }

  function ReadItem(s: string): (r: Option<(Value, string)>)
    ensures r.Some? ==> |r.value.1| < |s|
    decreases |s|, 0
  {
    var t := SkipSpace(s);
    if t == "" then None
    else if t[0] == '{' then
      var u := SkipSpace(t[1..]);
      if u != "" && u[0] == '}' then Some((Array([]), u[1..]))
      else
        match ReadItems(u)
        case None => None
        case Some((values, rest)) => Some((Array(values), rest))
    else if t[0] == '"' then
      match ReadQuoted(t[1..])
      case None => None
      case Some((text, rest)) => Some((Text(text), rest))
    else
      match ReadBare(t)
      case None => None
      case Some((marks, rest)) =>
        match BareValue(TrimEnd(marks))
        case None => None
        case Some(value) => Some((value, rest))
  }

  // One item or more, separated by commas, up to the closing brace.
  function ReadItems(s: string): (r: Option<(seq<Value>, string)>)
    ensures r.Some? ==> |r.value.1| < |s|
    decreases |s|, 1
  {
    match ReadItem(s)
    case None => None
    case Some((value, after)) =>
      var t := SkipSpace(after);
      if t == "" then None
      else if t[0] == '}' then Some(([value], t[1..]))
      else if t[0] != ',' then None
      else
        match ReadItems(t[1..])
        case None => None
        case Some((values, rest)) => Some(([value] + values, rest))
  }

  // A whole literal: one array, with nothing but space around it.
  function ReadLiteral(s: string): Option<seq<Value>> {
    match ReadItem(s)
    case None => None
    case Some((value, rest)) => if value.Array? && SkipSpace(rest) == "" then Some(value.elements) else None
  }

  // ---------- Reading back what was printed ----------

  lemma ReplaceStep(first: char, rest: string, c: char, replacement: string)
    ensures ReplaceAll([first] + rest, c, replacement) ==
            (if first == c then replacement else [first]) + ReplaceAll(rest, c, replacement)
  {
    assert ([first] + rest)[1..] == rest;
  }

  lemma EscapedStep(s: string)
    requires s != ""
    ensures Escaped(s) == (if s[0] == '\\' || s[0] == '"' then ['\\', s[0]] else [s[0]]) + Escaped(s[1..])
  {
    var rest := ReplaceAll(s[1..], '\\', "\\\\");
    if s[0] == '\\' {
      assert "\\\\" + rest == ['\\'] + (['\\'] + rest);
      ReplaceStep('\\', ['\\'] + rest, '"', "\\\"");
      ReplaceStep('\\', rest, '"', "\\\"");
      assert Escaped(s) == ['\\'] + (['\\'] + Escaped(s[1..]));
    } else {
      ReplaceStep(s[0], rest, '"', "\\\"");
    }
  }

  // No quote of the text ends the element early, and no backslash of it is taken for an escape.
  lemma {:induction false} QuotedComesBack(text: string, rest: string)
    ensures ReadQuoted(Escaped(text) + "\"" + rest) == Some((text, rest))
  {
    if text == "" {
      assert Escaped(text) + "\"" + rest == "\"" + rest;
    } else {
      var tail := Escaped(text[1..]) + "\"" + rest;
      QuotedComesBack(text[1..], rest);
      EscapedStep(text);
      var head := if text[0] == '\\' || text[0] == '"' then ['\\', text[0]] else [text[0]];
      assert Escaped(text) + "\"" + rest == head + tail;
      assert text == [text[0]] + text[1..];
      assert (head + tail)[|head|..] == tail;
    }
  }

  predicate Ends(rest: string) {
    rest != "" && (rest[0] == ',' || rest[0] == '}')
  }

  lemma BareStep(c: char, s: string, marks: seq<Mark>, rest: string)
    requires ReadBare(s) == Some((marks, rest)) && c !in "{}\",\\"
    ensures ReadBare([c] + s) == Some(([Mark(c, false)] + marks, rest))
  {
    assert ([c] + s)[1..] == s;
  }

  lemma NullComesBack(rest: string)
    requires Ends(rest)
    ensures ReadItem("NULL" + rest) == Some((Null, rest))
  {
    var l := Mark('L', false);
    var marks := [Mark('N', false), Mark('U', false), l, l];
    assert [l] + [] == [l] && [l] + [l] == [l, l] && [Mark('U', false)] + [l, l] == [Mark('U', false), l, l];
    assert [Mark('N', false)] + [Mark('U', false), l, l] == marks;
    BareStep('L', rest, [], rest);
    BareStep('L', ['L'] + rest, [l], rest);
    BareStep('U', ['L'] + (['L'] + rest), [l, l], rest);
    BareStep('N', ['U'] + (['L'] + (['L'] + rest)), [Mark('U', false), l, l], rest);
    assert "NULL" + rest == ['N'] + (['U'] + (['L'] + (['L'] + rest)));
    assert IsNullWord(marks);
  }

  lemma {:induction false} ItemComesBack(value: Value, rest: string)
    requires Ends(rest)
    ensures ReadItem(PrintElement(value) + rest) == Some((value, rest))
    decreases value, 0
  {
    match value
    case Null => NullComesBack(rest);
    case Text(text) =>
      var s := PrintElement(value) + rest;
      QuotedComesBack(text, rest);
      assert s[1..] == Escaped(text) + "\"" + rest;
    case Array(elements) => ArrayComesBack(elements, rest);
  }

  lemma {:induction false} ArrayComesBack(values: seq<Value>, rest: string)
    ensures ReadItem(ToArrayLiteral(values) + rest) == Some((Array(values), rest))
    decreases values, 1
  {
    var s := ToArrayLiteral(values) + rest;
    if values == [] {
      assert s == "{}" + rest && s[1..][1..] == rest;
    } else {
      assert s[1..] == PrintElements(values) + "}" + rest;
      ElementsStart(values);
      ItemsComeBack(values, rest);
    }
  }

  // What is printed starts with no space and no closing brace.
  lemma ElementsStart(values: seq<Value>)
    requires values != []
    ensures var s := PrintElements(values); s != "" && !IsSpace(s[0]) && s[0] != '}'
  {
    ElementStarts(values[0]);
  }

  lemma ElementStarts(value: Value)
    ensures var s := PrintElement(value); s != "" && (s[0] == 'N' || s[0] == '"' || s[0] == '{')
  {
    match value
    case Null =>
    case Text(text) =>
    case Array(elements) => assert PrintElement(value) == ToArrayLiteral(elements);
  }

  lemma {:induction false} ItemsComeBack(values: seq<Value>, rest: string)
    requires values != []
    ensures ReadItems(PrintElements(values) + "}" + rest) == Some((values, rest))
    decreases values, 0
  {
    if |values| == 1 {
      ItemComesBack(values[0], "}" + rest);
      LastItem(values[0], rest);
      assert values == [values[0]];
    } else {
      var tail := PrintElements(values[1..]) + "}" + rest;
      ItemComesBack(values[0], "," + tail);
      ItemsComeBack(values[1..], rest);
      OneMoreItem(values[0], values[1..], tail, rest);
      PrintedSplits(values, rest);
    }
  }

  lemma PrintedSplits(values: seq<Value>, rest: string)
    requires |values| > 1
    ensures values == [values[0]] + values[1..]
    ensures PrintElements(values) + "}" + rest
            == PrintElement(values[0]) + ("," + (PrintElements(values[1..]) + "}" + rest))
  {
    var first, tail := PrintElement(values[0]), PrintElements(values[1..]);
    assert first + "," + tail + "}" + rest == first + ("," + (tail + "}" + rest));
  }

  lemma LastItem(value: Value, rest: string)
    requires ReadItem(PrintElement(value) + ("}" + rest)) == Some((value, "}" + rest))
    ensures ReadItems(PrintElement(value) + "}" + rest) == Some(([value], rest))
  {
    assert PrintElement(value) + "}" + rest == PrintElement(value) + ("}" + rest);
    assert ("}" + rest)[1..] == rest;
  }

  lemma OneMoreItem(value: Value, values: seq<Value>, tail: string, rest: string)
    requires ReadItem(PrintElement(value) + ("," + tail)) == Some((value, "," + tail))
    requires ReadItems(tail) == Some((values, rest))
    ensures ReadItems(PrintElement(value) + ("," + tail)) == Some(([value] + values, rest))
  {
    assert ("," + tail)[1..] == tail;
  }

  // Round trip: PostgreSQL reads every printed array of nullable texts and arrays back as it was.
  lemma RoundTrip(values: seq<Value>)
    ensures ReadLiteral(ToArrayLiteral(values)) == Some(values)
  {
    ArrayComesBack(values, "");
    assert ToArrayLiteral(values) + "" == ToArrayLiteral(values);
  }

  // Different arrays are never printed alike.
  lemma PrintingIsInjective(values: seq<Value>, others: seq<Value>)
    requires ToArrayLiteral(values) == ToArrayLiteral(others)
    ensures values == others
  {
    RoundTrip(values);
    RoundTrip(others);
  }

  lemma PrintedSpecial(c: char)
    ensures PrintElement(Text([c])) ==
            if c == '"' then "\"\\\"\"" else if c == '\\' then "\"\\\\\"" else "\"" + [c] + "\""
  {
    EscapedStep([c]);
    assert [c][1..] == "" && Escaped("") == "";
  }

  // What a literal looks like: commas and braces, the word NULL, and quotes around a text, with a backslash in
  // front of each quote and backslash of the text.
  lemma PrintedLooksLike(a: Value, b: Value)
    ensures ToArrayLiteral([]) == "{}" && PrintElement(Null) == "NULL" && PrintElement(Array([])) == "{}"
    ensures ToArrayLiteral([a]) == "{" + PrintElement(a) + "}" == PrintElement(Array([a]))
    ensures ToArrayLiteral([a, b]) == "{" + PrintElement(a) + "," + PrintElement(b) + "}"
  {
    var one, two := [a], [b];
    var both := [a] + two;
    assert both[1..] == two && both == [a, b];
    assert PrintElements(one) == PrintElement(a) && PrintElements(two) == PrintElement(b);
    assert PrintElements(both) == PrintElement(a) + "," + PrintElements(two);
  }
}
