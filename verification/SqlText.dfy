/**
 Queries put together part by part: how a number, a quoted text and a comment are written, and what the
 units, the rewriting and the binding make of what is written. Every text is written in exactly one way.
 */
module SqlText {
  import opened SqlUnits

  // Only the last part of a query may lack its closing mark.
  datatype Part =
    | Placeholder(number: nat)
    | QuotedText(mark: char, content: string, closed: bool)
    | LineComment(content: string)
    | BlockComment(content: string, closed: bool)
    | Semicolon
    | Other(c: char)

  const DIGITS := "0123456789"

  // ---------- How parts are written ----------

  function Decimal(n: nat): (text: string)
    ensures text != ""
  {
    if n < 10 then [DIGITS[n]] else Decimal(n / 10) + [DIGITS[n % 10]]
  }

  function Doubled(content: string, mark: char): string {
    if content == "" then ""
    else (if content[0] == mark then [mark, mark] else [content[0]]) + Doubled(content[1..], mark)
  }

  function TextOf(p: Part): string {
    match p
    case Placeholder(number) => "$" + Decimal(number)
    case QuotedText(mark, content, closed) => [mark] + Doubled(content, mark) + if closed then [mark] else ""
    case LineComment(content) => "--" + content
    case BlockComment(content, closed) => "/*" + content + if closed then "*/" else ""
    case Semicolon => ";"
    case Other(c) => [c]
  }

  predicate IsPart(p: Part) {
    match p
    case Placeholder(number) => number >= 1
    case QuotedText(mark, _, _) => mark in "'\""
    case LineComment(content) => '\n' !in content
    case BlockComment(content, _) => forall k :: 0 <= k < |content| - 1 ==> content[k] != '*' || content[k + 1] != '/'
    case Semicolon => true
    case Other(c) => c !in "'\";"
  }

  // What may be written behind a part.
  predicate MayPrecede(p: Part, rest: string) {
    rest == "" ||
    match p
    case Placeholder(_) => rest[0] !in DIGITS
    case QuotedText(mark, _, closed) => closed && rest[0] != mark
    case LineComment(_) => rest[0] == '\n'
    case BlockComment(_, closed) => closed
    case Semicolon => true
    case Other(c) =>
      && (c == '-' ==> rest[0] != '-')
      && (c == '/' ==> rest[0] != '*')
      && (c == '$' ==> rest[0] !in "123456789")
  }

  function Written(parts: seq<Part>): string {
    if parts == [] then "" else TextOf(parts[0]) + Written(parts[1..])
  }

  predicate Readable(parts: seq<Part>) {
    parts == [] || (IsPart(parts[0]) && MayPrecede(parts[0], Written(parts[1..])) && Readable(parts[1..]))
  }

  // ---------- What they mean ----------

  predicate IsProvided(parts: seq<Part>, count: nat) {
    forall p :: p in parts && p.Placeholder? ==> p.number <= count
  }

  // With a question mark for every placeholder.
  function Marked(parts: seq<Part>): string {
    if parts == [] then "" else (if parts[0].Placeholder? then "?" else TextOf(parts[0])) + Marked(parts[1..])
  }

  // The value that each placeholder names, in the order of the text.
  function Chosen<V>(parts: seq<Part>, values: seq<V>): seq<V>
    requires Readable(parts) && IsProvided(parts, |values|)
  {
    if parts == [] then []
    else if parts[0].Placeholder? then [values[parts[0].number - 1]] + Chosen(parts[1..], values)
    else Chosen(parts[1..], values)
  }

  // What the database is meant to get: the text, with each number's value in its place.
  function Meant<V>(parts: seq<Part>, values: seq<V>): seq<Item<V>>
    requires Readable(parts)
  {
    if parts == [] then []
    else
      var item := match parts[0]
        case Placeholder(number) => if number <= |values| then Bound(values[number - 1]) else Unbound
        case _ => Item.Text(TextOf(parts[0]));
      [item] + Meant(parts[1..], values)
  }

  function KindOf(p: Part): Kind {
    match p
    case Placeholder(_) => Param
    case QuotedText(_, _, closed) => Quoted(closed)
    case LineComment(_) => Line
    case BlockComment(_, closed) => Block(closed)
    case Semicolon => Semi
    case Other(_) => Plain
  }

  // ---------- A part is one unit ----------

  lemma DigitsAreListed(c: char)
    ensures IsDigit(c) <==> c in DIGITS
    ensures IsDigit(c) && c != '0' <==> c in "123456789"
  {
  }

  // The decimal text of a number, read digit by digit, is that number.
  lemma {:induction false} NumberOfDecimal(n: nat)
    ensures Number(Decimal(n)) == n
  {
    var last := [DIGITS[n % 10]];
    if n < 10 {
      assert last[..0] == "";
    } else {
      NumberOfDecimal(n / 10);
      assert (Decimal(n / 10) + last)[..|Decimal(n)| - 1] == Decimal(n / 10);
    }
  }

  lemma {:induction false} DecimalIsDigits(n: nat)
    ensures forall k :: 0 <= k < |Decimal(n)| ==> IsDigit(Decimal(n)[k])
    ensures n >= 1 ==> Decimal(n)[0] != '0'
  {
    if n >= 10 {
      DecimalIsDigits(n / 10);
    }
  }

  lemma {:induction false} DigitsAreTaken(s: string, j: nat, m: nat)
    requires j <= m <= |s| && (forall k :: j <= k < m ==> IsDigit(s[k])) && (m < |s| ==> !IsDigit(s[m]))
    ensures DigitsEnd(s, j) == m
    decreases m - j
  {
    if j < m {
      DigitsAreTaken(s, j + 1, m);
    }
  }

  lemma PlaceholderIsFirst(n: nat, rest: string)
    requires n >= 1 && (rest == "" || rest[0] !in DIGITS)
    ensures var s := "$" + Decimal(n) + rest;
            First(s) == (Param, 1 + |Decimal(n)|) && s[1..1 + |Decimal(n)|] == Decimal(n)
  {
    var digits := Decimal(n);
    var s := "$" + digits + rest;
    DecimalIsDigits(n);
    assert s[1] == digits[0] && s[1..1 + |digits|] == digits;
    forall k | 1 <= k < 1 + |digits| ensures IsDigit(s[k]) {
      assert s[k] == digits[k - 1];
    }
    if rest != "" {
      DigitsAreListed(rest[0]);
      assert s[1 + |digits|] == rest[0];
    }
    DigitsAreTaken(s, 1, 1 + |digits|);
  }

  lemma {:induction false} QuoteIsTaken(front: string, content: string, mark: char, closed: bool, rest: string)
    requires rest == "" || (closed && rest[0] != mark)
    ensures var inner := Doubled(content, mark) + if closed then [mark] else "";
            QuoteEnd(front + (inner + rest), mark, |front|) == (closed, |front + inner|)
    decreases |content|
  {
    var inner := Doubled(content, mark) + if closed then [mark] else "";
    var s := front + (inner + rest);
    if content == "" {
      if closed {
        assert s[|front|] == mark && (rest != "" ==> s[|front| + 1] == rest[0]);
      }
    } else {
      var c := if content[0] == mark then [mark, mark] else [content[0]];
      var tail := Doubled(content[1..], mark) + if closed then [mark] else "";
      assert inner == c + tail;
      assert s == (front + c) + (tail + rest);
      assert s[|front|] == c[0] && (|c| == 2 ==> s[|front| + 1] == mark);
      QuoteIsTaken(front + c, content[1..], mark, closed, rest);
    }
  }

  lemma {:induction false} LineIsTaken(s: string, j: nat, m: nat)
    requires j <= m <= |s| && (forall k :: j <= k < m ==> s[k] != '\n') && (m < |s| ==> s[m] == '\n')
    ensures LineEnd(s, j) == m
    decreases m - j
  {
    if j < m {
      LineIsTaken(s, j + 1, m);
    }
  }

  lemma {:induction false} BlockIsTaken(s: string, j: nat, m: nat)
    requires j <= m && m + 2 <= |s| && s[m] == '*' && s[m + 1] == '/'
    requires forall k :: j <= k < m ==> s[k] != '*' || s[k + 1] != '/'
    ensures BlockEnd(s, j) == (true, m + 2)
    decreases m - j
  {
    if j < m {
      BlockIsTaken(s, j + 1, m);
    }
  }

  lemma {:induction false} BlockIsOpen(s: string, j: nat)
    requires j <= |s| && forall k :: j <= k < |s| - 1 ==> s[k] != '*' || s[k + 1] != '/'
    ensures BlockEnd(s, j) == (false, |s|)
    decreases |s| - j
  {
    if j + 2 <= |s| {
      BlockIsOpen(s, j + 1);
    }
  }

  lemma BlockCommentIsFirst(content: string, closed: bool, rest: string)
    requires IsPart(BlockComment(content, closed)) && (closed || rest == "")
    ensures var text := TextOf(BlockComment(content, closed)); First(text + rest) == (Block(closed), |text|)
  {
    var s := TextOf(BlockComment(content, closed)) + rest;
    var m := 2 + |content|;
    assert forall k :: 2 <= k < m ==> s[k] == content[k - 2];
    if closed {
      assert s[m] == '*' && s[m + 1] == '/';
      BlockIsTaken(s, 2, m);
    } else {
      BlockIsOpen(s, 2);
    }
  }

  lemma QuotedTextIsFirst(mark: char, content: string, closed: bool, rest: string)
    requires IsQuote(mark) && (rest == "" || (closed && rest[0] != mark))
    ensures var text := TextOf(QuotedText(mark, content, closed)); First(text + rest) == (Quoted(closed), |text|)
  {
    QuoteIsTaken([mark], content, mark, closed, rest);
    assert TextOf(QuotedText(mark, content, closed)) + rest
        == [mark] + (Doubled(content, mark) + (if closed then [mark] else "") + rest);
  }

  lemma LineCommentIsFirst(content: string, rest: string)
    requires '\n' !in content && (rest == "" || rest[0] == '\n')
    ensures var text := TextOf(LineComment(content)); First(text + rest) == (Line, |text|)
  {
    var s := TextOf(LineComment(content)) + rest;
    assert forall k :: 2 <= k < 2 + |content| ==> s[k] == content[k - 2];
    LineIsTaken(s, 2, 2 + |content|);
  }

  // A part in front of a text that may follow it is the first unit.
  lemma PartIsFirst(p: Part, rest: string)
    requires IsPart(p) && MayPrecede(p, rest)
    ensures TextOf(p) != "" && First(TextOf(p) + rest) == (KindOf(p), |TextOf(p)|)
  {
    var s := TextOf(p) + rest;
    match p
    case Placeholder(number) => PlaceholderIsFirst(number, rest);
    case QuotedText(mark, content, closed) => QuotedTextIsFirst(mark, content, closed, rest);
    case LineComment(content) => LineCommentIsFirst(content, rest);
    case BlockComment(content, closed) => BlockCommentIsFirst(content, closed, rest);
    case Semicolon =>
    case Other(c) =>
      if rest != "" {
        DigitsAreListed(rest[0]);
        assert s[1] == rest[0];
      }
  }

  lemma SplitOff(p: Part, rest: string)
    ensures (TextOf(p) + rest)[..|TextOf(p)|] == TextOf(p) && (TextOf(p) + rest)[|TextOf(p)|..] == rest
  {
  }

  lemma PlaceholderNumber(p: Part, rest: string)
    requires p.Placeholder?
    ensures Number((TextOf(p) + rest)[1..|TextOf(p)|]) == p.number
  {
    assert (TextOf(p) + rest)[1..|TextOf(p)|] == Decimal(p.number);
    NumberOfDecimal(p.number);
  }

  // ---------- The rewriting of what is written ----------

  lemma {:induction false} ProvidedOfWritten(parts: seq<Part>, count: nat)
    requires Readable(parts)
    ensures AllProvided(Written(parts), count) <==> IsProvided(parts, count)
  {
    if parts != [] {
      var p, rest := parts[0], Written(parts[1..]);
      PartIsFirst(p, rest);
      SplitOff(p, rest);
      ProvidedOfWritten(parts[1..], count);
      if p.Placeholder? {
        PlaceholderNumber(p, rest);
      }
      assert parts == [p] + parts[1..];
    }
  }

  lemma {:induction false} AnonymousOfWritten(parts: seq<Part>)
    requires Readable(parts)
    ensures Anonymous(Written(parts)) == Marked(parts)
  {
    if parts != [] {
      PartIsFirst(parts[0], Written(parts[1..]));
      SplitOff(parts[0], Written(parts[1..]));
      AnonymousOfWritten(parts[1..]);
    }
  }

  lemma {:induction false} OccurrencesOfWritten<V>(parts: seq<Part>, values: seq<V>)
    requires Readable(parts) && IsProvided(parts, |values|)
    ensures AllProvided(Written(parts), |values|)
    ensures Occurrences(Written(parts), values) == Chosen(parts, values)
  {
    ProvidedOfWritten(parts, |values|);
    if parts != [] {
      var p, rest := parts[0], Written(parts[1..]);
      PartIsFirst(p, rest);
      SplitOff(p, rest);
      OccurrencesOfWritten(parts[1..], values);
      if p.Placeholder? {
        PlaceholderNumber(p, rest);
      }
    }
  }

  // A query is bound as it is meant: each placeholder stands for the value its decimal number names.
  lemma {:induction false} BindingOfWritten<V>(parts: seq<Part>, values: seq<V>)
    requires Readable(parts)
    ensures ByNumber(Written(parts), values) == Meant(parts, values)
  {
    if parts != [] {
      var p, rest := parts[0], Written(parts[1..]);
      PartIsFirst(p, rest);
      SplitOff(p, rest);
      BindingOfWritten(parts[1..], values);
      if p.Placeholder? {
        PlaceholderNumber(p, rest);
      }
    }
  }

  lemma {:induction false} BareMarksOfWritten(parts: seq<Part>)
    requires Readable(parts)
    ensures NoBareMarks(Written(parts)) <==> Other('?') !in parts
  {
    if parts == [] {
      assert Lex("") == [];
    } else {
      var p, rest := parts[0], Written(parts[1..]);
      PartIsFirst(p, rest);
      SplitOff(p, rest);
      BareMarksTail(TextOf(p) + rest);
      BareMarksOfWritten(parts[1..]);
      assert IsMark(KindOf(p), TextOf(p)) <==> p == Other('?');
      assert parts == [p] + parts[1..];
    }
  }

  // A lone placeholder, whatever its number.
  lemma SinglePlaceholder<V>(n: nat, values: seq<V>)
    requires 1 <= n
    ensures var s := "$" + Decimal(n);
            && (AllProvided(s, |values|) <==> n <= |values|)
            && Anonymous(s) == "?"
            && (n <= |values| ==> ByNumber(s, values) == [Bound(values[n - 1])])
            && (n <= |values| ==> Occurrences(s, values) == [values[n - 1]])
  {
    var parts := [Placeholder(n)];
    assert Written(parts) == "$" + Decimal(n) && Readable(parts);
    ProvidedOfWritten(parts, |values|);
    assert parts[0] in parts;
    AnonymousOfWritten(parts);
    BindingOfWritten(parts, values);
    if n <= |values| {
      OccurrencesOfWritten(parts, values);
    }
  }

  // ---------- Every text is written in exactly one way ----------

  lemma {:induction false} DecimalOfNumber(digits: string)
    requires digits != "" && digits[0] != '0' && forall k :: 0 <= k < |digits| ==> IsDigit(digits[k])
    ensures Number(digits) >= 1 && Decimal(Number(digits)) == digits
  {
    var front, last := digits[..|digits| - 1], digits[|digits| - 1];
    assert digits == front + [last];
    assert last == DIGITS[(last - '0') as nat];
    if front != "" {
      DecimalOfNumber(front);
      var n := (last - '0') as nat;
      assert Number(digits) / 10 == Number(front) && Number(digits) % 10 == n;
    } else {
      assert Number(front) == 0;
    }
  }

  lemma DoubledMore(c: char, content: string, mark: char)
    ensures Doubled([c] + content, mark) == (if c == mark then [mark, mark] else [c]) + Doubled(content, mark)
  {
    assert ([c] + content)[1..] == content;
  }

  lemma {:induction false} QuoteIsDoubled(s: string, mark: char, j: nat) returns (content: string)
    requires j <= |s|
    ensures var (closed, n) := QuoteEnd(s, mark, j);
            s[j..n] == Doubled(content, mark) + if closed then [mark] else ""
    decreases |s| - j
  {
    var (closed, n) := QuoteEnd(s, mark, j);
    if j == |s| || (s[j] == mark && !(j + 1 < |s| && s[j + 1] == mark)) {
      content := "";
    } else {
      var m := if s[j] == mark then j + 2 else j + 1;
      var tail := QuoteIsDoubled(s, mark, m);
      content := [s[j]] + tail;
      DoubledMore(s[j], tail, mark);
      assert s[j..n] == s[j..m] + s[m..n] && s[j..m] == if s[j] == mark then [mark, mark] else [s[j]];
    }
  }

  lemma {:induction false} LineHasNoFeed(s: string, j: nat)
    requires j <= |s|
    ensures '\n' !in s[j..LineEnd(s, j)]
    decreases |s| - j
  {
    if j < |s| && s[j] != '\n' {
      LineHasNoFeed(s, j + 1);
      assert s[j..LineEnd(s, j)] == [s[j]] + s[j + 1..LineEnd(s, j)];
    }
  }

  lemma {:induction false} BlockHasNoEnd(s: string, j: nat)
    requires j <= |s|
    ensures var (closed, n) := BlockEnd(s, j);
            && (closed ==> j + 2 <= n && s[n - 2] == '*' && s[n - 1] == '/')
            && forall k :: j <= k < (if closed then n - 2 else n - 1) ==> s[k] != '*' || s[k + 1] != '/'
    decreases |s| - j
  {
    if j + 2 <= |s| && !(s[j] == '*' && s[j + 1] == '/') {
      BlockHasNoEnd(s, j + 1);
    }
  }

  lemma PlaceholderAt(s: string) returns (p: Part)
    requires s != "" && First(s).0.Param?
    ensures IsPart(p) && TextOf(p) == s[..First(s).1] && KindOf(p) == First(s).0
  {
    var n := First(s).1;
    DigitsStop(s, 1);
    DecimalOfNumber(s[1..n]);
    p := Placeholder(Number(s[1..n]));
    assert s[..n] == "$" + s[1..n];
  }

  lemma BlockCommentAt(s: string) returns (p: Part)
    requires s != "" && First(s).0.Block?
    ensures IsPart(p) && TextOf(p) == s[..First(s).1] && KindOf(p) == First(s).0
  {
    var (closed, n) := BlockEnd(s, 2);
    BlockHasNoEnd(s, 2);
    var content := s[2..if closed then n - 2 else n];
    assert s[..n] == "/*" + content + if closed then "*/" else "";
    p := BlockComment(content, closed);
  }

  // The part that the first unit is.
  lemma PartAt(s: string) returns (p: Part)
    requires s != ""
    ensures var (kind, n) := First(s); IsPart(p) && TextOf(p) == s[..n] && KindOf(p) == kind
  {
    var (kind, n) := First(s);
    match kind
    case Quoted(closed) =>
      var content := QuoteIsDoubled(s, s[0], 1);
      p := QuotedText(s[0], content, closed);
      assert s[..n] == [s[0]] + s[1..n];
    case Line =>
      LineHasNoFeed(s, 2);
      p := LineComment(s[2..n]);
      assert s[..n] == "--" + s[2..n];
    case Block(_) => p := BlockCommentAt(s);
    case Param => p := PlaceholderAt(s);
    case Semi => p := Semicolon;
    case Plain => p := Other(s[0]);
  }

  lemma UnitMayPrecede(s: string, p: Part)
    requires s != "" && IsPart(p) && TextOf(p) == s[..First(s).1] && KindOf(p) == First(s).0
    ensures MayPrecede(p, s[First(s).1..])
  {
    var (kind, n) := First(s);
    FirstFits(s);
    if n < |s| {
      DigitsAreListed(s[n]);
      assert TextOf(p)[0] == s[0];
    }
  }

  lemma WrittenFirst(p: Part, rest: seq<Part>, after: string)
    requires Readable(rest) && Written(rest) == after && IsPart(p) && MayPrecede(p, after)
    ensures Readable([p] + rest) && Written([p] + rest) == TextOf(p) + after
  {
    assert ([p] + rest)[1..] == rest;
  }

  // Any text at all consists of parts, so what holds of written queries holds of every query.
  lemma {:induction false} EveryTextIsWritten(s: string) returns (parts: seq<Part>)
    ensures Readable(parts) && Written(parts) == s
  {
    parts := [];
    if s != "" {
      var n := First(s).1;
      var rest := EveryTextIsWritten(s[n..]);
      var p := PartAt(s);
      UnitMayPrecede(s, p);
      WrittenFirst(p, rest, s[n..]);
      parts := [p] + rest;
      assert s == s[..n] + s[n..];
    }
  }

  lemma {:induction false} DoublingIsInjective(a: string, b: string, mark: char)
    requires Doubled(a, mark) == Doubled(b, mark)
    ensures a == b
  {
    if a != "" && b != "" {
      var n := if a[0] == mark then 2 else 1;
      assert a[0] == Doubled(a, mark)[0] == Doubled(b, mark)[0] == b[0];
      assert Doubled(a, mark)[n..] == Doubled(a[1..], mark) && Doubled(b, mark)[n..] == Doubled(b[1..], mark);
      DoublingIsInjective(a[1..], b[1..], mark);
      assert a == [a[0]] + a[1..] && b == [b[0]] + b[1..];
    }
  }

  lemma PartIsDetermined(p: Part, q: Part)
    requires TextOf(p) == TextOf(q) && KindOf(p) == KindOf(q)
    ensures p == q
  {
    match p
    case Placeholder(number) =>
      assert TextOf(p)[1..] == Decimal(number) && TextOf(q)[1..] == Decimal(q.number);
      NumberOfDecimal(number);
      NumberOfDecimal(q.number);
    case QuotedText(mark, content, closed) =>
      assert TextOf(p)[0] == mark && TextOf(q)[0] == q.mark;
      var end := |TextOf(p)| - if closed then 1 else 0;
      assert TextOf(p)[1..end] == Doubled(content, mark) && TextOf(q)[1..end] == Doubled(q.content, mark);
      DoublingIsInjective(content, q.content, mark);
    case LineComment(content) =>
      assert TextOf(p)[2..] == content && TextOf(q)[2..] == q.content;
    case BlockComment(content, closed) =>
      var end := |TextOf(p)| - if closed then 2 else 0;
      assert TextOf(p)[2..end] == content && TextOf(q)[2..end] == q.content;
    case Semicolon =>
    case Other(c) =>
      assert TextOf(p)[0] == c && TextOf(q)[0] == q.c;
  }

  lemma {:induction false} WritingIsInjective(a: seq<Part>, b: seq<Part>)
    requires Readable(a) && Readable(b) && Written(a) == Written(b)
    ensures a == b
  {
    if a != [] {
      PartIsFirst(a[0], Written(a[1..]));
    }
    if b != [] {
      PartIsFirst(b[0], Written(b[1..]));
    }
    if a != [] && b != [] {
      SplitOff(a[0], Written(a[1..]));
      SplitOff(b[0], Written(b[1..]));
      PartIsDetermined(a[0], b[0]);
      WritingIsInjective(a[1..], b[1..]);
      assert a == [a[0]] + a[1..] && b == [b[0]] + b[1..];
    }
  }
}
