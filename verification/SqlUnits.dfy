/**
 Queries as the SQLite adapter reads them: their lexical units, what a query with its values means, and
 the rewriting of numbered placeholders into anonymous ones.
 */
module SqlUnits {
  // The lexical unit at the front of a text. A quoted text or block comment may lack its end.
  datatype Kind = Quoted(closed: bool) | Line | Block(closed: bool) | Param | Semi | Plain

  predicate IsDigit(c: char) { '0' <= c <= '9' }

  // ---------- Lexical units ----------

  // The end of a quoted text whose content goes on at j; a doubled quote is content.
  function QuoteEnd(s: string, quote: char, j: nat): (r: (bool, nat))
    requires j <= |s|
    ensures j <= r.1 <= |s| && (!r.0 ==> r.1 == |s|)
    decreases |s| - j
  {
    if j == |s| then (false, j)
    else if s[j] != quote then QuoteEnd(s, quote, j + 1)
    else if j + 1 < |s| && s[j + 1] == quote then QuoteEnd(s, quote, j + 2)
    else (true, j + 1)
  }

  function LineEnd(s: string, j: nat): (end: nat)
    requires j <= |s|
    ensures j <= end <= |s|
    decreases |s| - j
  {
    if j == |s| || s[j] == '\n' then j else LineEnd(s, j + 1)
  }

  function BlockEnd(s: string, j: nat): (r: (bool, nat))
    requires j <= |s|
    ensures j <= r.1 <= |s| && (!r.0 ==> r.1 == |s|)
    decreases |s| - j
  {
    if |s| < j + 2 then (false, |s|)
    else if s[j] == '*' && s[j + 1] == '/' then (true, j + 2)
    else BlockEnd(s, j + 1)
  }

  function DigitsEnd(s: string, j: nat): (end: nat)
    requires j <= |s|
    ensures j <= end <= |s|
    decreases |s| - j
  {
    if j < |s| && IsDigit(s[j]) then DigitsEnd(s, j + 1) else j
  }

  predicate IsQuote(c: char) { c == '\'' || c == '"' }

  // The kind and the length of the first unit.
  function First(s: string): (r: (Kind, nat))
    requires s != ""
    ensures 1 <= r.1 <= |s|
  {
    if IsQuote(s[0]) then var e := QuoteEnd(s, s[0], 1); (Quoted(e.0), e.1)
    else if s[0] == '-' && 1 < |s| && s[1] == '-' then (Line, LineEnd(s, 2))
    else if s[0] == '/' && 1 < |s| && s[1] == '*' then var e := BlockEnd(s, 2); (Block(e.0), e.1)
    else if s[0] == '$' && 1 < |s| && IsDigit(s[1]) && s[1] != '0' then (Param, DigitsEnd(s, 1))
    else if s[0] == ';' then (Semi, 1)
    else (Plain, 1)
  }

  datatype Token = Token(kind: Kind, text: string)

  function Lex(s: string): seq<Token> {
    if s == "" then [] else var (kind, n) := First(s); [Token(kind, s[..n])] + Lex(s[n..])
  }

  predicate IsOpen(kind: Kind) {
    kind == Quoted(false) || kind == Block(false)
  }

  // What may follow a unit without changing where it ends.
  predicate Fits(kind: Kind, text: string, rest: string)
    requires text != ""
  {
    rest == "" ||
    match kind
    case Quoted(closed) => closed && rest[0] != text[0]
    case Line => rest[0] == '\n'
    case Block(closed) => closed
    case Param => !IsDigit(rest[0])
    case Semi => true
    case Plain =>
      && (text[0] == '-' ==> rest[0] != '-')
      && (text[0] == '/' ==> rest[0] != '*')
      && (text[0] == '$' ==> !(IsDigit(rest[0]) && rest[0] != '0'))
  }

  lemma {:induction false} QuoteStays(s: string, quote: char, j: nat, rest: string)
    requires j <= |s|
    requires var (closed, n) := QuoteEnd(s, quote, j);
             rest == "" || (closed && rest[0] != quote)
    ensures var (closed, n) := QuoteEnd(s, quote, j);
            QuoteEnd(s[..n] + rest, quote, j) == (closed, n)
    decreases |s| - j
  {
    var (closed, n) := QuoteEnd(s, quote, j);
    var after := s[..n] + rest;
    if j == |s| {
    } else if s[j] != quote {
      QuoteStays(s, quote, j + 1, rest);
    } else if j + 1 < |s| && s[j + 1] == quote {
      QuoteStays(s, quote, j + 2, rest);
      assert after[j] == quote && after[j + 1] == quote;
    } else {
      assert after[j] == quote && (j + 1 < |after| ==> after[j + 1] == rest[0]);
    }
  }

  lemma {:induction false} LineStays(s: string, j: nat, rest: string)
    requires j <= |s| && (rest == "" || rest[0] == '\n')
    ensures LineEnd(s[..LineEnd(s, j)] + rest, j) == LineEnd(s, j)
    decreases |s| - j
  {
    if j < |s| && s[j] != '\n' {
      LineStays(s, j + 1, rest);
    }
  }

  lemma {:induction false} BlockStays(s: string, j: nat, rest: string)
    requires j <= |s| && (rest == "" || BlockEnd(s, j).0)
    ensures BlockEnd(s[..BlockEnd(s, j).1] + rest, j) == BlockEnd(s, j)
    decreases |s| - j
  {
    if j + 2 <= |s| && !(s[j] == '*' && s[j + 1] == '/') {
      BlockStays(s, j + 1, rest);
    }
  }

  lemma {:induction false} DigitsStay(s: string, j: nat, rest: string)
    requires j <= |s| && (rest == "" || !IsDigit(rest[0]))
    ensures DigitsEnd(s[..DigitsEnd(s, j)] + rest, j) == DigitsEnd(s, j)
    decreases |s| - j
  {
    if j < |s| && IsDigit(s[j]) {
      DigitsStay(s, j + 1, rest);
    }
  }

  // A unit in front of a text it fits is lexed again as that unit.
  lemma Relex(s: string, rest: string)
    requires s != "" && var (kind, n) := First(s); Fits(kind, s[..n], rest)
    ensures var (kind, n) := First(s); s[..n] + rest != "" && First(s[..n] + rest) == (kind, n)
  {
    var (kind, n) := First(s);
    var after := s[..n] + rest;
    assert after[0] == s[0];
    match kind
    case Quoted(closed) => QuoteStays(s, s[0], 1, rest);
    case Line => LineStays(s, 2, rest);
    case Block(closed) => BlockStays(s, 2, rest);
    case Param => DigitsStay(s, 1, rest);
    case _ =>
  }

  lemma {:induction false} LineStops(s: string, j: nat)
    requires j <= |s|
    ensures LineEnd(s, j) < |s| ==> s[LineEnd(s, j)] == '\n'
    decreases |s| - j
  {
    if j < |s| && s[j] != '\n' {
      LineStops(s, j + 1);
    }
  }

  lemma {:induction false} DigitsStop(s: string, j: nat)
    requires j <= |s|
    ensures forall k :: j <= k < DigitsEnd(s, j) ==> IsDigit(s[k])
    ensures DigitsEnd(s, j) < |s| ==> !IsDigit(s[DigitsEnd(s, j)])
    decreases |s| - j
  {
    if j < |s| && IsDigit(s[j]) {
      DigitsStop(s, j + 1);
    }
  }

  lemma {:induction false} QuoteStops(s: string, quote: char, j: nat)
    requires j <= |s|
    ensures var (closed, n) := QuoteEnd(s, quote, j); n < |s| ==> s[n] != quote
    decreases |s| - j
  {
    if j < |s| && s[j] != quote {
      QuoteStops(s, quote, j + 1);
    } else if j + 1 < |s| && s[j + 1] == quote {
      QuoteStops(s, quote, j + 2);
    }
  }

  lemma FirstFits(s: string)
    requires s != ""
    ensures var (kind, n) := First(s); Fits(kind, s[..n], s[n..]) && (IsOpen(kind) ==> n == |s|)
  {
    var (kind, n) := First(s);
    match kind
    case Quoted(closed) => QuoteStops(s, s[0], 1);
    case Line => LineStops(s, 2);
    case Param => DigitsStop(s, 1);
    case _ =>
  }

  // ---------- Meaning of a query with its values ----------

  function Number(digits: string): nat {
    if digits == "" then 0
    else
      var last := digits[|digits| - 1];
      Number(digits[..|digits| - 1]) * 10 + if IsDigit(last) then (last - '0') as nat else 0
  }

  lemma {:induction false} NumberIsPositive(digits: string)
    requires digits != "" && IsDigit(digits[0]) && digits[0] != '0'
    ensures Number(digits) >= 1
  {
    if |digits| > 1 {
      NumberIsPositive(digits[..|digits| - 1]);
    }
  }

  // What the database gets to see: text as it stands, a value, or a placeholder without a value.
  datatype Item<V> = Text(text: string) | Bound(value: V) | Unbound

  function ValueAt<V>(values: seq<V>, number: nat): Item<V> {
    if 1 <= number <= |values| then Bound(values[number - 1]) else Unbound
  }

  // Placeholders stand for the value their number names.
  function ByNumber<V>(s: string, values: seq<V>): seq<Item<V>> {
    if s == "" then []
    else
      var (kind, n) := First(s);
      [if kind.Param? then ValueAt(values, Number(s[1..n])) else Text(s[..n])] + ByNumber(s[n..], values)
  }

  predicate IsMark(kind: Kind, text: string) { kind.Plain? && text == "?" }

  // Question marks outside quoted text and comments stand for the values in turn.
  function ByPosition<V>(s: string, params: seq<V>): seq<Item<V>>
    decreases |s|
  {
    if s == "" then []
    else
      var (kind, n) := First(s);
      if IsMark(kind, s[..n]) then
        [ValueAt(params, 1)] + ByPosition(s[n..], if params == [] then [] else params[1..])
      else
        [Text(s[..n])] + ByPosition(s[n..], params)
  }

  predicate IsBareMark(t: Token) { IsMark(t.kind, t.text) }

  predicate NoBareMarks(s: string) {
    forall t :: t in Lex(s) ==> !IsBareMark(t)
  }

  function Marks(ts: seq<Token>): nat {
    if ts == [] then 0 else (if IsBareMark(ts[0]) then 1 else 0) + Marks(ts[1..])
  }

  // Every numbered placeholder has a value.
  predicate AllProvided(s: string, count: nat) {
    s == "" ||
    var (kind, n) := First(s);
    (kind.Param? ==> Number(s[1..n]) <= count) && AllProvided(s[n..], count)
  }

  // ---------- Rewriting ----------

  // Every numbered placeholder becomes a question mark.
  function Anonymous(s: string): string {
    if s == "" then ""
    else var (kind, n) := First(s); (if kind.Param? then "?" else s[..n]) + Anonymous(s[n..])
  }

  // The value of each placeholder occurrence.
  function Occurrences<V>(s: string, values: seq<V>): seq<V>
    requires AllProvided(s, |values|)
  {
    if s == "" then []
    else
      var (kind, n) := First(s);
      ProvidedTail(s, |values|);
      var rest := Occurrences(s[n..], values);
      if kind.Param? then [values[Number(s[1..n]) - 1]] + rest else rest
  }

  lemma ProvidedTail(s: string, count: nat)
    requires s != "" && AllProvided(s, count)
    ensures AllProvided(s[First(s).1..], count)
    ensures First(s).0.Param? ==> 1 <= Number(s[1..First(s).1]) <= count
  {
    var (kind, n) := First(s);
    if kind.Param? {
      NumberIsPositive(s[1..n]);
    }
  }

  function Renamed(t: Token): Token {
    if t.kind.Param? then Token(Plain, "?") else t
  }

  function RenamedAll(ts: seq<Token>): seq<Token> {
    if ts == [] then [] else [Renamed(ts[0])] + RenamedAll(ts[1..])
  }

  lemma HeadOfAnonymous(s: string)
    requires s != ""
    ensures Anonymous(s) != "" && Anonymous(s)[0] == if First(s).0.Param? then '?' else s[0]
  {
  }

  // The rewritten text has the same units, with a lone question mark for each placeholder.
  lemma AnonymousFirst(s: string)
    requires s != ""
    ensures var (kind, n) := First(s);
            Anonymous(s) != "" && First(Anonymous(s)) == if kind.Param? then (Plain, 1) else (kind, n)
  {
    var (kind, n) := First(s);
    var rest := s[n..];
    if rest != "" {
      HeadOfAnonymous(rest);
    }
    if !kind.Param? {
      FirstFits(s);
      Relex(s, Anonymous(rest));
    }
  }

  lemma {:induction false} AnonymousKeepsUnits(s: string)
    ensures Lex(Anonymous(s)) == RenamedAll(Lex(s))
  {
    if s != "" {
      var (kind, n) := First(s);
      AnonymousFirst(s);
      AnonymousKeepsUnits(s[n..]);
      var head := if kind.Param? then "?" else s[..n];
      assert Anonymous(s) == head + Anonymous(s[n..]);
      assert Anonymous(s)[|head|..] == Anonymous(s[n..]) && Anonymous(s)[..|head|] == head;
      assert Lex(s) == [Token(kind, s[..n])] + Lex(s[n..]);
    }
  }

  lemma BareMarksTail(s: string)
    requires s != ""
    ensures var (kind, n) := First(s); NoBareMarks(s) <==> !IsMark(kind, s[..n]) && NoBareMarks(s[n..])
  {
    var (kind, n) := First(s);
    var head := Token(kind, s[..n]);
    assert Lex(s) == [head] + Lex(s[n..]);
    assert forall t :: t in Lex(s) <==> t == head || t in Lex(s[n..]);
    assert IsBareMark(head) <==> IsMark(kind, s[..n]);
  }

  // Binding by position after the rewriting means what binding by number meant before it, exactly
  // when no question mark was already there.
  lemma {:induction false} RewritingKeepsBindingIff<V>(s: string, values: seq<V>)
    requires AllProvided(s, |values|)
    ensures ByPosition(Anonymous(s), Occurrences(s, values)) == ByNumber(s, values) <==> NoBareMarks(s)
  {
    if s != "" {
      var (kind, n) := First(s);
      var rest := s[n..];
      ProvidedTail(s, |values|);
      RewritingKeepsBindingIff(rest, values);
      AnonymousFirst(s);
      var head := if kind.Param? then "?" else s[..n];
      var query := Anonymous(s);
      assert query[|head|..] == Anonymous(rest) && query[..|head|] == head;
      BareMarksTail(s);
      var params := Occurrences(s, values);
      if kind.Param? {
        assert params[1..] == Occurrences(rest, values);
      }
      assert ByNumber(s, values)[1..] == ByNumber(rest, values);
      if !IsMark(kind, s[..n]) {
        assert ByPosition(query, params)[1..] == ByPosition(Anonymous(rest), Occurrences(rest, values));
      }
    }
  }

  // The bare mark takes the value, and the placeholder is left without one.
  lemma BareMarkTakesTheValue<V>(v: V)
    ensures AllProvided("?$1", 1) && Anonymous("?$1") == "??" && Occurrences("?$1", [v]) == [v]
    ensures ByNumber("?$1", [v]) == [Text("?"), Bound(v)]
    ensures ByPosition("??", [v]) == [Bound(v), Unbound]
  {
    var s, u: string, none: seq<V> := "?$1", "??", [];
    assert First(s) == (Plain, 1) && s[1..] == "$1" && First("$1") == (Param, 2);
    assert "$1"[1..2] == "1" && Number("1") == 1 && "$1"[2..] == "";
    assert AllProvided("$1", 1) && Anonymous("$1") == "?" && Occurrences("$1", [v]) == [v];
    assert First(u) == (Plain, 1) && u[..1] == "?" && u[1..] == "?";
    assert First("?") == (Plain, 1) && "?"[..1] == "?" && "?"[1..] == "";
    assert [v][1..] == none && ByPosition("?", none) == [Unbound] + ByPosition("", none);
    assert s[..1] == "?" && ByNumber("$1", [v]) == [Bound(v)] + ByNumber("", [v]);
  }

  // One value is passed for each question mark the rewriting put in.
  lemma {:induction false} OneValuePerMark<V>(s: string, values: seq<V>)
    requires AllProvided(s, |values|)
    ensures Marks(Lex(Anonymous(s))) == Marks(Lex(s)) + |Occurrences(s, values)|
  {
    AnonymousKeepsUnits(s);
    if s != "" {
      var (kind, n) := First(s);
      ProvidedTail(s, |values|);
      OneValuePerMark(s[n..], values);
      AnonymousKeepsUnits(s[n..]);
      assert Lex(s) == [Token(kind, s[..n])] + Lex(s[n..]);
    }
  }
}
