/**
 The two scanners of the SQLite adapter: rewriting numbered placeholders into anonymous ones, and
 splitting a script into statements. Both step over quoted text and comments the same way.
 */
module SqlScanner {
  import opened Outcomes
  import opened SqlUnits
  import opened SqlText

  // ---------- The scanning loops ----------

  lemma SuffixSuffix(text: string, i: nat, j: nat)
    requires i <= j <= |text|
    ensures text[i..][j - i..] == text[j..] && text[i..][..j - i] == text[i..j]
  {
  }

  // Steps over the unit that starts at i.
  method Scan(text: string, i: nat) returns (kind: Kind, j: nat)
    requires i < |text|
    ensures i < j <= |text| && First(text[i..]) == (kind, j - i)
  {
    ghost var s := text[i..];
    var ch := text[i];
    if IsQuote(ch) {
      var closed;
      closed, j := ScanQuoted(text, i);
      kind := Quoted(closed);
    } else if ch == '-' && i + 1 < |text| && text[i + 1] == '-' {
      j := i + 2;
      while j < |text| && text[j] != '\n'
        invariant i + 2 <= j <= |text| && LineEnd(s, j - i) == LineEnd(s, 2)
      {
        j := j + 1;
      }
      kind := Line;
    } else if ch == '/' && i + 1 < |text| && text[i + 1] == '*' {
      j := i + 2;
      while j + 1 < |text| && !(text[j] == '*' && text[j + 1] == '/')
        invariant i + 2 <= j <= |text| && BlockEnd(s, j - i) == BlockEnd(s, 2)
      {
        j := j + 1;
      }
      kind := Block(j + 1 < |text|);
      j := if j + 1 < |text| then j + 2 else |text|;
    } else if ch == '$' && i + 1 < |text| && IsDigit(text[i + 1]) && text[i + 1] != '0' {
      j := i + 1;
      while j < |text| && IsDigit(text[j])
        invariant i + 1 <= j <= |text| && DigitsEnd(s, j - i) == DigitsEnd(s, 1)
      {
        j := j + 1;
      }
      kind := Param;
    } else {
      kind, j := if ch == ';' then Semi else Plain, i + 1;
    }
  }

  method ScanQuoted(text: string, i: nat) returns (closed: bool, j: nat)
    requires i < |text|
    ensures i < j <= |text| && QuoteEnd(text[i..], text[i], 1) == (closed, j - i)
  {
    ghost var s := text[i..];
    j := i + 1;
    while j < |text|
      invariant i + 1 <= j <= |text| && QuoteEnd(s, text[i], j - i) == QuoteEnd(s, text[i], 1)
    {
      if text[j] == text[i] {
        if j + 1 < |text| && text[j + 1] == text[i] {
          j := j + 2;
          continue;
        }
        return true, j + 1;
      }
      j := j + 1;
    }
    closed := false;
  }

  datatype Rewritten<V> = Rewritten(query: string, params: seq<V>)

  method ParseIndex(digits: string) returns (number: nat)
    ensures number == Number(digits)
  {
    number := 0;
    for i := 0 to |digits|
      invariant number == Number(digits[..i])
    {
      assert digits[..i + 1][..i] == digits[..i];
      number := number * 10 + if IsDigit(digits[i]) then (digits[i] - '0') as nat else 0;
    }
    assert digits[..|digits|] == digits;
  }

  lemma InnerSlice(text: string, i: nat, j: nat)
    requires i < j <= |text|
    ensures text[i..][1..j - i] == text[i + 1..j]
  {
  }

  lemma QueryGrows(text: string, i: nat, kind: Kind, j: nat, query: string, head: string)
    requires i < j <= |text| && First(text[i..]) == (kind, j - i)
    requires head == if kind.Param? then "?" else text[i..j]
    ensures query + Anonymous(text[i..]) == query + head + Anonymous(text[j..])
  {
    SuffixSuffix(text, i, j);
    Regroup(query, head, Anonymous(text[j..]));
  }

  lemma ProvidedAfter(text: string, i: nat, kind: Kind, j: nat, count: nat)
    requires i < j <= |text| && First(text[i..]) == (kind, j - i)
    ensures kind.Param? ==> Number(text[i + 1..j]) >= 1
    ensures AllProvided(text[i..], count) <==>
            (kind.Param? ==> Number(text[i + 1..j]) <= count) && AllProvided(text[j..], count)
  {
    SuffixSuffix(text, i, j);
    InnerSlice(text, i, j);
    if kind.Param? {
      NumberIsPositive(text[i + 1..j]);
    }
  }

  lemma Regroup<T>(a: seq<T>, b: seq<T>, c: seq<T>)
    ensures a + (b + c) == a + b + c
  {
  }

  lemma OccurrencesGrow<V>(s: string, kind: Kind, digits: string, rest: string, values: seq<V>, found: seq<V>)
    requires s != "" && kind == First(s).0 && digits == s[1..First(s).1] && rest == s[First(s).1..]
             && AllProvided(s, |values|)
    requires kind.Param? ==> 1 <= Number(digits) <= |values|
    requires found == if kind.Param? then [values[Number(digits) - 1]] else []
    ensures AllProvided(rest, |values|) && Occurrences(s, values) == found + Occurrences(rest, values)
  {
    assert AllProvided(rest, |values|) by { ProvidedTail(s, |values|); }
  }

  lemma ParamsGrow<V>(text: string, i: nat, kind: Kind, j: nat, values: seq<V>, params: seq<V>, found: seq<V>)
    requires i < j <= |text| && First(text[i..]) == (kind, j - i) && AllProvided(text[i..], |values|)
    requires kind.Param? ==> 1 <= Number(text[i + 1..j]) <= |values|
    requires found == if kind.Param? then [values[Number(text[i + 1..j]) - 1]] else []
    ensures AllProvided(text[j..], |values|)
    ensures params + Occurrences(text[i..], values) == params + found + Occurrences(text[j..], values)
  {
    SuffixSuffix(text, i, j);
    InnerSlice(text, i, j);
    OccurrencesGrow(text[i..], kind, text[i + 1..j], text[j..], values, found);
    Regroup(params, found, Occurrences(text[j..], values));
  }

  // Up to i, both results are written.
  ghost predicate Rewriting<V>(text: string, i: nat, values: seq<V>, query: string, params: seq<V>) {
    && i <= |text|
    && (AllProvided(text, |values|) <==> AllProvided(text[i..], |values|))
    && query + Anonymous(text[i..]) == Anonymous(text)
    && (AllProvided(text, |values|) ==> params + Occurrences(text[i..], values) == Occurrences(text, values))
  }

  lemma RewriteOne<V>(text: string, i: nat, kind: Kind, j: nat, values: seq<V>, query: string, params: seq<V>,
                      head: string, found: seq<V>)
    requires Rewriting(text, i, values, query, params)
    requires i < j <= |text| && First(text[i..]) == (kind, j - i)
    requires kind.Param? ==> 1 <= Number(text[i + 1..j]) <= |values|
    requires head == if kind.Param? then "?" else text[i..j]
    requires found == if kind.Param? then [values[Number(text[i + 1..j]) - 1]] else []
    ensures Rewriting(text, j, values, query + head, params + found)
  {
    QueryGrows(text, i, kind, j, query, head);
    ProvidedAfter(text, i, kind, j, |values|);
    if AllProvided(text[i..], |values|) {
      ParamsGrow(text, i, kind, j, values, params, found);
    }
  }

  lemma NotProvided<V>(text: string, i: nat, kind: Kind, j: nat, values: seq<V>, query: string, params: seq<V>)
    requires Rewriting(text, i, values, query, params)
    requires i < j <= |text| && First(text[i..]) == (kind, j - i) && kind.Param?
    ensures Number(text[i + 1..j]) >= 1 && (Number(text[i + 1..j]) > |values| ==> !AllProvided(text, |values|))
  {
    ProvidedAfter(text, i, kind, j, |values|);
  }

  // Question marks for the placeholders, and the values that their decimal numbers name; refused exactly
  // when a number exceeds the values.
  ghost predicate IsRewritten<V>(parts: seq<Part>, values: seq<V>, result: Option<Rewritten<V>>)
    requires Readable(parts)
  {
    && (result.Some? <==> IsProvided(parts, |values|))
    && (result.Some? ==> result.value == Rewritten(Marked(parts), Chosen(parts, values)))
  }

  lemma PartsAreRewritten<V>(parts: seq<Part>, values: seq<V>, result: Option<Rewritten<V>>)
    requires Readable(parts) && (result.Some? <==> AllProvided(Written(parts), |values|))
    requires result.Some? ==> result.value == Rewritten(Anonymous(Written(parts)), Occurrences(Written(parts), values))
    ensures IsRewritten(parts, values, result)
  {
    ProvidedOfWritten(parts, |values|);
    AnonymousOfWritten(parts);
    if result.Some? {
      OccurrencesOfWritten(parts, values);
    }
  }

  // Fails exactly when a placeholder names a value that was not given.
  method RewritePlaceholders<V>(text: string, values: seq<V>) returns (result: Option<Rewritten<V>>)
    ensures result.Some? <==> AllProvided(text, |values|)
    ensures result.Some? ==> result.value == Rewritten(Anonymous(text), Occurrences(text, values))
    ensures forall parts :: Readable(parts) && Written(parts) == text ==> IsRewritten(parts, values, result)
  {
    var query, params := "", [];
    var i := 0;
    while i < |text|
      invariant Rewriting(text, i, values, query, params)
    {
      var kind, j := Scan(text, i);
      var head, found := text[i..j], [];
      if kind.Param? {
        var number := ParseIndex(text[i + 1..j]);
        NotProvided(text, i, kind, j, values, query, params);
        if number > |values| {
          forall parts | Readable(parts) && Written(parts) == text ensures IsRewritten<V>(parts, values, None) {
            PartsAreRewritten<V>(parts, values, None);
          }
          return None;
        }
        head, found := "?", [values[number - 1]];
      }
      RewriteOne(text, i, kind, j, values, query, params, head, found);
      query, params, i := query + head, params + found, j;
    }
    result := Some(Rewritten(query, params));
    forall parts | Readable(parts) && Written(parts) == text ensures IsRewritten(parts, values, result) {
      PartsAreRewritten(parts, values, result);
    }
  }

  // ---------- Splitting ----------

  predicate IsSpace(c: char) {
    var n := c as int;
    9 <= n <= 13 || n == 0x20 || n == 0xA0 || n == 0x1680 || 0x2000 <= n <= 0x200A || n == 0x2028 || n == 0x2029
    || n == 0x202F || n == 0x205F || n == 0x3000 || n == 0xFEFF
  }

  function TrimLeft(s: string): string {
    if s != "" && IsSpace(s[0]) then TrimLeft(s[1..]) else s
  }

  function TrimRight(s: string): string {
    if s != "" && IsSpace(s[|s| - 1]) then TrimRight(s[..|s| - 1]) else s
  }

  function Trim(s: string): string {
    TrimRight(TrimLeft(s))
  }

  // The length of the text before the first semicolon outside quoted text and comments.
  function Cut(s: string): (n: nat)
    ensures n <= |s|
  {
    if s == "" then 0
    else var (kind, n) := First(s); if kind.Semi? then 0 else n + Cut(s[n..])
  }

  function NotEmpty(piece: string): seq<string> {
    if piece == "" then [] else [piece]
  }

  // A chunk's piece: trimmed, and dropped when that leaves nothing.
  function Emit(chunk: string): seq<string> {
    NotEmpty(Trim(chunk))
  }

  // The text after the first cut.
  function AfterCut(s: string): string {
    if Cut(s) == |s| then "" else s[Cut(s) + 1..]
  }

  // The texts between the cuts.
  function Chunks(s: string): seq<string>
    decreases |s|, 1
  {
    [s[..Cut(s)]] + ChunksAfter(s)
  }

  function ChunksAfter(s: string): seq<string>
    decreases |s|, 0
  {
    if Cut(s) == |s| then [] else Chunks(AfterCut(s))
  }

  function EmitAll(chunks: seq<string>): seq<string> {
    if chunks == [] then [] else Emit(chunks[0]) + EmitAll(chunks[1..])
  }

  function Split(s: string): seq<string> {
    EmitAll(Chunks(s))
  }

  lemma EmitFirst(chunk: string, chunks: seq<string>)
    ensures EmitAll([chunk] + chunks) == Emit(chunk) + EmitAll(chunks)
  {
    assert ([chunk] + chunks)[1..] == chunks;
  }

  lemma SplitAtCut(s: string)
    ensures Split(s) == Emit(s[..Cut(s)]) + if Cut(s) == |s| then [] else Split(AfterCut(s))
  {
    EmitFirst(s[..Cut(s)], ChunksAfter(s));
  }

  lemma {:induction false} DigitsAreCutOneByOne(s: string, n: nat)
    requires n <= |s| && forall k :: 0 <= k < n ==> IsDigit(s[k])
    ensures Cut(s) == n + Cut(s[n..])
  {
    if n > 0 {
      assert First(s) == (Plain, 1);
      DigitsAreCutOneByOne(s[1..], n - 1);
      assert s[1..][n - 1..] == s[n..];
    } else {
      assert s[0..] == s;
    }
  }

  // A placeholder is no unit to the splitter: it goes on with the character after the dollar sign.
  lemma ParamIsCutByChar(s: string)
    requires s != "" && First(s).0.Param?
    ensures Cut(s) == 1 + Cut(s[1..])
  {
    var n := First(s).1;
    DigitsStop(s, 1);
    DigitsAreCutOneByOne(s[1..], n - 1);
    assert s[1..][n - 1..] == s[n..];
  }

  // How far the splitter steps at the front of s.
  function Stride(s: string): (m: nat)
    requires s != ""
    ensures 1 <= m <= |s|
  {
    if First(s).0.Param? then 1 else First(s).1
  }

  lemma StrideCut(s: string)
    requires s != "" && !First(s).0.Semi?
    ensures Cut(s) == Stride(s) + Cut(s[Stride(s)..])
  {
    if First(s).0.Param? {
      ParamIsCutByChar(s);
    }
  }

  lemma CutMovesOn(script: string, i: nat, j: nat)
    requires i < j <= |script| && !First(script[i..]).0.Semi? && j - i == Stride(script[i..])
    ensures Cut(script[i..]) == j - i + Cut(script[j..])
  {
    StrideCut(script[i..]);
    SuffixSuffix(script, i, j);
  }

  lemma PieceEnds(s: string, head: string, after: string)
    requires Cut(s) < |s| && head == s[..Cut(s)] && after == s[Cut(s) + 1..]
    ensures Split(s) == Emit(head) + Split(after)
  {
    var chunks := Chunks(after);
    assert Chunks(s) == [head] + chunks by { assert AfterCut(s) == after; }
    EmitFirst(head, chunks);
  }

  lemma LastPiece(s: string)
    requires Cut(s) == |s|
    ensures Split(s) == Emit(s)
  {
    SplitAtCut(s);
    assert s[..|s|] == s;
  }

  // Adds the piece of a chunk to those before it; a blank one is dropped.
  method Add(done: seq<string>, current: string) returns (statements: seq<string>)
    ensures statements == done + Emit(current)
  {
    statements := done;
    var trimmed := Trim(current);
    if trimmed != "" {
      statements := statements + [trimmed];
    }
  }

  method EndPiece(script: string, ghost start: nat, i: nat, current: string, done: seq<string>)
    returns (statements: seq<string>)
    requires start <= i < |script| && Cut(script[start..]) == i - start && current == script[start..i]
    ensures done + Split(script[start..]) == statements + Split(script[i + 1..])
  {
    SuffixSuffix(script, start, i);
    SuffixSuffix(script, start, i + 1);
    assert Cut(script[start..]) + 1 == i + 1 - start;
    PieceEnds(script[start..], current, script[i + 1..]);
    statements := Add(done, current);
    Regroup(done, Emit(current), Split(script[i + 1..]));
  }

  method EndLastPiece(script: string, ghost start: nat, current: string, done: seq<string>)
    returns (statements: seq<string>)
    requires start <= |script| && Cut(script[start..]) == |script| - start && current == script[start..|script|]
    ensures statements == done + Split(script[start..])
  {
    assert current == script[start..];
    LastPiece(current);
    statements := Add(done, current);
  }

  lemma SliceGrows(s: string, start: nat, i: nat, j: nat)
    requires start <= i <= j <= |s|
    ensures s[start..i] + s[i..j] == s[start..j] && s[i..i] == ""
  {
  }

  lemma MoveOn(script: string, start: nat, i: nat, kind: Kind, j: nat, next: nat)
    requires start <= i < j <= |script| && First(script[i..]) == (kind, j - i) && !kind.Semi?
    requires next == if kind.Param? then i + 1 else j
    requires Cut(script[start..]) == i - start + Cut(script[i..])
    ensures Cut(script[start..]) == next - start + Cut(script[next..])
    ensures script[start..i] + script[i..next] == script[start..next]
  {
    CutMovesOn(script, i, next);
    SliceGrows(script, start, i, next);
  }

  // Up to i, the pieces before `start` are out and the current one is being collected.
  ghost predicate Splitting(script: string, start: nat, i: nat, current: string, statements: seq<string>) {
    && start <= i <= |script| && current == script[start..i]
    && Cut(script[start..]) == i - start + Cut(script[i..])
    && statements + Split(script[start..]) == Split(script)
  }

  lemma AfterSemicolon(script: string, start: nat, i: nat, current: string, before: seq<string>,
                       statements: seq<string>)
    requires Splitting(script, start, i, current, before) && i < |script|
    requires before + Split(script[start..]) == statements + Split(script[i + 1..])
    ensures Splitting(script, i + 1, i + 1, "", statements)
  {
    SliceGrows(script, i + 1, i + 1, i + 1);
  }

  lemma AfterUnit(script: string, start: nat, i: nat, current: string, statements: seq<string>, kind: Kind,
                  j: nat, next: nat)
    requires Splitting(script, start, i, current, statements)
    requires i < j <= |script| && First(script[i..]) == (kind, j - i) && !kind.Semi?
    requires next == if kind.Param? then i + 1 else j
    ensures next <= |script| && Splitting(script, start, next, current + script[i..next], statements)
  {
    MoveOn(script, start, i, kind, j, next);
  }

  method SplitStatements(script: string) returns (statements: seq<string>)
    ensures statements == Split(script)
  {
    var current, i := "", 0;
    ghost var start := 0;
    statements := [];
    while i < |script|
      invariant Splitting(script, start, i, current, statements)
    {
      var kind, j := Scan(script, i);
      if kind.Semi? {
        ghost var before := statements;
        statements := EndPiece(script, start, i, current, statements);
        AfterSemicolon(script, start, i, current, before, statements);
        current, i, start := "", i + 1, i + 1;
      } else {
        var next := if kind.Param? then i + 1 else j;
        AfterUnit(script, start, i, current, statements, kind, j, next);
        current, i := current + script[i..next], next;
      }
    }
    statements := EndLastPiece(script, start, current, statements);
  }

  // ---------- Pieces ----------

  // No semicolon outside quoted text and comments; if sealed, no quoted text or comment lacks its end.
  predicate Within(s: string, sealed: bool) {
    s == "" ||
    var (kind, n) := First(s);
    !kind.Semi? && (sealed ==> !IsOpen(kind)) && Within(s[n..], sealed)
  }

  predicate Trimmed(s: string) {
    s != "" && !IsSpace(s[0]) && !IsSpace(s[|s| - 1])
  }

  lemma WithinOfConcat(a: string, b: string, kind: Kind, sealed: bool)
    requires a + b != "" && First(a + b) == (kind, |a|) && !kind.Semi?
    requires (sealed ==> !IsOpen(kind)) && Within(b, sealed)
    ensures Within(a + b, sealed)
  {
    assert (a + b)[|a|..] == b;
  }

  lemma {:induction false} CutIsWithin(s: string)
    ensures Within(s[..Cut(s)], Cut(s) < |s|) && (Cut(s) < |s| ==> s[Cut(s)] == ';')
  {
    if s != "" && !First(s).0.Semi? {
      var (kind, n) := First(s);
      var rest := s[n..];
      var front := rest[..Cut(rest)];
      CutIsWithin(rest);
      FirstFits(s);
      FitsPrefix(s, Cut(rest));
      Relex(s, front);
      WithinOfConcat(s[..n], front, kind, Cut(rest) < |rest|);
      assert s[..Cut(s)] == s[..n] + front;
    }
  }

  lemma {:induction false} TrimLeftStaysWithin(s: string, sealed: bool)
    requires Within(s, sealed)
    ensures Within(TrimLeft(s), sealed) && (TrimLeft(s) != "" ==> !IsSpace(TrimLeft(s)[0]))
  {
    if s != "" && IsSpace(s[0]) {
      assert First(s) == (Plain, 1);
      TrimLeftStaysWithin(s[1..], sealed);
    }
  }

  // Without its last character, a space, the text has the same units, the last one shorter or gone.
  lemma {:induction false} DropLastSpace(s: string, sealed: bool)
    requires s != "" && Within(s, sealed) && IsSpace(s[|s| - 1])
    ensures Within(s[..|s| - 1], sealed)
  {
    var (kind, n) := First(s);
    var shorter := s[..|s| - 1];
    if n == |s| {
      LastUnitShrinks(s);
    } else {
      var rest := s[n..];
      var less := rest[..|rest| - 1];
      FirstFits(s);
      DropLastSpace(rest, sealed);
      assert shorter == s[..n] + less;
      Relex(s, less);
      assert shorter[n..] == less;
    }
  }

  lemma LastUnitShrinks(s: string)
    requires s != "" && First(s).1 == |s| && IsSpace(s[|s| - 1])
    ensures var shorter := s[..|s| - 1];
            shorter == "" || First(shorter) == (First(s).0, |shorter|)
  {
    var (kind, n) := First(s);
    var shorter := s[..|s| - 1];
    match kind
    case Quoted(closed) => QuoteShrinks(s, s[0], 1);
    case Line => LineShrinks(s, 2);
    case Block(closed) => BlockShrinks(s, 2);
    case Param => DigitsStop(s, 1);
    case _ =>
  }

  lemma {:induction false} QuoteShrinks(s: string, quote: char, j: nat)
    requires 1 <= j <= |s| && IsQuote(quote) && s[0] == quote && IsSpace(s[|s| - 1]) && QuoteEnd(s, quote, j).1 == |s|
    ensures !QuoteEnd(s, quote, j).0 && QuoteEnd(s[..|s| - 1], quote, if j == |s| then j - 1 else j) == (false, |s| - 1)
    decreases |s| - j
  {
    if j < |s| {
      if s[j] != quote {
        QuoteShrinks(s, quote, j + 1);
      } else if j + 1 < |s| && s[j + 1] == quote {
        QuoteShrinks(s, quote, j + 2);
      }
    }
  }

  lemma {:induction false} LineShrinks(s: string, j: nat)
    requires j <= |s| && LineEnd(s, j) == |s|
    ensures j < |s| ==> LineEnd(s[..|s| - 1], j) == |s| - 1
    decreases |s| - j
  {
    if j + 1 < |s| {
      LineShrinks(s, j + 1);
    }
  }

  lemma {:induction false} BlockShrinks(s: string, j: nat)
    requires j <= |s| && s != "" && IsSpace(s[|s| - 1]) && BlockEnd(s, j).1 == |s|
    ensures !BlockEnd(s, j).0
    ensures j < |s| ==> BlockEnd(s[..|s| - 1], j) == (false, |s| - 1)
    decreases |s| - j
  {
    if j + 2 <= |s| && !(s[j] == '*' && s[j + 1] == '/') {
      BlockShrinks(s, j + 1);
    }
  }

  lemma {:induction false} TrimRightStaysWithin(s: string, sealed: bool)
    requires Within(s, sealed)
    ensures Within(TrimRight(s), sealed) && TrimRight(s) <= s
    ensures TrimRight(s) != "" ==> !IsSpace(TrimRight(s)[|TrimRight(s)| - 1])
  {
    if s != "" && IsSpace(s[|s| - 1]) {
      DropLastSpace(s, sealed);
      TrimRightStaysWithin(s[..|s| - 1], sealed);
    }
  }

  lemma TrimStaysWithin(s: string, sealed: bool)
    requires Within(s, sealed)
    ensures Within(Trim(s), sealed) && (Trim(s) != "" ==> Trimmed(Trim(s)))
  {
    TrimLeftStaysWithin(s, sealed);
    TrimRightStaysWithin(TrimLeft(s), sealed);
  }

  lemma FirstPieceIsWithin(s: string, k: nat)
    requires k < |Emit(s[..Cut(s)])|
    ensures var piece := Emit(s[..Cut(s)])[k];
            Trimmed(piece) && Within(piece, Cut(s) < |s|) && Within(piece, false)
  {
    var c := Cut(s);
    CutIsWithin(s);
    TrimStaysWithin(s[..c], c < |s|);
    WithinIsWeaker(Trim(s[..c]), c < |s|);
  }

  // Every piece is trimmed, not empty, and holds no bare semicolon; only the last one may end inside a
  // quoted text or a comment.
  lemma {:induction false} PiecesAreWithin(s: string, k: nat)
    requires k < |Split(s)|
    ensures Trimmed(Split(s)[k]) && Within(Split(s)[k], k < |Split(s)| - 1)
    decreases |s|
  {
    var head, rest := Emit(s[..Cut(s)]), AfterCut(s);
    SplitAtCut(s);
    assert Split(s) == head + if Cut(s) == |s| then [] else Split(rest);
    if k < |head| {
      assert Split(s)[k] == head[k];
      FirstPieceIsWithin(s, k);
    } else {
      assert Split(s)[k] == Split(rest)[k - |head|];
      PiecesAreWithin(rest, k - |head|);
    }
  }

  lemma {:induction false} WithinIsWeaker(s: string, sealed: bool)
    requires Within(s, sealed)
    ensures Within(s, false)
  {
    if s != "" {
      WithinIsWeaker(s[First(s).1..], sealed);
    }
  }

  lemma {:induction false} WithinIsNotCut(s: string, sealed: bool)
    requires Within(s, sealed)
    ensures Cut(s) == |s|
  {
    if s != "" {
      WithinIsNotCut(s[First(s).1..], sealed);
    }
  }

  lemma TrimOfTrimmed(s: string)
    requires Trimmed(s)
    ensures Trim(s) == s && Emit(s) == [s]
  {
  }

  // Splitting a piece gives the piece.
  lemma PieceIsStable(s: string, k: nat)
    requires k < |Split(s)|
    ensures Split(Split(s)[k]) == [Split(s)[k]]
  {
    var piece := Split(s)[k];
    PiecesAreWithin(s, k);
    WithinIsNotCut(piece, k < |Split(s)| - 1);
    assert piece[..|piece|] == piece;
    SplitAtCut(piece);
    TrimOfTrimmed(piece);
  }

  // ---------- Joining the pieces again ----------

  function Join(pieces: seq<string>): string {
    if pieces == [] then ""
    else if |pieces| == 1 then pieces[0]
    else pieces[0] + "\n;\n" + Join(pieces[1..])
  }

  // A line feed after a sealed text leaves its units as they are.
  lemma {:induction false} LineFeedSeals(s: string, rest: string)
    requires Within(s, true) && rest != "" && rest[0] == '\n'
    ensures Cut(s + rest) == |s| + Cut(rest)
  {
    if s == "" {
      assert "" + rest == rest;
    } else {
      var (kind, n) := First(s);
      var tail := s[n..];
      FirstFits(s);
      LineFeedSeals(tail, rest);
      assert s + rest == s[..n] + (tail + rest);
      Relex(s, tail + rest);
      assert (s + rest)[n..] == tail + rest;
    }
  }

  lemma TrimRightLineFeed(s: string)
    ensures TrimRight(s + "\n") == TrimRight(s)
  {
    assert (s + "\n")[..|s|] == s;
  }

  lemma EmitIgnoresLineFeed(s: string)
    ensures Emit("\n" + s) == Emit(s)
    ensures Trimmed(s) ==> Emit(s + "\n") == [s]
  {
    assert ("\n" + s)[1..] == s;
    if Trimmed(s) {
      TrimRightLineFeed(s);
      TrimOfTrimmed(s);
    }
  }

  lemma SplitIgnoresLineFeed(s: string)
    ensures Split("\n" + s) == Split(s)
  {
    var longer := "\n" + s;
    var c := Cut(s);
    assert First(longer) == (Plain, 1) && longer[1..] == s;
    assert Cut(longer) == c + 1;
    assert longer[..c + 1] == "\n" + s[..c];
    EmitIgnoresLineFeed(s[..c]);
    SplitAtCut(s);
    SplitAtCut(longer);
    if c < |s| {
      assert longer[c + 2..] == s[c + 1..];
    }
  }

  lemma CutAtSeparator(rest: string)
    ensures Cut("\n;\n" + rest) == 1
  {
    var tail := "\n;\n" + rest;
    assert First(tail) == (Plain, 1) && First(tail[1..]) == (Semi, 1);
  }

  lemma SeparatorSlices(piece: string, rest: string)
    ensures var s := piece + ("\n;\n" + rest);
            s[..|piece| + 1] == piece + "\n" && s[|piece| + 1 + 1..] == "\n" + rest
  {
  }

  lemma CutAfterPiece(piece: string, rest: string)
    requires Within(piece, true)
    ensures var s := piece + ("\n;\n" + rest);
            Cut(s) == |piece| + 1 && s[..Cut(s)] == piece + "\n" && AfterCut(s) == "\n" + rest
  {
    CutAtSeparator(rest);
    LineFeedSeals(piece, "\n;\n" + rest);
    SeparatorSlices(piece, rest);
  }

  lemma SplitOffPiece(piece: string, rest: string)
    requires Trimmed(piece) && Within(piece, true)
    ensures Split(piece + "\n;\n" + rest) == [piece] + Split(rest)
  {
    var s := piece + ("\n;\n" + rest);
    assert piece + "\n;\n" + rest == s;
    CutAfterPiece(piece, rest);
    PieceEnds(s, piece + "\n", "\n" + rest);
    assert Emit(piece + "\n") == [piece] by { EmitIgnoresLineFeed(piece); }
    assert Split("\n" + rest) == Split(rest) by { SplitIgnoresLineFeed(rest); }
  }

  // Pieces of the shape that splitting produces come back from the joined script.
  lemma {:induction false} JoinedPiecesComeBack(pieces: seq<string>)
    requires forall k :: 0 <= k < |pieces| ==> Trimmed(pieces[k]) && Within(pieces[k], k < |pieces| - 1)
    ensures Split(Join(pieces)) == pieces
  {
    if pieces == [] {
      SplitAtCut("");
    } else if |pieces| == 1 {
      WithinIsNotCut(pieces[0], false);
      assert pieces[0][..|pieces[0]|] == pieces[0];
      SplitAtCut(pieces[0]);
      TrimOfTrimmed(pieces[0]);
    } else {
      forall k | 0 <= k < |pieces[1..]|
        ensures Trimmed(pieces[1..][k]) && Within(pieces[1..][k], k < |pieces[1..]| - 1)
      {
        assert pieces[1..][k] == pieces[k + 1];
      }
      JoinedPiecesComeBack(pieces[1..]);
      SplitOffPiece(pieces[0], Join(pieces[1..]));
    }
  }

  // Splitting the pieces joined by semicolons on lines of their own returns the same pieces.
  lemma SplittingIsStable(s: string)
    ensures Split(Join(Split(s))) == Split(s)
  {
    forall k | 0 <= k < |Split(s)|
      ensures Trimmed(Split(s)[k]) && Within(Split(s)[k], k < |Split(s)| - 1)
    {
      PiecesAreWithin(s, k);
    }
    JoinedPiecesComeBack(Split(s));
  }

  // ---------- Both scanners together ----------

  predicate AllSpace(s: string) {
    forall k :: 0 <= k < |s| ==> IsSpace(s[k])
  }

  lemma {:induction false} TrimLeftIsEmptyIff(s: string)
    ensures TrimLeft(s) == "" <==> AllSpace(s)
  {
    if s != "" && IsSpace(s[0]) {
      TrimLeftIsEmptyIff(s[1..]);
      assert AllSpace(s[1..]) ==> AllSpace(s) by {
        assert forall k :: 0 < k < |s| ==> s[k] == s[1..][k - 1];
      }
    }
  }

  lemma {:induction false} TrimRightIsEmptyIff(s: string)
    ensures TrimRight(s) == "" <==> AllSpace(s)
  {
    if s != "" && IsSpace(s[|s| - 1]) {
      TrimRightIsEmptyIff(s[..|s| - 1]);
    }
  }

  lemma {:induction false} TrimLeftKeepsBlank(s: string)
    ensures AllSpace(TrimLeft(s)) <==> AllSpace(s)
  {
    TrimLeftIsEmptyIff(s);
    if s != "" && IsSpace(s[0]) {
      TrimLeftKeepsBlank(s[1..]);
      TrimLeftIsEmptyIff(s[1..]);
    }
  }

  lemma TrimIsEmptyIff(s: string)
    ensures Trim(s) == "" <==> AllSpace(s)
  {
    TrimRightIsEmptyIff(TrimLeft(s));
    TrimLeftKeepsBlank(s);
  }

  lemma AllSpaceConcat(a: string, b: string)
    ensures AllSpace(a + b) <==> AllSpace(a) && AllSpace(b)
  {
    assert forall k :: 0 <= k < |b| ==> (a + b)[|a| + k] == b[k];
    assert forall k :: 0 <= k < |a| ==> (a + b)[k] == a[k];
  }

  lemma {:induction false} RewritingKeepsBlank(s: string)
    ensures AllSpace(Anonymous(s)) <==> AllSpace(s)
  {
    if s != "" {
      var (kind, n) := First(s);
      var head := if kind.Param? then "?" else s[..n];
      RewritingKeepsBlank(s[n..]);
      AllSpaceConcat(head, Anonymous(s[n..]));
      AllSpaceConcat(s[..n], s[n..]);
      assert s == s[..n] + s[n..];
      if kind.Param? {
        assert !AllSpace("?") by { assert !IsSpace("?"[0]); }
        assert !AllSpace(s[..n]) by { assert !IsSpace(s[..n][0]); }
      }
    }
  }

  // The rewriting goes through the cut: what stands before the semicolon and what stands after it are
  // rewritten separately.
  lemma {:induction false} RewritingKeepsCut(s: string)
    ensures var query := Anonymous(s);
            && query[..Cut(query)] == Anonymous(s[..Cut(s)])
            && (Cut(s) == |s| <==> Cut(query) == |query|)
            && AfterCut(query) == Anonymous(AfterCut(s))
  {
    if s != "" {
      AnonymousFirst(s);
      if First(s).0.Semi? {
        assert s[..1] == ";" && Anonymous(s) == ";" + Anonymous(s[1..]);
      } else {
        RewritingKeepsCut(s[First(s).1..]);
        BeforeTheCut(s);
        CutGoesOn(s);
        CutGoesOn(Anonymous(s));
        RewrittenTail(s);
      }
    }
  }

  lemma TakeDrop(s: string, n: nat, m: nat)
    requires n + m <= |s|
    ensures s[..n + m] == s[..n] + s[n..][..m]
    ensures s[n + m..] == s[n..][m..]
  {
  }

  // A unit that is no semicolon moves the cut along.
  lemma CutGoesOn(s: string)
    requires s != "" && !First(s).0.Semi?
    ensures var n := First(s).1; var rest := s[n..];
            && s[..Cut(s)] == s[..n] + rest[..Cut(rest)]
            && (Cut(s) == |s| <==> Cut(rest) == |rest|)
            && AfterCut(s) == AfterCut(rest)
  {
    var n := First(s).1;
    var rest := s[n..];
    var m := Cut(rest);
    assert Cut(s) == n + m;
    TakeDrop(s, n, m);
    if m < |rest| {
      TakeDrop(s, n, m + 1);
    }
  }

  lemma RewrittenTail(s: string)
    requires s != ""
    ensures var (kind, n) := First(s);
            && Anonymous(s) != ""
            && Anonymous(s)[First(Anonymous(s)).1..] == Anonymous(s[n..])
            && Anonymous(s)[..First(Anonymous(s)).1] == if kind.Param? then "?" else s[..n]
  {
    AnonymousFirst(s);
  }

  lemma AnonymousOfConcat(a: string, b: string, kind: Kind)
    requires a + b != "" && First(a + b) == (kind, |a|)
    ensures Anonymous(a + b) == (if kind.Param? then "?" else a) + Anonymous(b)
  {
    assert (a + b)[|a|..] == b && (a + b)[..|a|] == a;
  }

  lemma BeforeTheCut(s: string)
    requires s != "" && !First(s).0.Semi?
    ensures var (kind, n) := First(s);
            Anonymous(s[..Cut(s)]) == (if kind.Param? then "?" else s[..n]) + Anonymous(s[n..][..Cut(s[n..])])
  {
    var (kind, n) := First(s);
    var front := s[n..][..Cut(s[n..])];
    FirstFits(s);
    FitsPrefix(s, Cut(s[n..]));
    Relex(s, front);
    AnonymousOfConcat(s[..n], front, kind);
    assert s[..Cut(s)] == s[..n] + front;
  }

  // A unit fits any prefix of what follows it.
  lemma FitsPrefix(s: string, c: nat)
    requires s != "" && c <= |s| - First(s).1
    ensures var (kind, n) := First(s); Fits(kind, s[..n], s[n..][..c])
  {
    FirstFits(s);
  }

  // Rewriting the placeholders leaves the number of statements as it is.
  lemma {:induction false} RewritingKeepsStatements(s: string)
    ensures |Split(Anonymous(s))| == |Split(s)|
    decreases |s|
  {
    var c := Cut(s);
    RewritingKeepsCut(s);
    TrimIsEmptyIff(s[..c]);
    TrimIsEmptyIff(Anonymous(s[..c]));
    RewritingKeepsBlank(s[..c]);
    SplitAtCut(s);
    SplitAtCut(Anonymous(s));
    if c < |s| {
      RewritingKeepsStatements(AfterCut(s));
    }
  }

  // ---------- The statements of a written script ----------

  const SPACES := "\t\U{B}\U{C}\n\r \U{A0}\U{1680}\U{2000}\U{2001}\U{2002}\U{2003}\U{2004}\U{2005}\U{2006}"
                  + "\U{2007}\U{2008}\U{2009}\U{200A}\U{2028}\U{2029}\U{202F}\U{205F}\U{3000}\U{FEFF}"

  lemma SpacesAreListed(c: char)
    ensures IsSpace(c) <==> c in SPACES
  {
  }

  // Without the spaces around it, a chunk is its statement; a blank one gives none.
  lemma EmitIs(before: string, piece: string, after: string)
    requires AllSpace(before) && AllSpace(after) && (piece == "" || Trimmed(piece))
    ensures Emit(before + piece + after) == if piece == "" then [] else [piece]
  {
    var s := before + piece + after;
    if piece == "" {
      AllSpaceConcat(before, piece + after);
      assert s == before + (piece + after) && piece + after == after;
      TrimIsEmptyIff(s);
    } else {
      assert s == before + (piece + after);
      TrimLeftDrops(before, piece + after);
      TrimRightDrops(piece, after);
    }
  }

  lemma {:induction false} TrimLeftDrops(before: string, s: string)
    requires AllSpace(before) && s != "" && !IsSpace(s[0])
    ensures TrimLeft(before + s) == s
  {
    if before == "" {
      assert before + s == s;
    } else {
      assert (before + s)[1..] == before[1..] + s;
      TrimLeftDrops(before[1..], s);
    }
  }

  lemma {:induction false} TrimRightDrops(s: string, after: string)
    requires AllSpace(after) && s != "" && !IsSpace(s[|s| - 1])
    ensures TrimRight(s + after) == s
  {
    if after == "" {
      assert s + after == s;
    } else {
      var shorter := after[..|after| - 1];
      assert (s + after)[..|s + after| - 1] == s + shorter;
      TrimRightDrops(s, shorter);
    }
  }

  lemma PartIsNotCut(p: Part, rest: string)
    requires IsPart(p) && MayPrecede(p, rest) && !p.Semicolon?
    ensures Cut(TextOf(p) + rest) == |TextOf(p)| + Cut(rest)
  {
    PartIsFirst(p, rest);
    SplitOff(p, rest);
  }

  lemma SemicolonIsCut(back: seq<Part>)
    requires back == [] || back[0] == Semicolon
    ensures Cut(Written(back)) == 0
  {
    if back != [] {
      PartIsFirst(Semicolon, Written(back[1..]));
    }
  }

  lemma {:induction false} WrittenConcat(front: seq<Part>, back: seq<Part>)
    ensures Written(front + back) == Written(front) + Written(back)
  {
    if front == [] {
      assert front + back == back;
    } else {
      assert (front + back)[1..] == front[1..] + back;
      WrittenConcat(front[1..], back);
      Regroup(TextOf(front[0]), Written(front[1..]), Written(back));
    }
  }

  // The script is cut at the first semicolon that is a part of its own.
  lemma {:induction false} CutOfWritten(front: seq<Part>, back: seq<Part>)
    requires Readable(front + back) && Semicolon !in front && (back == [] || back[0] == Semicolon)
    ensures Cut(Written(front + back)) == |Written(front)|
  {
    if front == [] {
      assert front + back == back;
      SemicolonIsCut(back);
    } else {
      var p, tail := front[0], front[1..];
      assert (front + back)[1..] == tail + back;
      CutOfWritten(tail, back);
      PartIsNotCut(p, Written(tail + back));
    }
  }

  lemma SplitAround(s: string, head: string, tail: string)
    requires s == head + (";" + tail) && Cut(s) == |head|
    ensures Split(s) == Emit(head) + Split(tail)
  {
    assert s[..|head|] == head && s[|head| + 1..] == tail;
    PieceEnds(s, head, tail);
  }

  lemma WrittenAround(front: seq<Part>, rest: seq<Part>)
    requires Readable(front + ([Semicolon] + rest)) && Semicolon !in front
    ensures var s := Written(front + ([Semicolon] + rest));
            s == Written(front) + (";" + Written(rest)) && Cut(s) == |Written(front)|
  {
    CutOfWritten(front, [Semicolon] + rest);
    WrittenConcat(front, [Semicolon] + rest);
    assert ([Semicolon] + rest)[1..] == rest;
  }

  // What stands before the first such semicolon is one statement, and the rest is split by itself.
  lemma SplitOfWritten(front: seq<Part>, rest: seq<Part>)
    requires Readable(front + [Semicolon] + rest) && Semicolon !in front
    ensures Split(Written(front + [Semicolon] + rest)) == Emit(Written(front)) + Split(Written(rest))
  {
    assert front + [Semicolon] + rest == front + ([Semicolon] + rest);
    WrittenAround(front, rest);
    SplitAround(Written(front + ([Semicolon] + rest)), Written(front), Written(rest));
  }

  lemma SplitOfLast(front: seq<Part>)
    requires Readable(front) && Semicolon !in front
    ensures Split(Written(front)) == Emit(Written(front))
  {
    assert front + [] == front;
    CutOfWritten(front, []);
    LastPiece(Written(front));
  }

  datatype Refusal = ManyStatements | MissingValue

  // One query whose values are all there; the database gets what is meant exactly when no question mark
  // stands there on its own.
  ghost predicate IsSent<V>(parts: seq<Part>, values: seq<V>, q: Rewritten<V>)
    requires Readable(parts)
  {
    && IsProvided(parts, |values|)
    && (Other('?') !in parts <==> ByPosition(q.query, q.params) == Meant(parts, values))
  }

  lemma RewrittenIsSent<V>(parts: seq<Part>, values: seq<V>)
    requires Readable(parts) && AllProvided(Written(parts), |values|)
    ensures IsSent(parts, values, Rewritten(Anonymous(Written(parts)), Occurrences(Written(parts), values)))
  {
    ProvidedOfWritten(parts, |values|);
    BareMarksOfWritten(parts);
    BindingOfWritten(parts, values);
    RewritingKeepsBindingIff(Written(parts), values);
  }

  // What one call sends to the database: every query it sends is a single statement.
  method Run<V>(text: string, values: seq<V>) returns (refused: Option<Refusal>, sent: seq<Rewritten<V>>)
    ensures refused.None? ==> forall q :: q in sent ==> |Split(q.query)| <= 1
    ensures values == [] ==> refused.None? && |sent| == |Split(text)|
    ensures values == [] ==> forall k :: 0 <= k < |sent| ==> sent[k] == Rewritten(Split(text)[k], [])
    ensures values != [] ==>
              refused == if |Split(text)| > 1 then Some(ManyStatements)
                         else if AllProvided(text, |values|) then None else Some(MissingValue)
    ensures values != [] && refused.None? ==> |sent| == 1 && (NoBareMarks(text) <==>
              ByPosition(sent[0].query, sent[0].params) == ByNumber(text, values))
    ensures values != [] && refused.None? ==>
              forall parts :: Readable(parts) && Written(parts) == text ==> IsSent(parts, values, sent[0])
  {
    refused, sent := None, [];
    var statements := SplitStatements(text);
    if values != [] {
      if |statements| > 1 {
        return Some(ManyStatements), [];
      }
      var rewritten := RewritePlaceholders(text, values);
      if rewritten.None? {
        return Some(MissingValue), [];
      }
      RewritingKeepsStatements(text);
      RewritingKeepsBindingIff(text, values);
      forall parts | Readable(parts) && Written(parts) == text ensures IsSent(parts, values, rewritten.value) {
        RewrittenIsSent(parts, values);
      }
      return None, [rewritten.value];
    }
    for i := 0 to |statements|
      invariant |sent| == i && forall k :: 0 <= k < i ==> sent[k] == Rewritten(statements[k], [])
    {
      sent := sent + [Rewritten(statements[i], [])];
    }
    forall q | q in sent ensures |Split(q.query)| <= 1 {
      var k :| 0 <= k < |sent| && sent[k] == q;
      PieceIsStable(text, k);
    }
  }
}
