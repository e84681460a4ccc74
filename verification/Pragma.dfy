// Printing PRAGMA statements, and reading the printed text back.
module Pragmas {
  import opened Wrappers
  import opened Sqlite

  /** A value for a PRAGMA; of a float only the printed text is kept. */
  datatype Arg =
    | NullArg | IntegerArg(i: int) | RealArg(printed: string) | TextArg(s: string) | BlobArg(b: seq<bv8>)
    | FailingArg(error: Error)  // conversion failed, or the text is not valid UTF-8

  /** `PRAGMA schema.name`, `PRAGMA schema.name=value` or `PRAGMA schema.name(value)`. */
  datatype Form = Query | Assign(value: Arg) | Call(value: Arg)

  datatype Pragma = Pragma(schema: Option<string>, name: string, form: Form)

  // ---- Identifiers ----------------------------------------------------------

  predicate IsIdentifierStart(c: char) {
    'A' <= c <= 'Z' || c == '_' || 'a' <= c <= 'z' || c > '\U{7F}'
  }

  predicate IsDigit(c: char) {
    '0' <= c <= '9'
  }

  predicate IsIdentifierContinue(c: char) {
    c == '$' || IsDigit(c) || IsIdentifierStart(c)
  }

  predicate IsIdentifier(s: string) {
    forall i | 0 <= i < |s| :: if i == 0 then IsIdentifierStart(s[i]) else IsIdentifierContinue(s[i])
  }

  // ---- The printer ------------------------------------------------------------

  /** One character as it stands inside quotes. */
  function Quotable(c: char, quote: char): string {
    if c == quote then [quote, quote] else [c]
  }

  function Escaped(s: string, quote: char): string {
    if s == [] then []
    else Quotable(s[0], quote) + Escaped(s[1..], quote)
  }

  function Quoted(s: string, quote: char): string {
    [quote] + Escaped(s, quote) + [quote]
  }

  function IdentifierText(s: string): string {
    if IsIdentifier(s) then s else Quoted(s, '\"')
  }

  function NatText(n: nat): string {
    (if n < 10 then [] else NatText(n / 10)) + ['0' + (n % 10) as char]
  }

  function IntText(i: int): string {
    if i < 0 then "-" + NatText(-i) else NatText(i)
  }

  function ValueText(v: Arg): Result<string, Error> {
    match v
    case IntegerArg(i) => Success(IntText(i))
    case RealArg(printed) => Success(printed)
    case TextArg(s) => Success(Quoted(s, '\''))
    case FailingArg(error) => Failure(error)
    case _ => Failure(SqliteFailure(SQLITE_MISUSE))
  }

  function SchemaText(schema: Option<string>): string {
    if schema.Some? then IdentifierText(schema.value) + "." else ""
  }

  predicate IsKeyword(s: string) {
    s != [] && IsIdentifier(s)
  }

  function FormText(f: Form): Result<string, Error> {
    if f.Query? then Success("")
    else
      match ValueText(f.value)
      case Failure(err) => Failure(err)
      case Success(t) => Success(if f.Assign? then "=" + t else "(" + t + ")")
  }

  function PragmaText(p: Pragma): Result<string, Error> {
    if !IsKeyword(p.name) then Failure(SqliteFailure(SQLITE_MISUSE))
    else
      match FormText(p.form)
      case Failure(err) => Failure(err)
      case Success(t) => Success("PRAGMA" + " " + SchemaText(p.schema) + p.name + t)
  }

  lemma Associate(a: string, b: string, c: string)
    ensures a + b + c == a + (b + c)
  {
  }

  class Sql {
    var buf: string

    constructor ()
      ensures buf == ""
    {
      buf := "";
    }

    method WrapAndEscape(s: string, quote: char)
      modifies this
      ensures buf == old(buf) + Quoted(s, quote)
    {
      buf := buf + [quote];
      ghost var start := buf;
      for i := 0 to |s|
        invariant buf + Escaped(s[i..], quote) == start + Escaped(s, quote)
      {
        ghost var before := buf;
        if s[i] == quote {
          buf := buf + [s[i]];
        }
        buf := buf + [s[i]];
        assert buf == before + Quotable(s[i], quote);
        assert s[i..][0] == s[i] && s[i..][1..] == s[i + 1..];
        Associate(before, Quotable(s[i], quote), Escaped(s[i + 1..], quote));
      }
      assert buf == start + Escaped(s, quote);
      buf := buf + [quote];
    }

    method PushIdentifier(s: string)
      modifies this
      ensures buf == old(buf) + IdentifierText(s)
    {
      if IsIdentifier(s) {
        buf := buf + s;
      } else {
        WrapAndEscape(s, '\"');
      }
    }

    method PushKeyword(keyword: string) returns (err: Option<Error>)
      modifies this
      ensures err.None? <==> IsKeyword(keyword)
      ensures err.Some? ==> err.value == SqliteFailure(SQLITE_MISUSE)
      ensures buf == old(buf) + if IsKeyword(keyword) then keyword else ""
    {
      if keyword != [] && IsIdentifier(keyword) {
        buf := buf + keyword;
        return None;
      }
      return Some(SqliteFailure(SQLITE_MISUSE));
    }

    method PushPragma(schema: Option<string>, name: string) returns (err: Option<Error>)
      modifies this
      ensures err == if IsKeyword(name) then None else Some(SqliteFailure(SQLITE_MISUSE))
      ensures buf == old(buf) + "PRAGMA" + " " + SchemaText(schema) + if IsKeyword(name) then name else ""
    {
      err := PushKeyword("PRAGMA");
      buf := buf + " ";
      if schema.Some? {
        PushIdentifier(schema.value);
        buf := buf + ".";
      }
      err := PushKeyword(name);
    }

    method PushValue(v: Arg) returns (err: Option<Error>)
      modifies this
      ensures match ValueText(v)
              case Failure(e) => err == Some(e) && buf == old(buf)
              case Success(t) => err == None && buf == old(buf) + t
    {
      match v {
        case IntegerArg(i) => buf := buf + IntText(i);
        case RealArg(printed) => buf := buf + printed;
        case TextArg(s) => WrapAndEscape(s, '\'');
        case FailingArg(error) => return Some(error);
        case _ => return Some(SqliteFailure(SQLITE_MISUSE));
      }
      err := None;
    }
  }

  /** What the pragma methods of a connection append after the name. */
  method PushForm(sql: Sql, f: Form) returns (err: Option<Error>)
    modifies sql
    ensures match FormText(f)
            case Failure(e) => err == Some(e)
            case Success(t) => err == None && sql.buf == old(sql.buf) + t
  {
    ghost var head := sql.buf;
    match f
    case Query => return None;
    case Assign(v) =>
      sql.buf := sql.buf + "=";
      err := sql.PushValue(v);
      if err.None? {
        Associate(head, "=", ValueText(v).value);
      }
    case Call(v) =>
      sql.buf := sql.buf + "(";
      err := sql.PushValue(v);
      sql.buf := sql.buf + ")";
      if err.None? {
        Associate(head, "(", ValueText(v).value);
        Associate(head, "(" + ValueText(v).value, ")");
      }
  }

  /** The text each of the pragma methods of a connection builds. */
  method BuildPragma(p: Pragma) returns (r: Result<string, Error>)
    ensures r == PragmaText(p)
  {
    var sql := new Sql();
    var err := sql.PushPragma(p.schema, p.name);
    if err.Some? {
      return Failure(err.value);
    }
    ghost var head := "PRAGMA" + " " + SchemaText(p.schema) + p.name;
    assert sql.buf == head;
    err := PushForm(sql, p.form);
    r := if err.Some? then Failure(err.value) else Success(sql.buf);
  }

  // ---- SQLite's lexical rules for this fragment ----------------------------------

  datatype Token =
    | Word(text: string)
    | Name(text: string)   // "..."
    | Str(text: string)    // '...'
    | Number(n: nat)
    | Minus | Dot | Equals | Open | Close
    | Illegal              // anything outside the fragment; nothing after it is read

  const BOM: char := '\U{FEFF}'

  /** A byte order mark where a token could start counts as a space. */
  predicate IsSpace(c: char) {
    c == ' ' || c == '\t' || c == '\n' || c == '\r' || c as int == 12 || c == BOM
  }

  /** The length of the longest prefix of identifier characters. */
  function WordLength(s: string): (n: nat)
    ensures n <= |s|
  {
    if s == [] || !IsIdentifierContinue(s[0]) then 0 else 1 + WordLength(s[1..])
  }

  function DigitsLength(s: string): (n: nat)
    ensures n <= |s|
  {
    if s == [] || !IsDigit(s[0]) then 0 else 1 + DigitsLength(s[1..])
  }

  function NatValue(digits: string): nat {
    if digits == [] then 0
    else
      var c := digits[|digits| - 1];
      10 * NatValue(digits[..|digits| - 1]) + if IsDigit(c) then (c - '0') as int else 0
  }

  /** The contents up to the closing quote, a doubled quote standing for one, and the length read. */
  function Unquoted(s: string, quote: char): (r: Option<(string, nat)>)
    ensures r.Some? ==> r.value.1 <= |s| && '\0' !in r.value.0
  {
    if s == [] || s[0] == '\0' then None
    else if s[0] == quote then
      if |s| > 1 && s[1] == quote then
        match Unquoted(s[2..], quote)
        case None => None
        case Some((t, n)) => Some(([quote] + t, n + 2))
      else Some(("", 1))
    else
      match Unquoted(s[1..], quote)
      case None => None
      case Some((t, n)) => Some(([s[0]] + t, n + 1))
  }

  /** The token at the start of `s`, if it is not a space, and how much of `s` it takes. */
  function Lex(s: string): (r: (Option<Token>, nat))
    requires s != []
    ensures 0 < r.1 <= |s|
  {
    if IsSpace(s[0]) then (None, 1)
    else if IsIdentifierStart(s[0]) then
      var n := WordLength(s);
      // x'...' is a blob literal
      if n == 1 && (s[0] == 'x' || s[0] == 'X') && |s| > 1 && s[1] == '\'' then (Some(Illegal), |s|)
      else (Some(Word(s[..n])), n)
    else if IsDigit(s[0]) then
      var n := DigitsLength(s);
      if n < |s| && (IsIdentifierContinue(s[n]) || s[n] == '.') then (Some(Illegal), |s|)
      else (Some(Number(NatValue(s[..n]))), n)
    else if s[0] == '\"' || s[0] == '\'' then
      match Unquoted(s[1..], s[0])
      case None => (Some(Illegal), |s|)
      case Some((t, n)) => (Some(if s[0] == '\"' then Name(t) else Str(t)), 1 + n)
    else if s[0] == '.' then
      if |s| > 1 && IsDigit(s[1]) then (Some(Illegal), |s|) else (Some(Dot), 1)
    else if s[0] == '=' then (Some(Equals), if |s| > 1 && s[1] == '=' then 2 else 1)
    else if s[0] == '-' then
      if |s| > 1 && (s[1] == '-' || s[1] == '>') then (Some(Illegal), |s|) else (Some(Minus), 1)
    else if s[0] == '(' then (Some(Open), 1)
    else if s[0] == ')' then (Some(Close), 1)
    else (Some(Illegal), |s|)
  }

  /** A NUL outside quotes ends the text. */
  function Tokenize(s: string): seq<Token>
    decreases |s|
  {
    if s == [] || s[0] == '\0' then []
    else
      var (t, n) := Lex(s);
      (if t.Some? then [t.value] else []) + Tokenize(s[n..])
  }

  // ---- Reading tokens back ---------------------------------------------------------

  function Ident(t: Token): Option<string> {
    match t
    case Word(s) => Some(s)
    case Name(s) => Some(s)
    case _ => None
  }

  function ReadValue(ts: seq<Token>): Option<Arg> {
    if |ts| == 1 && ts[0].Number? then Some(IntegerArg(ts[0].n))
    else if |ts| == 2 && ts[0].Minus? && ts[1].Number? then Some(IntegerArg(0 - (ts[1].n as int)))
    else if |ts| == 1 && ts[0].Str? then Some(TextArg(ts[0].text))
    else None
  }

  function ReadForm(ts: seq<Token>): Option<Form> {
    if ts == [] then Some(Query)
    else if ts[0] == Equals then
      match ReadValue(ts[1..])
      case None => None
      case Some(v) => Some(Assign(v))
    else if ts[0] == Open && |ts| > 1 && ts[|ts| - 1] == Close then
      match ReadValue(ts[1..|ts| - 1])
      case None => None
      case Some(v) => Some(Call(v))
    else None
  }

  function ReadNamed(schema: Option<string>, ts: seq<Token>): Option<Pragma> {
    if ts == [] || Ident(ts[0]).None? then None
    else
      match ReadForm(ts[1..])
      case None => None
      case Some(f) => Some(Pragma(schema, Ident(ts[0]).value, f))
  }

  function Read(ts: seq<Token>): Option<Pragma> {
    if ts == [] || ts[0] != Word("PRAGMA") then None
    else if |ts| > 2 && Ident(ts[1]).Some? && ts[2] == Dot then ReadNamed(Ident(ts[1]), ts[3..])
    else ReadNamed(None, ts[1..])
  }

  // ---- The pieces --------------------------------------------------------------------

  predicate NoNul(s: string) {
    '\0' !in s
  }

  /** What may follow a bare word without becoming part of it. */
  predicate EndsWord(rest: string) {
    rest == [] || (!IsIdentifierContinue(rest[0]) && rest[0] != '\'')
  }

  lemma {:induction false} WordLengthIs(w: string, rest: string)
    requires forall i | 0 <= i < |w| :: IsIdentifierContinue(w[i])
    requires EndsWord(rest)
    ensures WordLength(w + rest) == |w|
  {
    if w == [] {
      assert w + rest == rest;
    } else {
      assert (w + rest)[1..] == w[1..] + rest;
      WordLengthIs(w[1..], rest);
    }
  }

  /** A text is read as these tokens when `rest` follows it. */
  ghost predicate Reads(text: string, tokens: seq<Token>, rest: string) {
    Tokenize(text + rest) == tokens + Tokenize(rest)
  }

  /** Reading on after a token that is lexed off the front. */
  lemma TokenThen(head: string, t: Token, rest: string)
    requires head != [] && head[0] != '\0' && Lex(head + rest) == (Some(t), |head|)
    ensures Tokenize(head + rest) == [t] + Tokenize(rest)
    ensures Reads(head, [t], rest)
  {
    assert (head + rest)[|head|..] == rest;
  }

  lemma NothingAfterIllegal(s: string)
    requires s != [] && s[0] != '\0' && Lex(s) == (Some(Illegal), |s|)
    ensures Tokenize(s) == [Illegal]
  {
    assert Tokenize(s[|s|..]) == [];
  }

  lemma WordToken(w: string, rest: string)
    requires IsKeyword(w) && w[0] != BOM && EndsWord(rest)
    ensures Tokenize(w + rest) == [Word(w)] + Tokenize(rest)
  {
    WordLengthIs(w, rest);
    assert (w + rest)[..|w|] == w && (w + rest)[0] == w[0];
    assert |w| == 1 && rest != [] ==> (w + rest)[1] == rest[0];
    TokenThen(w, Word(w), rest);
  }

  lemma Regroup(a: string, b: string, c: string, d: string)
    ensures a + b + c + d == a + (b + c + d)
  {
  }

  lemma EscapedNext(s: string, quote: char, rest: string)
    requires s != []
    ensures Escaped(s, quote) + [quote] + rest == Quotable(s[0], quote) + (Escaped(s[1..], quote) + [quote] + rest)
    ensures |Escaped(s, quote)| == |Quotable(s[0], quote)| + |Escaped(s[1..], quote)|
  {
    Regroup(Quotable(s[0], quote), Escaped(s[1..], quote), [quote], rest);
  }

  lemma NoNulNext(s: string)
    requires s != []
    ensures NoNul(s) <==> s[0] != '\0' && NoNul(s[1..])
  {
    assert s == [s[0]] + s[1..];
  }

  lemma {:induction false} UnquotedEscaped(s: string, quote: char, rest: string)
    requires quote != '\0' && (rest == [] || rest[0] != quote)
    ensures Unquoted(Escaped(s, quote) + [quote] + rest, quote)
         == if NoNul(s) then Some((s, |Escaped(s, quote)| + 1)) else None
  {
    if s == [] {
      assert Escaped(s, quote) + [quote] + rest == [quote] + rest;
    } else {
      var more := Escaped(s[1..], quote) + [quote] + rest;
      EscapedNext(s, quote, rest);
      UnquotedNext(s[0], quote, more);
      UnquotedEscaped(s[1..], quote, rest);
      NoNulNext(s);
      assert s == [s[0]] + s[1..];
    }
  }

  /** Reading one character of quoted text. */
  lemma UnquotedNext(c: char, quote: char, more: string)
    requires quote != '\0'
    ensures Unquoted(Quotable(c, quote) + more, quote)
         == match Unquoted(more, quote)
            case None => None
            case Some((t, n)) => if c == '\0' then None else Some(([c] + t, n + |Quotable(c, quote)|))
  {
    var first := Quotable(c, quote);
    assert (first + more)[|first|..] == more;
  }

  lemma LexQuote(s: string)
    requires s != [] && (s[0] == '\"' || s[0] == '\'')
    ensures Lex(s)
         == match Unquoted(s[1..], s[0])
            case None => (Some(Illegal), |s|)
            case Some((t, n)) => (Some(if s[0] == '\"' then Name(t) else Str(t)), 1 + n)
  {
  }

  lemma QuotedLex(s: string, quote: char, rest: string)
    requires quote == '\"' || quote == '\''
    requires rest == [] || rest[0] != quote
    ensures var head := Quoted(s, quote);
      head != [] && head[0] == quote && head + rest != [] && (head + rest)[0] == quote
      && Lex(head + rest)
         == if NoNul(s) then (Some(if quote == '\"' then Name(s) else Str(s)), |head|)
            else (Some(Illegal), |head + rest|)
  {
    var inner := Escaped(s, quote) + [quote] + rest;
    Regroup([quote], Escaped(s, quote), [quote], rest);
    assert Quoted(s, quote) + rest == [quote] + inner;
    UnquotedEscaped(s, quote, rest);
    LexQuote([quote] + inner);
  }

  lemma QuotedToken(s: string, quote: char, rest: string)
    requires quote == '\"' || quote == '\''
    requires rest == [] || rest[0] != quote
    ensures Tokenize(Quoted(s, quote) + rest)
         == if NoNul(s) then [if quote == '\"' then Name(s) else Str(s)] + Tokenize(rest) else [Illegal]
  {
    var head := Quoted(s, quote);
    QuotedLex(s, quote, rest);
    if NoNul(s) {
      TokenThen(head, if quote == '\"' then Name(s) else Str(s), rest);
    } else {
      NothingAfterIllegal(head + rest);
    }
  }

  lemma {:induction false} DigitsLengthIs(w: string, rest: string)
    requires forall i | 0 <= i < |w| :: IsDigit(w[i])
    requires rest == [] || !IsDigit(rest[0])
    ensures DigitsLength(w + rest) == |w|
  {
    if w == [] {
      assert w + rest == rest;
    } else {
      assert (w + rest)[1..] == w[1..] + rest;
      DigitsLengthIs(w[1..], rest);
    }
  }

  lemma {:induction false} NatTextReads(n: nat)
    ensures NatText(n) != [] && (forall i | 0 <= i < |NatText(n)| :: IsDigit(NatText(n)[i]))
    ensures NatValue(NatText(n)) == n
  {
    var t := NatText(n);
    if n >= 10 {
      NatTextReads(n / 10);
    }
    assert t[..|t| - 1] == if n < 10 then [] else NatText(n / 10);
  }

  lemma LexDigits(w: string, rest: string)
    requires w != [] && forall i | 0 <= i < |w| :: IsDigit(w[i])
    requires rest == [] || rest == ")"
    ensures Lex(w + rest) == (Some(Number(NatValue(w))), |w|)
  {
    var s := w + rest;
    DigitsLengthIs(w, rest);
    assert s[0] == w[0] && s[..|w|] == w;
    assert |w| < |s| ==> s[|w|] == ')';
    LexNumber(s);
  }

  lemma LexNumber(s: string)
    requires s != [] && IsDigit(s[0])
    ensures var n := DigitsLength(s);
      Lex(s) == if n < |s| && (IsIdentifierContinue(s[n]) || s[n] == '.') then (Some(Illegal), |s|)
                else (Some(Number(NatValue(s[..n]))), n)
  {
  }

  lemma NumberToken(n: nat, rest: string)
    requires rest == [] || rest == ")"
    ensures Reads(NatText(n), [Number(n)], rest)
  {
    var w := NatText(n);
    NatTextReads(n);
    LexDigits(w, rest);
    assert IsDigit(w[0]);
    TokenThen(w, Number(n), rest);
  }

  predicate ValueSurvives(v: Arg) {
    v.TextArg? ==> NoNul(v.s)
  }

  /** The tokens of a printed value; a text with a NUL in it is cut off. */
  function ValueTokens(v: Arg): seq<Token> {
    match v
    case IntegerArg(i) => if i < 0 then [Minus, Number(-i)] else [Number(i)]
    case TextArg(s) => [Str(s)]
    case _ => []
  }

  /** A printed value starts with a digit, a minus sign or a quote. */
  lemma ValueStarts(v: Arg)
    requires v.IntegerArg? || v.TextArg?
    ensures var t := ValueText(v).value;
      t != [] && (IsDigit(t[0]) || t[0] == '-' || t[0] == '\'')
  {
    if v.IntegerArg? && v.i >= 0 {
      NatTextReads(v.i);
    }
  }

  lemma MinusToken(digits: string)
    requires digits != [] && IsDigit(digits[0])
    ensures Tokenize("-" + digits) == [Minus] + Tokenize(digits)
  {
    TokenThen("-", Minus, digits);
  }

  lemma EqualsToken(t: string)
    requires t != [] && t[0] != '='
    ensures Tokenize("=" + t) == [Equals] + Tokenize(t)
  {
    TokenThen("=", Equals, t);
  }

  lemma OpenToken(t: string)
    ensures Tokenize("(" + t) == [Open] + Tokenize(t)
  {
    TokenThen("(", Open, t);
  }

  lemma CloseToken()
    ensures Tokenize(")") == [Close]
  {
    TokenThen(")", Close, "");
    assert ")" + "" == ")";
  }

  lemma JoinTokens(a: Token, b: Token, more: seq<Token>)
    ensures [a] + ([b] + more) == [a, b] + more
  {
  }

  lemma NegativeReads(n: nat, rest: string)
    requires rest == [] || rest == ")"
    ensures Reads("-" + NatText(n), [Minus, Number(n)], rest)
  {
    var digits := NatText(n);
    NatTextReads(n);
    NumberToken(n, rest);
    MinusToken(digits + rest);
    Associate("-", digits, rest);
    JoinTokens(Minus, Number(n), Tokenize(rest));
  }

  lemma IntReads(i: int, rest: string)
    requires rest == [] || rest == ")"
    ensures Reads(IntText(i), ValueTokens(IntegerArg(i)), rest)
  {
    if i < 0 {
      assert IntText(i) == "-" + NatText(-i) && ValueTokens(IntegerArg(i)) == [Minus, Number(-i)];
      NegativeReads(-i, rest);
    } else {
      assert IntText(i) == NatText(i) && ValueTokens(IntegerArg(i)) == [Number(i)];
      NumberToken(i, rest);
    }
  }

  lemma ValueReads(v: Arg, rest: string)
    requires v.IntegerArg? || v.TextArg?
    requires rest == [] || rest == ")"
    ensures Tokenize(ValueText(v).value + rest)
         == if ValueSurvives(v) then ValueTokens(v) + Tokenize(rest) else [Illegal]
  {
    match v
    case TextArg(s) => QuotedToken(s, '\'', rest);
    case IntegerArg(i) => IntReads(i, rest);
  }

  lemma ValueTokensRead(v: Arg)
    requires v.IntegerArg? || v.TextArg?
    ensures ReadValue(ValueTokens(v)) == Some(v)
  {
  }

  /** The forms whose printed text is modelled: no float, and a value that can be printed. */
  predicate FormModelled(f: Form) {
    f.Query? || f.value.IntegerArg? || f.value.TextArg?
  }

  lemma FormReads(f: Form)
    requires FormModelled(f)
    ensures FormText(f).Success? && EndsWord(FormText(f).value)
    ensures var ts := Tokenize(FormText(f).value);
      && (ReadForm(ts) == Some(f) <==> f.Query? || ValueSurvives(f.value))
      && (ts != [] ==> ts[0] != Dot)
  {
    match f
    case Query =>
    case Assign(v) => AssignReads(v);
    case Call(v) => CallReads(v);
  }

  /** The tokens of a value that nothing follows. */
  function TokensAlone(v: Arg): seq<Token> {
    if ValueSurvives(v) then ValueTokens(v) else [Illegal]
  }

  lemma ValueAlone(v: Arg)
    requires v.IntegerArg? || v.TextArg?
    ensures Tokenize(ValueText(v).value) == TokensAlone(v)
  {
    var t := ValueText(v).value;
    ValueReads(v, "");
    assert t + "" == t && Tokenize("") == [];
    assert ValueTokens(v) + [] == ValueTokens(v);
  }

  lemma AssignForm(v: Arg)
    requires v.IntegerArg? || v.TextArg?
    ensures ReadForm([Equals] + TokensAlone(v)) == Some(Assign(v)) <==> ValueSurvives(v)
  {
    ValueTokensRead(v);
    assert ([Equals] + TokensAlone(v))[1..] == TokensAlone(v);
  }

  lemma AssignReads(v: Arg)
    requires v.IntegerArg? || v.TextArg?
    ensures var ts := Tokenize(FormText(Assign(v)).value);
      ts != [] && ts[0] == Equals && (ReadForm(ts) == Some(Assign(v)) <==> ValueSurvives(v))
  {
    ValueStarts(v);
    EqualsToken(ValueText(v).value);
    ValueAlone(v);
    AssignForm(v);
  }

  lemma CallTokens(v: Arg)
    requires v.IntegerArg? || v.TextArg?
    ensures Tokenize(FormText(Call(v)).value)
         == [Open] + if ValueSurvives(v) then ValueTokens(v) + [Close] else [Illegal]
  {
    var t := ValueText(v).value;
    ValueReads(v, ")");
    CloseToken();
    OpenToken(t + ")");
    Associate("(", t, ")");
  }

  lemma CallForm(v: Arg)
    requires v.IntegerArg? || v.TextArg?
    ensures var ts := [Open] + if ValueSurvives(v) then ValueTokens(v) + [Close] else [Illegal];
      ReadForm(ts) == Some(Call(v)) <==> ValueSurvives(v)
  {
    ValueTokensRead(v);
    Inside(Open, ValueTokens(v), Close);
  }

  lemma Inside(first: Token, inner: seq<Token>, last: Token)
    ensures var ts := [first] + (inner + [last]);
      ts[1..|ts| - 1] == inner && ts[|ts| - 1] == last
  {
  }

  lemma CallReads(v: Arg)
    requires v.IntegerArg? || v.TextArg?
    ensures var ts := Tokenize(FormText(Call(v)).value);
      ts != [] && ts[0] == Open && (ReadForm(ts) == Some(Call(v)) <==> ValueSurvives(v))
  {
    CallTokens(v);
    CallForm(v);
  }

  lemma FirstToken(s: string)
    requires s != [] && s[0] != '\0' && Lex(s).0.Some?
    ensures Tokenize(s) != [] && Tokenize(s)[0] == Lex(s).0.value
  {
  }

  /** What starts with an identifier's character is never a quoted name, and a word starts with that character. */
  lemma BareLex(s: string)
    requires s != [] && IsIdentifierContinue(s[0]) && !IsSpace(s[0])
    ensures s[0] != '\0'
    ensures var t := Lex(s).0;
      t.Some? && !t.value.Name? && (t.value.Word? ==> t.value.text != [] && t.value.text[0] == s[0])
  {
    assert WordLength(s) > 0;
  }

  /** The first token of a bare piece of text is never a quoted name, nor a word that starts with the mark. */
  lemma {:induction false} BareFirst(bare: string, rest: string)
    requires forall i | 0 <= i < |bare| :: IsIdentifierContinue(bare[i])
    requires rest == [] || rest[0] == '.' || rest[0] == '=' || rest[0] == '('
    ensures var ts := Tokenize(bare + rest);
      ts != [] ==> !ts[0].Name? && (ts[0].Word? ==> ts[0].text != [] && ts[0].text[0] != BOM)
    ensures bare == [] && rest != [] ==> Tokenize(bare + rest) != [] && Ident(Tokenize(bare + rest)[0]).None?
  {
    var s := bare + rest;
    if bare == [] {
      assert s == rest;
      if rest != [] {
        FirstToken(s);
      }
    } else if IsSpace(bare[0]) {
      assert s[1..] == bare[1..] + rest && Lex(s) == (None, 1);
      assert [] + Tokenize(s[1..]) == Tokenize(s[1..]);
      BareFirst(bare[1..], rest);
    } else {
      assert s[0] == bare[0];
      BareLex(s);
      FirstToken(s);
    }
  }

  // ---- The round trip --------------------------------------------------------------

  predicate SchemaSurvives(s: string) {
    s != "" && NoNul(s) && !(IsIdentifier(s) && s[0] == BOM)
  }

  /** What a caller can check before the call. */
  predicate Survives(p: Pragma) {
    && (p.schema.Some? ==> SchemaSurvives(p.schema.value))
    && (p.name != [] ==> p.name[0] != BOM)
    && (!p.form.Query? ==> ValueSurvives(p.form.value))
  }

  lemma NamedReads(schema: Option<string>, name: string, f: Form)
    requires IsKeyword(name) && FormModelled(f)
    ensures FormText(f).Success?
    ensures ReadNamed(schema, Tokenize(name + FormText(f).value)) == Some(Pragma(schema, name, f))
       <==> name[0] != BOM && (f.Query? || ValueSurvives(f.value))
    ensures name[0] != BOM ==>
      var ts := Tokenize(name + FormText(f).value);
      ts != [] && ts[0] == Word(name) && ts[1..] == Tokenize(FormText(f).value)
  {
    FormReads(f);
    var t := FormText(f).value;
    if name[0] != BOM {
      WordToken(name, t);
    } else {
      BareFirst(name, t);
    }
  }

  lemma PragmaWord(rest: string)
    ensures Tokenize("PRAGMA" + " " + rest) == [Word("PRAGMA")] + Tokenize(rest)
  {
    var spaced := " " + rest;
    assert "PRAGMA" + " " + rest == "PRAGMA" + spaced;
    WordToken("PRAGMA", spaced);
    assert spaced[1..] == rest && Lex(spaced) == (None, 1);
    assert [] + Tokenize(rest) == Tokenize(rest);
  }

  lemma DotToken(named: string)
    requires named != [] && IsIdentifierStart(named[0])
    ensures Tokenize("." + named) == [Dot] + Tokenize(named)
  {
    TokenThen(".", Dot, named);
  }

  /** With a schema: its name, the dot, and the rest read on its own. */
  lemma SchemaReads(s: string, named: string)
    requires named != [] && IsIdentifierStart(named[0])
    ensures var ts := Tokenize(IdentifierText(s) + "." + named);
      if SchemaSurvives(s) then
        ts == [if IsIdentifier(s) then Word(s) else Name(s), Dot] + Tokenize(named)
      else ts == [] || Ident(ts[0]) != Some(s)
  {
    Associate(IdentifierText(s), ".", named);
    DotToken(named);
    if !IsIdentifier(s) {
      QuotedToken(s, '\"', "." + named);
      JoinTokens(Name(s), Dot, Tokenize(named));
    } else if SchemaSurvives(s) {
      WordToken(s, "." + named);
      JoinTokens(Word(s), Dot, Tokenize(named));
    } else {
      BareSchema(s, "." + named);
    }
  }

  lemma BareSchema(s: string, rest: string)
    requires IsIdentifier(s) && !SchemaSurvives(s) && rest != [] && rest[0] == '.'
    ensures var ts := Tokenize(s + rest);
      ts == [] || Ident(ts[0]) != Some(s)
  {
    BareFirst(s, rest);
    IdentifiersHaveNoNul(s);
  }

  lemma IdentifiersHaveNoNul(s: string)
    requires IsIdentifier(s)
    ensures NoNul(s)
  {
    forall c | c in s
      ensures c != '\0'
    {
      var i :| 0 <= i < |s| && s[i] == c;
    }
  }

  /**
   * Tokenizing the text printed for a PRAGMA gives back its schema, name, form
   * and value exactly when the schema is not empty, no name starts bare with a
   * byte order mark, and no NUL is inside a quote.
   */
  lemma PragmaRoundTrip(p: Pragma)
    requires IsKeyword(p.name) && FormModelled(p.form)
    ensures PragmaText(p).Success?
    ensures Read(Tokenize(PragmaText(p).value)) == Some(p) <==> Survives(p)
  {
    FormReads(p.form);
    PragmaTextParts(p, FormText(p.form).value);
    if p.schema.None? {
      BareReads(p.name, p.form);
    } else {
      QualifiedReads(p.schema.value, p.name, p.form);
    }
  }

  lemma PragmaTextParts(p: Pragma, t: string)
    requires IsKeyword(p.name) && FormText(p.form) == Success(t)
    ensures PragmaText(p)
         == Success("PRAGMA" + " " + if p.schema.Some? then IdentifierText(p.schema.value) + "." + (p.name + t) else p.name + t)
  {
    var head := "PRAGMA" + " ";
    Reassociate(head, SchemaText(p.schema), p.name, t);
    if p.schema.None? {
      assert "" + (p.name + t) == p.name + t;
    }
  }

  lemma Reassociate(a: string, b: string, c: string, d: string)
    ensures a + b + c + d == a + (b + (c + d))
  {
  }

  lemma ReadQualified(first: Token, more: seq<Token>)
    requires Ident(first).Some?
    ensures Read([Word("PRAGMA")] + ([first, Dot] + more)) == ReadNamed(Ident(first), more)
  {
    var ts := [Word("PRAGMA")] + ([first, Dot] + more);
    assert ts[1] == first && ts[2] == Dot && ts[3..] == more;
  }

  lemma ReadOther(s: string, ts: seq<Token>)
    requires ts == [] || Ident(ts[0]) != Some(s)
    ensures var r := Read([Word("PRAGMA")] + ts);
      r.Some? ==> r.value.schema != Some(s)
  {
    assert ([Word("PRAGMA")] + ts)[1..] == ts;
    assert |ts| > 0 ==> ([Word("PRAGMA")] + ts)[1] == ts[0];
  }

  lemma QualifiedReads(s: string, name: string, f: Form)
    requires IsKeyword(name) && FormModelled(f) && FormText(f).Success?
    ensures var rest := IdentifierText(s) + "." + (name + FormText(f).value);
      Read(Tokenize("PRAGMA" + " " + rest)) == Some(Pragma(Some(s), name, f))
      <==> SchemaSurvives(s) && name[0] != BOM && (f.Query? || ValueSurvives(f.value))
  {
    var named := name + FormText(f).value;
    var rest := IdentifierText(s) + "." + named;
    assert named[0] == name[0];
    SchemaReads(s, named);
    PragmaWord(rest);
    if SchemaSurvives(s) {
      ReadQualified(if IsIdentifier(s) then Word(s) else Name(s), Tokenize(named));
      NamedReads(Some(s), name, f);
    } else {
      ReadOther(s, Tokenize(rest));
    }
  }

  lemma BareReads(name: string, f: Form)
    requires IsKeyword(name) && FormModelled(f) && FormText(f).Success?
    ensures Read(Tokenize("PRAGMA" + " " + (name + FormText(f).value))) == Some(Pragma(None, name, f))
       <==> name[0] != BOM && (f.Query? || ValueSurvives(f.value))
  {
    var named := name + FormText(f).value;
    PragmaWord(named);
    NamedReads(None, name, f);
    FormReads(f);
    var ts := [Word("PRAGMA")] + Tokenize(named);
    assert ts[1..] == Tokenize(named);
    if name[0] != BOM {
      assert |ts| > 2 ==> ts[2] == Tokenize(FormText(f).value)[0];
    }
  }

  /** So no two PRAGMAs that survive print the same text. */
  lemma PragmaTextIsInjective(p: Pragma, q: Pragma)
    requires IsKeyword(p.name) && FormModelled(p.form) && Survives(p)
    requires IsKeyword(q.name) && FormModelled(q.form) && Survives(q)
    requires PragmaText(p) == PragmaText(q)
    ensures p == q
  {
    PragmaRoundTrip(p);
    PragmaRoundTrip(q);
  }

  // ---- What is accepted, and what is refused ---------------------------------------

  predicate IsLetter(c: char) {
    'a' <= c <= 'z' || 'A' <= c <= 'Z' || c == '_' || c as int > 127
  }

  /** Letters, the underscore and everything outside ASCII anywhere; digits and the dollar sign after the first character. */
  lemma IdentifierExactly(s: string)
    ensures IsIdentifier(s)
       <==> forall i | 0 <= i < |s| :: IsLetter(s[i]) || (i > 0 && (s[i] == '$' || '0' <= s[i] <= '9'))
  {
  }

  predicate Printable(v: Arg) {
    v.IntegerArg? || v.RealArg? || v.TextArg?
  }

  /**
   * Building fails exactly for a name that is no keyword and for a value that is
   * null, a blob, or did not convert; the last has an error of its own, and the
   * name is looked at first.
   */
  lemma RefusedExactly(p: Pragma)
    ensures PragmaText(p).Failure? <==> !IsKeyword(p.name) || (!p.form.Query? && !Printable(p.form.value))
    ensures PragmaText(p).Failure? ==>
      PragmaText(p).error
      == if IsKeyword(p.name) && p.form.value.FailingArg? then p.form.value.error else SqliteFailure(SQLITE_MISUSE)
  {
  }

  /** A float stands in the text as it was printed. */
  lemma RealStandsAsPrinted(schema: Option<string>, name: string, printed: string)
    requires IsKeyword(name)
    ensures var query := PragmaText(Pragma(schema, name, Query));
      && query.Success?
      && PragmaText(Pragma(schema, name, Assign(RealArg(printed)))) == Success(query.value + "=" + printed)
      && PragmaText(Pragma(schema, name, Call(RealArg(printed)))) == Success(query.value + "(" + printed + ")")
  {
    var head := "PRAGMA" + " " + SchemaText(schema) + name;
    assert head + "" == head;
    Associate(head, "=", printed);
    Associate(head, "(", printed);
    Associate(head, "(" + printed, ")");
  }
}
