/** Tokens of the query language and their specification: what the lexer reads at each position. */
module Tokens {
  import opened Common
  import opened Text
  import opened NumberText

  datatype Kind =
    | Invalid | EOF
    | Dollar | At_ | Dot | DotDot | LeftBracket | RightBracket | LeftParen | RightParen
    | Star | Question | Comma | Colon
    | Equal | NotEqual | Less | LessEqual | Greater | GreaterEqual | And | Or | Not
    | Ident | Int | Number | String | True | False | Null

  /** A token with its span; `value` is the decoded content of a string token. */
  datatype Token = Token(kind: Kind, start: nat, end: nat, value: string)

  // ---- Character classes

  predicate IsBlank(c: char) {
    c == ' ' || c == '\t' || c == '\n' || c == '\r'
  }

  predicate IsNameFirst(c: char) {
    'a' <= c <= 'z' || 'A' <= c <= 'Z' || c == '_' || c as int >= 0x80
  }

  predicate IsNameChar(c: char) {
    IsNameFirst(c) || IsDigit(c)
  }

  predicate IsUnescaped(c: char, quote: char) {
    c != quote && c as int >= 0x20 && c != '\\'
  }

  function HexValue(c: char): (v: Option<nat>)
    ensures v.Some? ==> v.value < 16
  {
    if '0' <= c <= '9' then Some(c as int - '0' as int)
    else if 'a' <= c <= 'f' then Some(c as int - 'a' as int + 10)
    else if 'A' <= c <= 'F' then Some(c as int - 'A' as int + 10)
    else None
  }

  // ---- String literals

  /** Exactly four hexadecimal digits. */
  function Hex4(s: string, i: nat): (v: Option<nat>)
    ensures v.Some? ==> v.value < 0x1_0000 && i + 4 <= |s|
  {
    if i + 4 > |s| then None
    else
      match (HexValue(s[i]), HexValue(s[i + 1]), HexValue(s[i + 2]), HexValue(s[i + 3]))
      case (Some(a), Some(b), Some(c), Some(d)) => Some(((a * 16 + b) * 16 + c) * 16 + d)
      case (_, _, _, _) => None
  }

  /** A decoded character and the position after it. */
  datatype Decoded = Malformed | Decoded(c: char, next: nat)

  /** The digits of a `\u` escape at `i`, with a surrogate pair read as one character. */
  function DecodeUnicode(s: string, i: nat): (d: Decoded)
    ensures d.Decoded? ==> i < d.next <= |s|
  {
    match Hex4(s, i)
    case None => Malformed
    case Some(r) =>
      if r < 0xD800 || 0xE000 <= r then Decoded(r as char, i + 4)
      else if r >= 0xDC00 then Malformed
      else if i + 5 < |s| && s[i + 4] == '\\' && s[i + 5] == 'u' then
        match Hex4(s, i + 6)
        case None => Malformed
        case Some(low) =>
          if 0xDC00 <= low < 0xE000 then
            Decoded(((r - 0xD800) * 0x400 + (low - 0xDC00) + 0x1_0000) as char, i + 10)
          else Malformed
      else Malformed
  }

  /** The escape whose backslash is at `i`. */
  function DecodeEscape(s: string, i: nat, quote: char): (d: Decoded)
    requires i < |s|
    ensures d.Decoded? ==> i < d.next <= |s|
  {
    if i + 1 >= |s| then Malformed
    else
      var e := s[i + 1];
      if e == quote then Decoded(quote, i + 2)
      else if e == 'b' then Decoded(8 as char, i + 2)
      else if e == 'f' then Decoded(12 as char, i + 2)
      else if e == 'n' then Decoded('\n', i + 2)
      else if e == 'r' then Decoded('\r', i + 2)
      else if e == 't' then Decoded('\t', i + 2)
      else if e == '/' then Decoded('/', i + 2)
      else if e == '\\' then Decoded('\\', i + 2)
      else if e == 'u' then DecodeUnicode(s, i + 2)
      else Malformed
  }

  /** The rest of a string literal: its decoded content and the position after the closing quote. */
  datatype Content = Broken | Content(value: string, end: nat)

  function DecodeString(s: string, i: nat, quote: char): (r: Content)
    requires i <= |s|
    ensures r.Content? ==> i < r.end <= |s|
    decreases |s| - i
  {
    if i == |s| then Broken
    else if s[i] == quote then Content("", i + 1)
    else if s[i] == '\\' then
      match DecodeEscape(s, i, quote)
      case Malformed => Broken
      case Decoded(c, next) => Prepend(c, DecodeString(s, next, quote))
    else if IsUnescaped(s[i], quote) then Prepend(s[i], DecodeString(s, i + 1, quote))
    else Broken
  }

  function Prepend(c: char, r: Content): Content {
    if r.Broken? then Broken else Content([c] + r.value, r.end)
  }

  // ---- Tokens

  function SkipBlanks(s: string, i: nat): (j: nat)
    requires i <= |s|
    ensures i <= j <= |s| && (j < |s| ==> !IsBlank(s[j]))
    ensures forall k | i <= k < j :: IsBlank(s[k])
    decreases |s| - i
  {
    if i < |s| && IsBlank(s[i]) then SkipBlanks(s, i + 1) else i
  }

  function NameEnd(s: string, i: nat): (j: nat)
    requires i <= |s|
    ensures i <= j <= |s| && (j < |s| ==> !IsNameChar(s[j]))
    ensures forall k | i <= k < j :: IsNameChar(s[k])
    decreases |s| - i
  {
    if i < |s| && IsNameChar(s[i]) then NameEnd(s, i + 1) else i
  }

  function NameKind(name: string): Kind {
    if name == "true" then True else if name == "false" then False else if name == "null" then Null else Ident
  }

  /** Tokens that are one character whatever follows. */
  function SimpleKind(c: char): Option<Kind> {
    match c
    case '$' => Some(Dollar)
    case '@' => Some(At_)
    case '[' => Some(LeftBracket)
    case ']' => Some(RightBracket)
    case '(' => Some(LeftParen)
    case ')' => Some(RightParen)
    case '*' => Some(Star)
    case '?' => Some(Question)
    case ',' => Some(Comma)
    case ':' => Some(Colon)
    case _ => None
  }

  /** Tokens that a second character decides: which one, the kind of both together, the kind of the first alone. */
  function DoubleKind(c: char): Option<(char, Kind, Kind)> {
    match c
    case '.' => Some(('.', DotDot, Dot))
    case '=' => Some(('=', Equal, Invalid))
    case '!' => Some(('=', NotEqual, Not))
    case '<' => Some(('=', LessEqual, Less))
    case '>' => Some(('=', GreaterEqual, Greater))
    case '&' => Some(('&', And, Invalid))
    case '|' => Some(('|', Or, Invalid))
    case _ => None
  }

  /** The token whose first character is at `i`. The span of an invalid token is not specified beyond its start. */
  function TokenAt(s: string, i: nat): (t: Token)
    requires i < |s|
    ensures t.start == i && t.kind != EOF
    ensures t.kind != Invalid ==> i < t.end <= |s|
  {
    var c := s[i];
    if SimpleKind(c).Some? then Token(SimpleKind(c).value, i, i + 1, "")
    else if DoubleKind(c).Some? then
      var (second, both, alone) := DoubleKind(c).value;
      if i + 1 < |s| && s[i + 1] == second then Token(both, i, i + 2, "")
      else Token(alone, i, i + 1, "")
    else if c == '"' || c == '\'' then
      match DecodeString(s, i + 1, c)
      case Broken => Token(Invalid, i, i, "")
      case Content(value, end) => Token(String, i, end, value)
    else if c == '-' || IsDigit(c) then
      match ScanNumber(s, i)
      case Bad => Token(Invalid, i, i, "")
      case Good(end, float) => Token(if float then Number else Int, i, end, "")
    else if IsNameFirst(c) then
      var end := NameEnd(s, i + 1);
      Token(NameKind(s[i..end]), i, end, "")
    else Token(Invalid, i, i, "")
  }

  /** The next token at or after `i`. */
  function NextToken(s: string, i: nat): (t: Token)
    requires i <= |s|
    ensures i <= t.start <= |s| && (t.kind == EOF <==> t.start == |s|)
    ensures t.kind != Invalid ==> t.start <= t.end <= |s|
    ensures t.kind != Invalid && t.kind != EOF ==> t.start < t.end
  {
    var j := SkipBlanks(s, i);
    if j == |s| then Token(EOF, j, j, "") else TokenAt(s, j)
  }

  /** All tokens from `i`, ending with EOF or with the first invalid token. */
  function AllTokens(s: string, i: nat): (ts: seq<Token>)
    requires i <= |s|
    ensures ts != [] && forall k | 0 <= k < |ts| - 1 :: ts[k].kind != EOF && ts[k].kind != Invalid
    ensures ts[|ts| - 1].kind == EOF || ts[|ts| - 1].kind == Invalid
    decreases |s| - i
  {
    var t := NextToken(s, i);
    if t.kind == EOF || t.kind == Invalid then [t] else [t] + AllTokens(s, t.end)
  }

  /** The same token, where an invalid token is only identified by where it starts. */
  predicate SameToken(t: Token, u: Token) {
    if u.kind == Invalid then t.kind == Invalid && t.start == u.start else t == u
  }

  // ---- Lexemes: what the parser can see of a token

  /** Kind, text and whether blank space sits where the grammar allows none. */
  datatype Symbol = Symbol(kind: Kind, text: string, gap: bool)

  predicate IsName(text: string) {
    text != "" && IsNameFirst(text[0]) && forall i | 1 <= i < |text| :: IsNameChar(text[i])
  }

  predicate ValidSymbol(x: Symbol) {
    match x.kind
    case Int => IsNumberText(x.text) && !ScanNumber(x.text, 0).float && IsIntText(x.text)
    case Number => IsNumberText(x.text) && ScanNumber(x.text, 0).float
    case Ident => IsName(x.text) && NameKind(x.text) == Ident
    case True => x.text == "true"
    case False => x.text == "false"
    case Null => x.text == "null"
    case String => true
    case _ => x.text == ""
  }

  type Lexeme = x: Symbol | ValidSymbol(x) witness Symbol(EOF, "", false)

  /** Blank space matters only after a dot and between a function name and its parenthesis. */
  predicate GapMatters(before: Kind, after: Kind) {
    before == Dot || before == DotDot || (before == Ident && after == LeftParen)
  }

  predicate HasRawText(k: Kind) {
    k == Ident || k == Int || k == Number || k == True || k == False || k == Null
  }

  /** The text a token carries to the parser. */
  function TokenText(s: string, t: Token): string
    requires t.start <= t.end <= |s|
  {
    if t.kind == String then t.value else if HasRawText(t.kind) then s[t.start..t.end] else ""
  }
}
