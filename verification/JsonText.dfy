/** JSON texts as sections 2 to 7 of RFC 8259 define them: concrete syntax trees, their text, and
    the tokens a tokenizer owes for them. */
module JsonText {
  import opened JsmnSpec
  import opened Sequences

  /** Section 7: an unescaped byte, a two-byte escape, or \uXXXX. */
  datatype Char = Plain(c: char) | Escape(c: char) | Unicode(a: char, b: char, c: char, d: char)

  /** Quotation mark, reverse solidus, solidus, backspace, form feed, line feed, carriage return, tab. */
  predicate SimpleEscape(c: char) {
    c == '"' || c == '\\' || c == '/' || c == 'b' || c == 'f' || c == 'n' || c == 'r' || c == 't'
  }

  /** HEXDIG of RFC 5234, in which letters are case-insensitive. */
  predicate HexDigit(c: char) {
    || c == '0' || c == '1' || c == '2' || c == '3' || c == '4' || c == '5' || c == '6' || c == '7' || c == '8' || c == '9'
    || c == 'A' || c == 'B' || c == 'C' || c == 'D' || c == 'E' || c == 'F'
    || c == 'a' || c == 'b' || c == 'c' || c == 'd' || c == 'e' || c == 'f'
  }

  predicate ValidChar(x: Char) {
    match x
    case Plain(c) => ' ' <= c && c != '"' && c != '\\'
    case Escape(c) => SimpleEscape(c)
    case Unicode(a, b, c, d) => HexDigit(a) && HexDigit(b) && HexDigit(c) && HexDigit(d)
  }

  predicate ValidChars(s: seq<Char>) {
    forall k :: 0 <= k < |s| ==> ValidChar(s[k])
  }

  function CharText(x: Char): string {
    match x
    case Plain(c) => [c]
    case Escape(c) => ['\\', c]
    case Unicode(a, b, c, d) => ['\\', 'u', a, b, c, d]
  }

  function CharsText(s: seq<Char>): string {
    if s == [] then "" else CharText(s[0]) + CharsText(s[1..])
  }

  /** Section 6. */
  datatype Number = Number(neg: bool, whole: string, frac: Option<string>, exp: Option<Exponent>)

  datatype Exponent = Exponent(e: char, sign: string, digits: string)

  predicate Digits(s: string) {
    s != "" && forall k :: 0 <= k < |s| ==> '0' <= s[k] <= '9'
  }

  predicate ValidNumber(n: Number) {
    && Digits(n.whole) && (n.whole[0] == '0' ==> |n.whole| == 1)
    && (n.frac.Some? ==> Digits(n.frac.value))
    && (n.exp.Some? ==>
          n.exp.value.e in "eE" && n.exp.value.sign in {"", "+", "-"} && Digits(n.exp.value.digits))
  }

  function NumberText(n: Number): string {
    (if n.neg then "-" else "") + n.whole
    + (if n.frac.Some? then "." + n.frac.value else "")
    + (if n.exp.Some? then [n.exp.value.e] + n.exp.value.sign + n.exp.value.digits else "")
  }

  /** Sections 3, 4 and 5, with the whitespace of section 2 around the structural characters. */
  datatype Value =
    | True | False | Null
    | Num(n: Number)
    | Str(s: seq<Char>)
    | Arr(pad: string, items: Items)
    | Obj(pad: string, members: Members)

  datatype Items = NoItems | Item(before: string, v: Value, after: string, rest: Items)

  datatype Members =
    | NoMembers
    | Member(before: string, key: seq<Char>, mid: string, gap: string, v: Value, after: string,
             rest: Members)

  predicate Ws(s: string) {
    forall k :: 0 <= k < |s| ==> s[k] == ' ' || s[k] == '\t' || s[k] == '\n' || s[k] == '\r'
  }

  predicate Valid(v: Value) {
    match v
    case Num(n) => ValidNumber(n)
    case Str(s) => ValidChars(s)
    case Arr(pad, items) => Ws(pad) && ValidItems(items)
    case Obj(pad, members) => Ws(pad) && ValidMembers(members)
    case _ => true
  }

  predicate ValidItems(l: Items) {
    match l
    case NoItems => true
    case Item(before, v, after, rest) => Ws(before) && Valid(v) && Ws(after) && ValidItems(rest)
  }

  predicate ValidMembers(l: Members) {
    match l
    case NoMembers => true
    case Member(before, key, mid, gap, v, after, rest) =>
      && Ws(before) && ValidChars(key) && Ws(mid) && Ws(gap)
      && Valid(v) && Ws(after) && ValidMembers(rest)
  }

  function Text(v: Value): string {
    match v
    case True => "true"
    case False => "false"
    case Null => "null"
    case Num(n) => NumberText(n)
    case Str(s) => Quoted(s)
    case Arr(pad, items) => "[" + (pad + (ItemsText(items) + "]"))
    case Obj(pad, members) => "{" + (pad + (MembersText(members) + "}"))
  }

  function Quoted(s: seq<Char>): string {
    "\"" + CharsText(s) + "\""
  }

  function ItemsText(l: Items): string {
    match l
    case NoItems => ""
    case Item(before, v, after, rest) =>
      before + ((Text(v) + after) + (if rest.NoItems? then "" else "," + ItemsText(rest)))
  }

  function MembersText(l: Members): string {
    match l
    case NoMembers => ""
    case Member(before, key, mid, gap, v, after, rest) =>
      before + (Quoted(key) + ((mid + ":" + gap) + ((Text(v) + after)
      + (if rest.NoMembers? then "" else "," + MembersText(rest)))))
  }

  function ItemCount(l: Items): nat {
    match l case NoItems => 0 case Item(_, _, _, rest) => 1 + ItemCount(rest)
  }

  function MemberCount(l: Members): nat {
    match l case NoMembers => 0 case Member(_, _, _, _, _, _, rest) => 1 + MemberCount(rest)
  }

  /** The preorder walk of the value that starts at byte `off`. */
  function Tokens(v: Value, off: nat): seq<Token> {
    var end := off + |Text(v)|;
    match v
    case Str(s) => [StringToken(s, off)]
    case Arr(pad, items) =>
      [Token(ARRAY, off, end, ItemCount(items))] + ItemsTokens(items, off + 1 + |pad|)
    case Obj(pad, members) =>
      [Token(OBJECT, off, end, 2 * MemberCount(members))] + MembersTokens(members, off + 1 + |pad|)
    case _ => [Token(PRIMITIVE, off, end, 0)]
  }

  /** A string's span leaves out its quotes. */
  function StringToken(s: seq<Char>, off: nat): Token {
    Token(STRING, off + 1, off + 1 + |CharsText(s)|, 0)
  }

  function ItemsTokens(l: Items, off: nat): seq<Token> {
    match l
    case NoItems => []
    case Item(before, v, after, rest) =>
      var at := off + |before|;
      Tokens(v, at) + ItemsTokens(rest, at + |Text(v)| + |after| + 1)
  }

  function MembersTokens(l: Members, off: nat): seq<Token> {
    match l
    case NoMembers => []
    case Member(before, key, mid, gap, v, after, rest) =>
      var at := off + |before|;
      var val := at + |Quoted(key)| + |mid| + 1 + |gap|;
      [StringToken(key, at)] + Tokens(v, val)
      + MembersTokens(rest, val + |Text(v)| + |after| + 1)
  }
}
