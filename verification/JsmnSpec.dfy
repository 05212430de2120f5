/** The jsmn tokenizer as a function on values (external/jsmn/jsmn.c, non-strict, no parent
    links).  The text is the C string `js`: the byte after the last one is NUL, and an earlier
    NUL ends the text.  One `Step` is one turn of the loop of `jsmn_parse`. */
module JsmnSpec {
  import opened Sequences

  datatype Kind = PRIMITIVE | OBJECT | ARRAY | STRING

  datatype Token = Token(kind: Kind, start: int, end: int, size: nat)

  predicate Open(t: Token) {
    t.start != -1 && t.end == -1
  }

  datatype Code = INVAL | PART

  /** The parser's `pos` and `toksuper` together with the tokens allocated so far. */
  datatype State = State(pos: nat, toks: seq<Token>, sup: int)

  const Init := State(0, [], -1)

  datatype Result = Go(st: State) | Fail(st: State, code: Code)

  /** `js[i]`, where the text is followed by NUL. */
  function At(js: string, i: nat): char {
    if i < |js| then js[i] else '\0'
  }

  predicate More(js: string, i: nat) {
    At(js, i) != '\0'
  }

  predicate Blank(c: char) {
    c == '\t' || c == '\r' || c == '\n' || c == ' ' || c == ':' || c == ','
  }

  predicate Delimiter(c: char) {
    Blank(c) || c == ']' || c == '}'
  }

  predicate Printable(c: char) {
    ' ' <= c < '\U{7F}'
  }

  predicate Hex(c: char) {
    '0' <= c <= '9' || 'A' <= c <= 'F' || 'a' <= c <= 'f'
  }

  /** What may follow a backslash, besides `u`. */
  predicate Escaped(c: char) {
    || c == '"' || c == '/' || c == '\\' || c == 'b'
    || c == 'f' || c == 'r' || c == 'n' || c == 't'
  }

  /** Where the primitive that covers position `i` ends, None if an invalid byte comes first. */
  function PrimEnd(js: string, i: nat): (r: Option<nat>)
    ensures r.Some? ==> i <= r.value && (i < |js| ==> r.value <= |js|)
    ensures r == Some(i) ==> !More(js, i) || Delimiter(js[i])
    decreases |js| - i
  {
    if !More(js, i) || Delimiter(js[i]) then Some(i)
    else if !Printable(js[i]) then None
    else PrimEnd(js, i + 1)
  }

  /** At most `n` hexadecimal digits from `i` on, fewer only if the text ends. */
  function HexScan(js: string, i: nat, n: nat): (r: Option<nat>)
    ensures r.Some? ==> i <= r.value <= i + n && (i <= |js| ==> r.value <= |js|)
    decreases n
  {
    if n == 0 || !More(js, i) then Some(i)
    else if !Hex(js[i]) then None
    else HexScan(js, i + 1, n - 1)
  }

  datatype Scan = Closed(at: nat) | Bad | Cut

  /** Scans the inside of a string from `i` to its closing quote. */
  function StringScan(js: string, i: nat): (r: Scan)
    ensures r.Closed? ==> i <= r.at < |js| && js[r.at] == '"'
    decreases |js| - i
  {
    if !More(js, i) then Cut
    else if js[i] == '"' then Closed(i)
    else if js[i] == '\\' then
      var e := At(js, i + 1);
      if Escaped(e) then StringScan(js, i + 2)
      else if e == 'u' then
        var h := HexScan(js, i + 2, 4);
        if h.None? then Bad else StringScan(js, h.value)
      else Bad
    else StringScan(js, i + 1)
  }

  /** The last open token below index `n`, or -1. */
  function LastOpen(toks: seq<Token>, n: nat): (i: int)
    requires n <= |toks|
    ensures -1 <= i < n
    ensures i >= 0 ==> Open(toks[i])
    ensures forall k :: i < k < n ==> !Open(toks[k])
  {
    if n == 0 then -1
    else if Open(toks[n - 1]) then n - 1
    else LastOpen(toks, n - 1)
  }

  /** The enclosing token gains one child. */
  function Bump(toks: seq<Token>, sup: int): (r: seq<Token>)
    ensures |r| == |toks|
  {
    if 0 <= sup < |toks| then toks[sup := toks[sup].(size := toks[sup].size + 1)] else toks
  }

  /** A string or primitive is complete: it is appended and counted by the enclosing token. */
  function Leaf(st: State, pos: nat, t: Token): State {
    State(pos, Bump(st.toks, st.sup) + [t], st.sup)
  }

  function StepOpen(st: State, kind: Kind): State {
    State(st.pos + 1, Bump(st.toks, st.sup) + [Token(kind, st.pos, -1, 0)], |st.toks|)
  }

  function StepClose(st: State, kind: Kind): Result {
    var i := LastOpen(st.toks, |st.toks|);
    if i == -1 || st.toks[i].kind != kind then Fail(st, INVAL)
    else
      var toks := st.toks[i := st.toks[i].(end := st.pos + 1)];
      Go(State(st.pos + 1, toks, LastOpen(toks, i)))
  }

  function StepString(js: string, st: State): Result {
    match StringScan(js, st.pos + 1)
    case Closed(e) => Go(Leaf(st, e + 1, Token(STRING, st.pos + 1, e, 0)))
    case Bad => Fail(st, INVAL)
    case Cut => Fail(st, PART)
  }

  function StepPrimitive(js: string, st: State): Result {
    match PrimEnd(js, st.pos)
    case Some(e) => Go(Leaf(st, e, Token(PRIMITIVE, st.pos, e, 0)))
    case None => Fail(st, INVAL)
  }

  /** One turn of the loop of `jsmn_parse`. */
  function Step(js: string, st: State): (r: Result)
    requires More(js, st.pos)
    ensures r.Go? ==> st.pos < r.st.pos <= |js|
    ensures r.Fail? ==> r.st == st
  {
    var c := js[st.pos];
    if c == '{' then Go(StepOpen(st, OBJECT))
    else if c == '[' then Go(StepOpen(st, ARRAY))
    else if c == '}' then StepClose(st, OBJECT)
    else if c == ']' then StepClose(st, ARRAY)
    else if c == '"' then StepString(js, st)
    else if Blank(c) then Go(st.(pos := st.pos + 1))
    else StepPrimitive(js, st)
  }

  /** `jsmn_parse` from any parser state. */
  function Run(js: string, st: State): Result
    decreases |js| - st.pos
  {
    if !More(js, st.pos) then
      if LastOpen(st.toks, |st.toks|) == -1 then Go(st) else Fail(st, PART)
    else
      var r := Step(js, st);
      if r.Fail? then r else Run(js, r.st)
  }

  datatype Tally = Tally(n: nat) | Rejected(code: Code)

  /** `jsmn_parse` with a null token array: brackets are counted and never matched. */
  function CountRun(js: string, pos: nat): Tally
    decreases |js| - pos
  {
    if !More(js, pos) then Tally(0)
    else if js[pos] == '{' || js[pos] == '[' then Plus(CountRun(js, pos + 1))
    else if js[pos] == '}' || js[pos] == ']' || Blank(js[pos]) then CountRun(js, pos + 1)
    else if js[pos] == '"' then
      match StringScan(js, pos + 1)
      case Closed(e) => Plus(CountRun(js, e + 1))
      case Bad => Rejected(INVAL)
      case Cut => Rejected(PART)
    else
      match PrimEnd(js, pos)
      case Some(e) => Plus(CountRun(js, e))
      case None => Rejected(INVAL)
  }

  function Plus(t: Tally): Tally {
    match t case Tally(n) => Tally(n + 1) case Rejected(_) => t
  }
}
