/** The language of the tokenizer: exactly which texts are accepted, and the tokens of each of them. */
module JsmnGrammar {
  import opened JsmnLexis
  import opened JsmnRfc
  import opened JsmnSpec
  import opened JsmnStack
  import opened Sequences
  import JsonText

  /** Strings, primitives, separators and groups in brackets follow each other in any order. */
  datatype Nodes =
    | End
    | Space(c: char, rest: Nodes)
    | Str(s: seq<JsonText.Char>, rest: Nodes)
    | Prim(p: string, rest: Nodes)
    | Group(kind: Kind, inner: Nodes, rest: Nodes)

  predicate Container(kind: Kind) {
    kind == OBJECT || kind == ARRAY
  }

  /** Printable bytes of which the first one begins nothing else. */
  predicate Primitive(p: string) {
    && p != "" && p[0] != '"' && p[0] != '{' && p[0] != '['
    && forall k :: 0 <= k < |p| ==> PrimByte(p[k])
  }

  /** Only a separator, or the end of the text or group, can stand behind a primitive. */
  predicate Valid(n: Nodes) {
    match n
    case End => true
    case Space(c, rest) => Separator(c) && Valid(rest)
    case Str(s, rest) => Pieces(s) && Valid(rest)
    case Prim(p, rest) => Primitive(p) && (rest.End? || rest.Space?) && Valid(rest)
    case Group(kind, inner, rest) => Container(kind) && Valid(inner) && Valid(rest)
  }

  function Text(n: Nodes): string {
    match n
    case End => ""
    case Space(c, rest) => [c] + Text(rest)
    case Str(s, rest) => JsonText.Quoted(s) + Text(rest)
    case Prim(p, rest) => p + Text(rest)
    case Group(kind, inner, rest) => [LeftOf(kind)] + (Text(inner) + ([RightOf(kind)] + Text(rest)))
  }

  /** How many tokens stand side by side. */
  function Count(n: Nodes): nat {
    match n
    case End => 0
    case Space(_, rest) => Count(rest)
    case Str(_, rest) => 1 + Count(rest)
    case Prim(_, rest) => 1 + Count(rest)
    case Group(_, _, rest) => 1 + Count(rest)
  }

  /** The preorder walk of the nodes that start at byte `off`. */
  function Tokens(n: Nodes, off: nat): seq<Token> {
    match n
    case End => []
    case Space(_, rest) => Tokens(rest, off + 1)
    case Str(s, rest) => [JsonText.StringToken(s, off)] + Tokens(rest, off + |JsonText.Quoted(s)|)
    case Prim(p, rest) => [Token(PRIMITIVE, off, off + |p|, 0)] + Tokens(rest, off + |p|)
    case Group(kind, inner, rest) =>
      var end := off + |Text(inner)| + 2;
      [Token(kind, off, end, Count(inner))] + Tokens(inner, off + 1) + Tokens(rest, end)
  }

  // Every text of the language is accepted with its tokens.

  lemma {:induction false} AllTokensClosed(n: Nodes, off: nat)
    ensures AllClosed(Tokens(n, off))
  {
    hide Text;
    match n
    case End =>
    case Space(_, rest) => AllTokensClosed(rest, off + 1);
    case Str(s, rest) => AllTokensClosed(rest, off + |JsonText.Quoted(s)|);
    case Prim(p, rest) => AllTokensClosed(rest, off + |p|);
    case Group(kind, inner, rest) =>
      AllTokensClosed(inner, off + 1);
      AllTokensClosed(rest, off + |Text(inner)| + 2);
  }

  /** `k` more children for the enclosing token, if there is one. */
  function Enlarge(toks: seq<Token>, sup: int, k: nat): (r: seq<Token>)
    ensures |r| == |toks| && forall i :: 0 <= i < |toks| ==> Open(r[i]) == Open(toks[i])
  {
    if 0 <= sup < |toks| then Grow(toks, sup, k) else toks
  }

  /** The state after nodes of this length with these tokens. */
  function Past(st: State, len: nat, k: nat, toks: seq<Token>): State {
    State(st.pos + len, Enlarge(st.toks, st.sup, k) + toks, st.sup)
  }

  function After(st: State, n: Nodes): State {
    Past(st, |Text(n)|, Count(n), Tokens(n, st.pos))
  }

  lemma PastReady(st: State, len: nat, k: nat, toks: seq<Token>)
    requires Ready(st) && AllClosed(toks)
    ensures Ready(Past(st, len, k, toks))
  {
    StillOpen(st.toks, Enlarge(st.toks, st.sup, k), toks);
  }

  /** One token and then more of them. */
  lemma PastTwice(st: State, a: nat, first: seq<Token>, b: nat, k: nat, rest: seq<Token>)
    requires Ready(st)
    ensures Past(Past(st, a, 1, first), b, k, rest) == Past(st, a + b, 1 + k, first + rest)
  {
    if 0 <= st.sup < |st.toks| {
      ChildrenThenRest(st.toks, st.sup, 1, first, k, rest);
    }
  }

  lemma SpaceRuns(js: string, st: State)
    requires More(js, st.pos) && Separator(js[st.pos])
    ensures Run(js, st) == Run(js, st.(pos := st.pos + 1))
  {
  }

  lemma LeafIsPast(st: State, len: nat, t: Token)
    ensures Leaf(st, st.pos + len, t) == Past(st, len, 1, [t])
  {
  }

  lemma NothingPast(st: State)
    ensures Past(st, 0, 0, []) == st
  {
  }

  lemma PrimRuns(js: string, st: State, p: string)
    requires Has(js, st.pos, p) && Primitive(p) && Ends(js, st.pos + |p|)
    ensures Run(js, st) == Run(js, Past(st, |p|, 1, [Token(PRIMITIVE, st.pos, st.pos + |p|, 0)]))
  {
    hide Run;
    var e := st.pos + |p|;
    forall k | st.pos <= k < e ensures PrimByte(js[k]) {
      HasChar(js, st.pos, p, k - st.pos);
    }
    PrimEndIff(js, st.pos, e);
    HasChar(js, st.pos, p, 0);
    PrimStep(js, st, e);
    LeafIsPast(st, |p|, Token(PRIMITIVE, st.pos, e, 0));
  }

  lemma PrimStep(js: string, st: State, e: nat)
    requires More(js, st.pos) && PrimByte(js[st.pos]) && js[st.pos] != '"' && js[st.pos] != '{' && js[st.pos] != '['
    requires PrimEnd(js, st.pos) == Some(e)
    ensures Run(js, st) == Run(js, Leaf(st, e, Token(PRIMITIVE, st.pos, e, 0)))
  {
    hide PrimEnd;
  }

  /** What follows a primitive lets it end. */
  lemma NextEnds(js: string, p: nat, n: Nodes)
    requires Valid(n) && (n.End? || n.Space?) && Has(js, p, Text(n)) && Ends(js, p + |Text(n)|)
    ensures Ends(js, p)
  {
    if n.Space? {
      HasChar(js, p, Text(n), 0);
    }
  }

  lemma {:induction false} NodesRun(js: string, st: State, n: Nodes)
    requires Valid(n) && Ready(st) && Has(js, st.pos, Text(n)) && Ends(js, st.pos + |Text(n)|)
    ensures Run(js, st) == Run(js, After(st, n))
    decreases n, 1
  {
    hide Run, Has, Ends, Ready, Past, AllClosed, PrimByte;
    match n
    case End =>
      NothingPast(st);
    case Space(c, rest) =>
      HasSplit(js, st.pos, [c], Text(rest));
      HasChar(js, st.pos, [c], 0);
      SpaceRuns(js, st);
      SpacePast(st, |Text(rest)|, Count(rest), Tokens(rest, st.pos + 1));
      NodesRun(js, st.(pos := st.pos + 1), rest);
    case Str(s, rest) =>
      HasSplit(js, st.pos, JsonText.Quoted(s), Text(rest));
      StringRuns(js, st, s);
      LeafIsPast(st, |JsonText.Quoted(s)|, JsonText.StringToken(s, st.pos));
      ClosedOne(STRING, st.pos + 1, st.pos + 1 + |JsonText.CharsText(s)|, 0);
      ThenRest(js, st, |JsonText.Quoted(s)|, [JsonText.StringToken(s, st.pos)], rest);
    case Prim(p, rest) =>
      HasSplit(js, st.pos, p, Text(rest));
      NextEnds(js, st.pos + |p|, rest);
      PrimRuns(js, st, p);
      ClosedOne(PRIMITIVE, st.pos, st.pos + |p|, 0);
      ThenRest(js, st, |p|, [Token(PRIMITIVE, st.pos, st.pos + |p|, 0)], rest);
    case Group(kind, inner, rest) =>
      GroupRuns(js, st, n);
  }

  lemma SpacePast(st: State, len: nat, k: nat, toks: seq<Token>)
    ensures Past(st.(pos := st.pos + 1), len, k, toks) == Past(st, 1 + len, k, toks)
    ensures Ready(st) ==> Ready(st.(pos := st.pos + 1))
  {
  }

  /** The nodes behind a token that is complete. */
  lemma {:induction false} ThenRest(js: string, st: State, len: nat, toks: seq<Token>, rest: Nodes)
    requires Valid(rest) && Ready(st) && AllClosed(toks) && Has(js, st.pos + len, Text(rest))
    requires Ends(js, st.pos + len + |Text(rest)|) && Run(js, st) == Run(js, Past(st, len, 1, toks))
    ensures Run(js, st) == Run(js, Past(st, len + |Text(rest)|, 1 + Count(rest), toks + Tokens(rest, st.pos + len)))
    decreases rest, 2
  {
    hide Run, Has, Ends, Ready, AllClosed, Valid, Text, Tokens, Count, Enlarge;
    PastReady(st, len, 1, toks);
    NodesRun(js, Past(st, len, 1, toks), rest);
    PastTwice(st, len, toks, |Text(rest)|, Count(rest), Tokens(rest, st.pos + len));
  }

  lemma GroupParts(js: string, p: nat, n: Nodes)
    requires n.Group? && Valid(n) && Has(js, p, Text(n))
    ensures var end := p + 1 + |Text(n.inner)|;
            && Has(js, p, [LeftOf(n.kind)]) && Has(js, p + 1, Text(n.inner)) && Has(js, end, [RightOf(n.kind)])
            && Has(js, end + 1, Text(n.rest)) && Ends(js, end) && |Text(n)| == |Text(n.inner)| + 2 + |Text(n.rest)|
  {
    hide Has;
    var right := [RightOf(n.kind)];
    HasSplit(js, p, [LeftOf(n.kind)], Text(n.inner) + (right + Text(n.rest)));
    HasSplit(js, p + 1, Text(n.inner), right + Text(n.rest));
    HasSplit(js, p + 1 + |Text(n.inner)|, right, Text(n.rest));
    HasChar(js, p + 1 + |Text(n.inner)|, right, 0);
  }

  /** The state inside a group is one in which children are added to it. */
  lemma InsideGroup(st: State, kind: Kind, len: nat, k: nat, toks: seq<Token>)
    ensures var in1 := StepOpen(st, kind);
            0 <= in1.sup < |in1.toks| && Past(in1, len, k, toks) == AfterChildren(in1, len, k, toks)
  {
  }

  lemma GroupIsPast(st: State, len: nat, t: Token, inside: seq<Token>)
    ensures State(st.pos + len, Bump(st.toks, st.sup) + ([t] + inside), st.sup) == Past(st, len, 1, [t] + inside)
  {
  }

  lemma {:induction false} GroupRuns(js: string, st: State, n: Nodes)
    requires n.Group? && Valid(n) && Ready(st) && Has(js, st.pos, Text(n)) && Ends(js, st.pos + |Text(n)|)
    ensures Run(js, st) == Run(js, After(st, n))
    decreases n, 0
  {
    hide Run, Has, Ends, Ready, AllClosed, Text, StepOpen, Past, Bump, AfterChildren;
    GroupParts(js, st.pos, n);
    var body, k, inside := Text(n.inner), Count(n.inner), Tokens(n.inner, st.pos + 1);
    var in1 := StepOpen(st, n.kind);
    OpenReady(st, n.kind, st.pos + 1);
    Opened(st, n.kind);
    NodesRun(js, in1, n.inner);
    InsideGroup(st, n.kind, |body|, k, inside);
    AllTokensClosed(n.inner, st.pos + 1);
    HasNothing(js, st.pos + 1, body);
    ContainerRuns(js, st, n.kind, "", body, k, inside);
    var t := Token(n.kind, st.pos, st.pos + |body| + 2, k);
    GroupIsPast(st, |body| + 2, t, inside);
    ClosedOne(n.kind, st.pos, st.pos + |body| + 2, k);
    ClosedBoth([t], inside);
    ThenRest(js, st, |body| + 2, [t] + inside, n.rest);
  }

  lemma Opened(st: State, kind: Kind)
    ensures StepOpen(st, kind).(pos := st.pos + 1) == StepOpen(st, kind)
  {
  }

  lemma HasNothing(js: string, p: nat, s: string)
    requires Has(js, p, s)
    ensures Has(js, p, "")
  {
  }

  // Every text that is accepted is one of the language.

  /** The nodes that start at `p` are followed by the bracket that closes the top of the stack, behind which
      the text goes on as it should, or by the end of the text if nothing is open. */
  ghost predicate Reads(js: string, p: nat, stack: seq<Kind>, n: Nodes) {
    var e := p + |Text(n)|;
    && Valid(n) && Has(js, p, Text(n))
    && if stack == [] then !More(js, e) else ClosedBehind(js, e, stack)
  }

  ghost predicate ClosedBehind(js: string, e: nat, stack: seq<Kind>)
    requires stack != []
  {
    var top := stack[|stack| - 1];
    && Container(top) && More(js, e) && js[e] == RightOf(top)
    && Brackets(js, e + 1).Some? && Accepts(Brackets(js, e + 1).value, stack[..|stack| - 1])
  }

  ghost predicate Goes(js: string, p: nat, stack: seq<Kind>) {
    Brackets(js, p).Some? && Accepts(Brackets(js, p).value, stack)
  }

  lemma {:induction false} ReadNodes(js: string, p: nat, stack: seq<Kind>) returns (n: Nodes)
    requires p <= |js| && Goes(js, p, stack)
    ensures Reads(js, p, stack, n)
    decreases |js| - p
  {
    hide Goes, Reads;
    if !More(js, p) || js[p] == '}' || js[p] == ']' {
      n := End;
      ReadsEnd(js, p, stack);
    } else if js[p] == '{' || js[p] == '[' {
      var kind := if js[p] == '{' then OBJECT else ARRAY;
      GoesOpen(js, p, stack, kind);
      var inner := ReadNodes(js, p + 1, stack + [kind]);
      var e := InnerReads(js, p + 1, stack, kind, inner);
      var rest := ReadNodes(js, e + 1, stack);
      n := Group(kind, inner, rest);
      ReadsGroup(js, p, stack, n);
    } else if js[p] == '"' {
      var s, e := GoesString(js, p, stack);
      var rest := ReadNodes(js, e + 1, stack);
      n := Str(s, rest);
      ReadsMore(js, p, stack, JsonText.Quoted(s), n);
    } else if Separator(js[p]) {
      GoesSpace(js, p, stack);
      var rest := ReadNodes(js, p + 1, stack);
      n := Space(js[p], rest);
      ReadsMore(js, p, stack, [js[p]], n);
    } else {
      var e := GoesPrim(js, p, stack);
      var rest := ReadNodes(js, e, stack);
      n := Prim(js[p..e], rest);
      ReadsEnds(js, e, stack, rest);
      ReadsMore(js, p, stack, js[p..e], n);
    }
  }

  lemma ReadsEnd(js: string, p: nat, stack: seq<Kind>)
    requires p <= |js| && Goes(js, p, stack) && (!More(js, p) || js[p] == '}' || js[p] == ']')
    ensures Reads(js, p, stack, End)
  {
    if More(js, p) {
      var v := Brackets(js, p + 1);
      var kind := if js[p] == '}' then OBJECT else ARRAY;
      assert ([Right(kind)] + v.value)[1..] == v.value;
    }
  }

  lemma GoesOpen(js: string, p: nat, stack: seq<Kind>, kind: Kind)
    requires Goes(js, p, stack) && More(js, p) && Container(kind) && js[p] == LeftOf(kind)
    ensures Goes(js, p + 1, stack + [kind])
  {
    var v := Brackets(js, p + 1);
    assert ([Left(kind)] + v.value)[1..] == v.value;
  }

  lemma InnerReads(js: string, p: nat, stack: seq<Kind>, kind: Kind, inner: Nodes) returns (e: nat)
    requires Reads(js, p, stack + [kind], inner)
    ensures e == p + |Text(inner)| && More(js, e) && js[e] == RightOf(kind) && Goes(js, e + 1, stack)
  {
    e := p + |Text(inner)|;
    assert (stack + [kind])[..|stack|] == stack;
  }

  lemma GoesString(js: string, p: nat, stack: seq<Kind>) returns (s: seq<JsonText.Char>, e: nat)
    requires Goes(js, p, stack) && More(js, p) && js[p] == '"'
    ensures Pieces(s) && Has(js, p, JsonText.Quoted(s)) && e + 1 == p + |JsonText.Quoted(s)| && e < |js|
    ensures Goes(js, e + 1, stack)
  {
    hide StringScan, Pieces, JsonText.CharsText;
    e := StringScan(js, p + 1).at;
    ClosesIff(js, p + 1, e);
    s :| Pieces(s) && JsonText.CharsText(s) == js[p + 1..e];
    QuotedAt(js, p, e, s);
  }

  lemma QuotedAt(js: string, p: nat, e: nat, s: seq<JsonText.Char>)
    requires p < e < |js| && js[p] == '"' == js[e] && JsonText.CharsText(s) == js[p + 1..e]
    ensures Has(js, p, JsonText.Quoted(s)) && e + 1 == p + |JsonText.Quoted(s)|
  {
    hide JsonText.CharsText;
    assert JsonText.Quoted(s) == js[p..e + 1];
  }

  lemma GoesSpace(js: string, p: nat, stack: seq<Kind>)
    requires Goes(js, p, stack) && More(js, p) && Separator(js[p])
    ensures Goes(js, p + 1, stack)
  {
  }

  lemma GoesPrim(js: string, p: nat, stack: seq<Kind>) returns (e: nat)
    requires Goes(js, p, stack) && !Ends(js, p) && js[p] != '"' && js[p] != '{' && js[p] != '['
    ensures p < e <= |js| && Primitive(js[p..e]) && Ends(js, e) && Goes(js, e, stack)
  {
    hide PrimEnd;
    e := PrimEnd(js, p).value;
    PrimEndIff(js, p, e);
  }

  /** Where a primitive ends no token begins. */
  lemma ReadsEnds(js: string, p: nat, stack: seq<Kind>, n: Nodes)
    requires Reads(js, p, stack, n) && Ends(js, p)
    ensures n.End? || n.Space?
  {
    if !n.End? {
      assert Text(n) != "";
      HasChar(js, p, Text(n), 0);
    }
  }

  lemma ReadsMore(js: string, p: nat, stack: seq<Kind>, s: string, n: Nodes)
    requires !n.End? && !n.Group? && Has(js, p, s) && Text(n) == s + Text(n.rest) && Reads(js, p + |s|, stack, n.rest)
    requires Valid(n.rest) ==> Valid(n)
    ensures Reads(js, p, stack, n)
  {
    HasJoin(js, p, s, Text(n.rest));
  }

  lemma ReadsGroup(js: string, p: nat, stack: seq<Kind>, n: Nodes)
    requires n.Group? && More(js, p) && Container(n.kind) && js[p] == LeftOf(n.kind)
    requires Reads(js, p + 1, stack + [n.kind], n.inner)
    requires Reads(js, p + 1 + |Text(n.inner)| + 1, stack, n.rest)
    ensures Reads(js, p, stack, n)
  {
    var right := [RightOf(n.kind)];
    var e := p + 1 + |Text(n.inner)|;
    assert Has(js, p, [LeftOf(n.kind)]) && Has(js, e, right);
    hide Has, Accepts, Brackets;
    HasJoin(js, e, right, Text(n.rest));
    HasJoin(js, p + 1, Text(n.inner), right + Text(n.rest));
    HasJoin(js, p, [LeftOf(n.kind)], Text(n.inner) + (right + Text(n.rest)));
  }

  // Both together.

  /** The text is that of the nodes, up to its end. */
  ghost predicate Spells(js: string, n: Nodes) {
    Valid(n) && Has(js, 0, Text(n)) && !More(js, |Text(n)|)
  }

  /** A text of the language is accepted and its tokens are the walk of its nodes. */
  lemma TokensOf(js: string, n: Nodes)
    requires Spells(js, n)
    ensures Run(js, Init) == Go(State(|Text(n)|, Tokens(n, 0), -1))
  {
    NodesRun(js, Init, n);
    var done := After(Init, n);
    AllTokensClosed(n, 0);
    assert done == State(|Text(n)|, Tokens(n, 0), -1);
    assert LastOpen(done.toks, |done.toks|) == -1;
  }

  /** A fresh parse succeeds if and only if the text is in the language. */
  lemma SucceedsIff(js: string)
    ensures Run(js, Init).Go? <==> exists n :: Spells(js, n)
  {
    hide Run, Spells;
    if Run(js, Init).Go? {
      RunIsStack(js, Init);
      var n := ReadNodes(js, 0, []);
      assert Spells(js, n) by { SpellsWhole(js, n); }
    }
    forall n | Spells(js, n) ensures Run(js, Init).Go? {
      TokensOf(js, n);
    }
  }

  lemma SpellsWhole(js: string, n: Nodes)
    requires Reads(js, 0, [], n)
    ensures Spells(js, n)
  {
  }
}
