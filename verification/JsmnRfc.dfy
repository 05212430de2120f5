/** Every RFC 8259 text is accepted, and the token array is the preorder walk of its value. */
module JsmnRfc {
  import opened JsmnSpec
  import opened Sequences
  import opened JsmnLexis
  import opened JsonText
  import JsmnInvariant

  lemma OpenRuns(js: string, st: State, kind: Kind)
    requires More(js, st.pos)
    requires (kind == OBJECT && js[st.pos] == '{') || (kind == ARRAY && js[st.pos] == '[')
    ensures Run(js, st) == Run(js, StepOpen(st, kind))
  {
  }

  lemma CloseRuns(js: string, st: State, kind: Kind)
    requires More(js, st.pos) && StepClose(st, kind).Go?
    requires (kind == OBJECT && js[st.pos] == '}') || (kind == ARRAY && js[st.pos] == ']')
    ensures Run(js, st) == Run(js, StepClose(st, kind).st)
  {
  }

  lemma BlankRuns(js: string, st: State)
    requires More(js, st.pos) && Blank(js[st.pos])
    ensures Run(js, st) == Run(js, st.(pos := st.pos + 1))
  {
  }

  lemma {:induction false} BlanksRun(js: string, st: State, w: string)
    requires Has(js, st.pos, w) && forall k :: 0 <= k < |w| ==> Blank(w[k])
    ensures Run(js, st) == Run(js, st.(pos := st.pos + |w|))
    decreases |w|
  {
    hide Run;
    if w != "" {
      HasChar(js, st.pos, w, 0);
      assert w == w[..1] + w[1..];
      HasSplit(js, st.pos, w[..1], w[1..]);
      BlankRuns(js, st);
      BlanksRun(js, st.(pos := st.pos + 1), w[1..]);
    }
  }

  lemma WsRuns(js: string, st: State, w: string)
    requires Has(js, st.pos, w) && Ws(w)
    ensures Run(js, st) == Run(js, st.(pos := st.pos + |w|))
  {
    hide Run, Has;
    BlanksRun(js, st, w);
  }

  /** A byte that may stand in a literal or number. */
  predicate PrimChar(c: char) {
    PrimByte(c) && c != '{' && c != '[' && c != '"'
  }

  predicate PrimChars(s: string) {
    forall k :: 0 <= k < |s| ==> PrimChar(s[k])
  }

  lemma PrimitiveRuns(js: string, st: State, s: string)
    requires Has(js, st.pos, s) && s != "" && PrimChars(s)
    requires Ends(js, st.pos + |s|)
    ensures Run(js, st)
         == Run(js, Leaf(st, st.pos + |s|, Token(PRIMITIVE, st.pos, st.pos + |s|, 0)))
  {
    HasChar(js, st.pos, s, 0);
    var e := st.pos + |s|;
    forall k | st.pos <= k < e ensures PrimByte(js[k]) {
      HasChar(js, st.pos, s, k - st.pos);
    }
    PrimEndIff(js, st.pos, e);
  }

  lemma NumberChars(n: Number)
    requires ValidNumber(n)
    ensures NumberText(n) != "" && PrimChars(NumberText(n))
  {
  }

  lemma LiteralChars(v: Value)
    requires Valid(v) && !v.Str? && !v.Arr? && !v.Obj?
    ensures Text(v) != "" && PrimChars(Text(v))
  {
    if v.Num? {
      NumberChars(v.n);
    }
  }

  lemma StringStep(js: string, st: State, e: nat)
    requires More(js, st.pos) && js[st.pos] == '"' && StringScan(js, st.pos + 1) == Closed(e)
    ensures Run(js, st) == Run(js, Leaf(st, e + 1, Token(STRING, st.pos + 1, e, 0)))
  {
    hide StringScan;
  }

  lemma StringRuns(js: string, st: State, s: seq<Char>)
    requires Pieces(s) && Has(js, st.pos, Quoted(s))
    ensures Run(js, st) == Run(js, Leaf(st, st.pos + |Quoted(s)|, StringToken(s, st.pos)))
  {
    hide Run, Has, Pieces, CharsText;
    assert Quoted(s) == "\"" + (CharsText(s) + "\"");
    HasSplit(js, st.pos, "\"", CharsText(s) + "\"");
    HasChar(js, st.pos, "\"", 0);
    HasSplit(js, st.pos + 1, CharsText(s), "\"");
    HasChar(js, st.pos + 1 + |CharsText(s)|, "\"", 0);
    PiecesScan(js, st.pos + 1, s);
    StringStep(js, st, st.pos + 1 + |CharsText(s)|);
  }

  /** What the text of a nonempty item list says about its parts. */
  lemma ItemsParts(js: string, p: nat, l: Items)
    requires l.Item? && Has(js, p, ItemsText(l))
    ensures var val := p + |l.before|;
            var end := val + |Text(l.v)| + |l.after|;
            && Has(js, p, l.before) && Has(js, val, Text(l.v) + l.after)
            && if l.rest.NoItems? then p + |ItemsText(l)| == end
               else
                 && Has(js, end, ",") && Has(js, end + 1, ItemsText(l.rest))
                 && p + |ItemsText(l)| == end + 1 + |ItemsText(l.rest)|
  {
    hide Has, Text;
    var tail := if l.rest.NoItems? then "" else "," + ItemsText(l.rest);
    var val := Text(l.v) + l.after;
    HasSplit(js, p, l.before, val + tail);
    HasSplit(js, p + |l.before|, val, tail);
    if l.rest.Item? {
      HasSplit(js, p + |l.before| + |val|, ",", ItemsText(l.rest));
    }
  }

  lemma MembersParts(js: string, p: nat, l: Members)
    requires l.Member? && Has(js, p, MembersText(l))
    ensures var key := p + |l.before|;
            var val := key + |Quoted(l.key)| + |l.mid| + 1 + |l.gap|;
            var end := val + |Text(l.v)| + |l.after|;
            && Has(js, p, l.before) && Has(js, key, Quoted(l.key))
            && Has(js, key + |Quoted(l.key)|, l.mid + ":" + l.gap)
            && Has(js, val, Text(l.v) + l.after)
            && if l.rest.NoMembers? then p + |MembersText(l)| == end
               else
                 && Has(js, end, ",") && Has(js, end + 1, MembersText(l.rest))
                 && p + |MembersText(l)| == end + 1 + |MembersText(l.rest)|
  {
    hide Has, Text, Quoted;
    var tail := if l.rest.NoMembers? then "" else "," + MembersText(l.rest);
    var colon := l.mid + ":" + l.gap;
    var val := Text(l.v) + l.after;
    HasSplit(js, p, l.before, Quoted(l.key) + (colon + (val + tail)));
    var key := p + |l.before|;
    HasSplit(js, key, Quoted(l.key), colon + (val + tail));
    HasSplit(js, key + |Quoted(l.key)|, colon, val + tail);
    var at := key + |Quoted(l.key)| + |colon|;
    HasSplit(js, at, val, tail);
    if l.rest.Member? {
      HasSplit(js, at + |val|, ",", MembersText(l.rest));
    }
  }

  /** `n` more children for token `sup`. */
  function Grow(toks: seq<Token>, sup: nat, n: nat): (r: seq<Token>)
    requires sup < |toks|
    ensures |r| == |toks|
  {
    toks[sup := toks[sup].(size := toks[sup].size + n)]
  }

  ghost predicate AllClosed(toks: seq<Token>) {
    forall t :: t in toks ==> !Open(t)
  }

  lemma ClosedBoth(a: seq<Token>, b: seq<Token>)
    requires AllClosed(a) && AllClosed(b)
    ensures AllClosed(a + b)
  {
  }

  lemma ClosedOne(kind: Kind, start: int, end: nat, size: nat)
    ensures AllClosed([Token(kind, start, end, size)])
  {
  }

  lemma {:induction false} TokensClosed(v: Value, off: nat)
    ensures AllClosed(Tokens(v, off))
  {
    hide AllClosed, Text, ItemsTokens, MembersTokens, CharsText;
    var end := off + |Text(v)|;
    match v
    case Str(s) => ClosedOne(STRING, off + 1, off + 1 + |CharsText(s)|, 0);
    case Arr(pad, items) =>
      ItemsClosed(items, off + 1 + |pad|);
      ClosedOne(ARRAY, off, end, ItemCount(items));
      ClosedBoth([Token(ARRAY, off, end, ItemCount(items))], ItemsTokens(items, off + 1 + |pad|));
    case Obj(pad, members) =>
      MembersClosed(members, off + 1 + |pad|);
      ClosedOne(OBJECT, off, end, 2 * MemberCount(members));
      ClosedBoth([Token(OBJECT, off, end, 2 * MemberCount(members))], MembersTokens(members, off + 1 + |pad|));
    case _ => ClosedOne(PRIMITIVE, off, end, 0);
  }

  lemma {:induction false} ItemsClosed(l: Items, off: nat)
    ensures AllClosed(ItemsTokens(l, off))
  {
    hide Tokens, Text;
    if l.Item? {
      TokensClosed(l.v, off + |l.before|);
      ItemsClosed(l.rest, off + |l.before| + |Text(l.v)| + |l.after| + 1);
    }
  }

  lemma {:induction false} MembersClosed(l: Members, off: nat)
    ensures AllClosed(MembersTokens(l, off))
  {
    hide Tokens, Text, Quoted;
    if l.Member? {
      var val := off + |l.before| + |Quoted(l.key)| + |l.mid| + 1 + |l.gap|;
      TokensClosed(l.v, val);
      MembersClosed(l.rest, val + |Text(l.v)| + |l.after| + 1);
    }
  }

  /** Finished tokens at the end and larger sizes leave the innermost open token as it is. */
  lemma StillOpen(a: seq<Token>, b: seq<Token>, more: seq<Token>)
    requires |a| == |b| && (forall k :: 0 <= k < |a| ==> Open(a[k]) == Open(b[k])) && AllClosed(more)
    ensures LastOpen(b + more, |b + more|) == LastOpen(a, |a|)
  {
    JsmnInvariant.LastOpenSkip(b + more, |b|, |b + more|);
    JsmnInvariant.LastOpenSame(a, b + more, |a|);
  }

  ghost predicate Ready(st: State) {
    st.sup == LastOpen(st.toks, |st.toks|)
  }

  /** The state after a value whose text starts at `st.pos`. */
  function AfterValue(st: State, v: Value): State {
    State(st.pos + |Text(v)|, Bump(st.toks, st.sup) + Tokens(v, st.pos), st.sup)
  }

  lemma {:induction false} ValueRuns(js: string, st: State, v: Value)
    requires Valid(v) && Ready(st) && Has(js, st.pos, Text(v)) && Ends(js, st.pos + |Text(v)|)
    ensures Run(js, st) == Run(js, AfterValue(st, v))
    decreases v, 2
  {
    hide Run, Has, PrimChars, Ends, Ready, ItemsTokens, MembersTokens;
    match v
    case Str(s) =>
      assert Pieces(s);
      StringRuns(js, st, s);
    case Arr(pad, items) =>
      ArrayRuns(js, st, v);
    case Obj(pad, members) =>
      ObjectRuns(js, st, v);
    case _ =>
      LiteralChars(v);
      PrimitiveRuns(js, st, Text(v));
  }

  /** The state after the rest of a container's children. */
  function AfterChildren(st: State, len: nat, n: nat, toks: seq<Token>): State
    requires 0 <= st.sup < |st.toks|
  {
    State(st.pos + len, Grow(st.toks, st.sup, n) + toks, st.sup)
  }

  /** Closing a container whose children are finished gives back the enclosing state. */
  lemma CloseFinishes(st: State, kind: Kind, at: nat, len: nat, n: nat, inside: seq<Token>)
    requires Ready(st) && AllClosed(inside)
    ensures StepClose(AfterChildren(StepOpen(st, kind).(pos := at), len, n, inside), kind)
         == Go(State(at + len + 1,
                     Bump(st.toks, st.sup) + ([Token(kind, st.pos, at + len + 1, n)] + inside), st.sup))
  {
    var k := |st.toks|;
    var begun := Grow(StepOpen(st, kind).toks, k, n);
    var full := begun + inside;
    StillOpen(begun, begun, inside);
    assert LastOpen(begun, k + 1) == k;
    var toks := full[k := full[k].(end := at + len + 1)];
    JsmnInvariant.LastOpenSame(toks, st.toks, k);
    assert toks == Bump(st.toks, st.sup) + ([Token(kind, st.pos, at + len + 1, n)] + inside);
  }

  /** An open bracket, whitespace, and what follows. */
  lemma ContainerParts(js: string, p: nat, left: char, pad: string, body: string, right: char)
    requires Has(js, p, [left] + (pad + (body + [right])))
    ensures Has(js, p, [left]) && Has(js, p + 1, pad) && Has(js, p + 1 + |pad|, body)
    ensures Has(js, p + 1 + |pad| + |body|, [right])
  {
    hide Has;
    HasSplit(js, p, [left], pad + (body + [right]));
    HasSplit(js, p + 1, pad, body + [right]);
    HasSplit(js, p + 1 + |pad|, body, [right]);
  }

  /** A container whose children run as they should runs as it should. */
  lemma ContainerRuns(js: string, st: State, kind: Kind, pad: string, body: string, n: nat,
                      inside: seq<Token>)
    requires Ready(st) && Ws(pad) && (kind == OBJECT || kind == ARRAY) && AllClosed(inside)
    requires Has(js, st.pos, [LeftOf(kind)]) && Has(js, st.pos + 1, pad)
    requires Has(js, st.pos + 1 + |pad| + |body|, [RightOf(kind)])
    requires var st2 := StepOpen(st, kind).(pos := st.pos + 1 + |pad|);
             Run(js, st2) == Run(js, AfterChildren(st2, |body|, n, inside))
    ensures var end := st.pos + |pad| + |body| + 2;
            var toks := Bump(st.toks, st.sup) + ([Token(kind, st.pos, end, n)] + inside);
            Run(js, st) == Run(js, State(end, toks, st.sup))
  {
    hide Run, StepClose, Has, Grow, Bump, Ws, Ready, AllClosed;
    HasChar(js, st.pos, [LeftOf(kind)], 0);
    HasChar(js, st.pos + 1 + |pad| + |body|, [RightOf(kind)], 0);
    OpenRuns(js, st, kind);
    var st1 := StepOpen(st, kind);
    WsRuns(js, st1, pad);
    var at := st.pos + 1 + |pad|;
    CloseFinishes(st, kind, at, |body|, n, inside);
    CloseRuns(js, AfterChildren(st1.(pos := at), |body|, n, inside), kind);
  }

  function LeftOf(kind: Kind): char {
    if kind == OBJECT then '{' else '['
  }

  function RightOf(kind: Kind): char {
    if kind == OBJECT then '}' else ']'
  }

  /** Inside a new container the innermost open token is the container. */
  lemma OpenReady(st: State, kind: Kind, pos: nat)
    ensures Ready(StepOpen(st, kind).(pos := pos)) && 0 <= StepOpen(st, kind).sup
  {
  }

  lemma ArrayParts(js: string, p: nat, v: Value)
    requires v.Arr? && Valid(v) && Has(js, p, Text(v))
    ensures var body := ItemsText(v.items);
            && Ws(v.pad) && ValidItems(v.items) && |Text(v)| == |v.pad| + |body| + 2
            && Has(js, p, "[") && Has(js, p + 1, v.pad) && Has(js, p + 1 + |v.pad|, body)
            && Has(js, p + 1 + |v.pad| + |body|, "]") && Ends(js, p + 1 + |v.pad| + |body|)
    ensures Tokens(v, p) == [Token(ARRAY, p, p + |Text(v)|, ItemCount(v.items))]
                            + ItemsTokens(v.items, p + 1 + |v.pad|)
  {
    hide Has, ItemsText, ItemsTokens;
    var body := ItemsText(v.items);
    ContainerParts(js, p, '[', v.pad, body, ']');
    HasChar(js, p + 1 + |v.pad| + |body|, "]", 0);
  }

  lemma ObjectParts(js: string, p: nat, v: Value)
    requires v.Obj? && Valid(v) && Has(js, p, Text(v))
    ensures var body := MembersText(v.members);
            && Ws(v.pad) && ValidMembers(v.members) && |Text(v)| == |v.pad| + |body| + 2
            && Has(js, p, "{") && Has(js, p + 1, v.pad) && Has(js, p + 1 + |v.pad|, body)
            && Has(js, p + 1 + |v.pad| + |body|, "}") && Ends(js, p + 1 + |v.pad| + |body|)
    ensures Tokens(v, p) == [Token(OBJECT, p, p + |Text(v)|, 2 * MemberCount(v.members))]
                            + MembersTokens(v.members, p + 1 + |v.pad|)
  {
    hide Has, MembersText, MembersTokens;
    var body := MembersText(v.members);
    ContainerParts(js, p, '{', v.pad, body, '}');
    HasChar(js, p + 1 + |v.pad| + |body|, "}", 0);
  }

  lemma {:induction false} ArrayRuns(js: string, st: State, v: Value)
    requires v.Arr? && Valid(v) && Ready(st) && Has(js, st.pos, Text(v))
    ensures Run(js, st) == Run(js, AfterValue(st, v))
    decreases v, 1
  {
    hide Run, Has, Ends, StepOpen, Ready, Text, Tokens, ItemsText, ItemsTokens;
    ArrayParts(js, st.pos, v);
    var at := st.pos + 1 + |v.pad|;
    OpenReady(st, ARRAY, at);
    ItemsRun(js, StepOpen(st, ARRAY).(pos := at), v.items);
    ItemsClosed(v.items, at);
    ContainerRuns(js, st, ARRAY, v.pad, ItemsText(v.items), ItemCount(v.items),
                  ItemsTokens(v.items, at));
  }

  lemma {:induction false} ObjectRuns(js: string, st: State, v: Value)
    requires v.Obj? && Valid(v) && Ready(st) && Has(js, st.pos, Text(v))
    ensures Run(js, st) == Run(js, AfterValue(st, v))
    decreases v, 1
  {
    hide Run, Has, Ends, StepOpen, Ready, Text, Tokens, MembersText, MembersTokens;
    ObjectParts(js, st.pos, v);
    var at := st.pos + 1 + |v.pad|;
    OpenReady(st, OBJECT, at);
    MembersRun(js, StepOpen(st, OBJECT).(pos := at), v.members);
    MembersClosed(v.members, at);
    ContainerRuns(js, st, OBJECT, v.pad, MembersText(v.members), 2 * MemberCount(v.members),
                  MembersTokens(v.members, at));
  }

  /** A value inside a container, followed by whitespace. */
  lemma {:induction false} PaddedValueRuns(js: string, st: State, v: Value, after: string)
    requires Valid(v) && Ready(st) && Ws(after)
    requires Has(js, st.pos, Text(v) + after) && Ends(js, st.pos + |Text(v)| + |after|)
    ensures var next := AfterValue(st, v).(pos := st.pos + |Text(v)| + |after|);
            Run(js, st) == Run(js, next) && Ready(next)
    decreases v, 3
  {
    hide Run, Tokens;
    var mid := st.pos + |Text(v)|;
    HasSplit(js, st.pos, Text(v), after);
    if after != "" {
      HasChar(js, mid, after, 0);
    }
    ValueRuns(js, st, v);
    WsRuns(js, AfterValue(st, v), after);
    TokensClosed(v, st.pos);
    StillOpen(st.toks, Bump(st.toks, st.sup), Tokens(v, st.pos));
  }

  /** Finished children and then more of them add up. */
  lemma ChildrenThenRest(toks: seq<Token>, sup: nat, m: nat, first: seq<Token>, n: nat,
                         rest: seq<Token>)
    requires sup < |toks|
    ensures Grow(Grow(toks, sup, m) + first, sup, n) + rest
         == Grow(toks, sup, m + n) + (first + rest)
  {
  }

  lemma {:induction false} ItemsRun(js: string, st: State, l: Items)
    requires ValidItems(l) && Ready(st) && st.sup >= 0
    requires Has(js, st.pos, ItemsText(l)) && Ends(js, st.pos + |ItemsText(l)|)
    ensures Run(js, st)
         == Run(js, AfterChildren(st, |ItemsText(l)|, ItemCount(l), ItemsTokens(l, st.pos)))
    decreases l, 4
  {
    hide Run, Tokens, Text;
    if l.Item? {
      ItemsParts(js, st.pos, l);
      WsRuns(js, st, l.before);
      var st1 := st.(pos := st.pos + |l.before|);
      var end := st1.pos + |Text(l.v)| + |l.after|;
      if l.rest.Item? {
        HasChar(js, end, ",", 0);
      }
      PaddedValueRuns(js, st1, l.v, l.after);
      var st2 := AfterValue(st1, l.v).(pos := end);
      var child := Tokens(l.v, st1.pos);
      var rest := ItemsTokens(l.rest, end + 1);
      ChildrenThenRest(st.toks, st.sup, 1, child, ItemCount(l.rest), rest);
      if l.rest.Item? {
        BlankRuns(js, st2);
        ItemsRun(js, st2.(pos := end + 1), l.rest);
      } else {
        assert Grow(st2.toks, st.sup, 0) + [] == st2.toks;
      }
    } else {
      assert Grow(st.toks, st.sup, 0) + [] == st.toks;
    }
  }

  /** A member's key, colon and surrounding whitespace. */
  lemma KeyRuns(js: string, st: State, key: seq<Char>, mid: string, gap: string)
    requires ValidChars(key) && Ws(mid) && Ws(gap) && Ready(st)
    requires Has(js, st.pos, Quoted(key)) && Has(js, st.pos + |Quoted(key)|, mid + ":" + gap)
    ensures var next := Leaf(st, st.pos + |Quoted(key)| + |mid| + 1 + |gap|, StringToken(key, st.pos));
            Run(js, st) == Run(js, next) && Ready(next)
  {
    hide Run, Quoted;
    StringRuns(js, st, key);
    BlanksRun(js, Leaf(st, st.pos + |Quoted(key)|, StringToken(key, st.pos)), mid + ":" + gap);
    StillOpen(st.toks, Bump(st.toks, st.sup), [StringToken(key, st.pos)]);
  }

  /** Where the value of the first member starts, and where what follows the member starts. */
  function ValueAt(l: Members, p: nat): nat
    requires l.Member?
  {
    p + |l.before| + |Quoted(l.key)| + |l.mid| + 1 + |l.gap|
  }

  function MemberEnd(l: Members, p: nat): nat
    requires l.Member?
  {
    ValueAt(l, p) + |Text(l.v)| + |l.after|
  }

  function MemberTokens(l: Members, p: nat): seq<Token>
    requires l.Member?
  {
    [StringToken(l.key, p + |l.before|)] + Tokens(l.v, ValueAt(l, p))
  }

  lemma {:induction false} MemberRuns(js: string, st: State, l: Members)
    requires l.Member? && ValidMembers(l) && Ready(st) && st.sup >= 0
    requires Has(js, st.pos, MembersText(l)) && Ends(js, MemberEnd(l, st.pos))
    ensures var next := State(MemberEnd(l, st.pos),
                              Grow(st.toks, st.sup, 2) + MemberTokens(l, st.pos), st.sup);
            Run(js, st) == Run(js, next) && Ready(next)
    decreases l, 3
  {
    hide Run, Tokens, Text, Quoted, Has;
    MembersParts(js, st.pos, l);
    WsRuns(js, st, l.before);
    var st1 := st.(pos := st.pos + |l.before|);
    KeyRuns(js, st1, l.key, l.mid, l.gap);
    var key := StringToken(l.key, st1.pos);
    var st2 := Leaf(st1, ValueAt(l, st.pos), key);
    PaddedValueRuns(js, st2, l.v, l.after);
    var val := Tokens(l.v, st2.pos);
    ChildrenThenRest(st.toks, st.sup, 1, [key], 1, val);
  }

  lemma MembersTokensSplit(l: Members, p: nat)
    requires l.Member?
    ensures MembersTokens(l, p) == MemberTokens(l, p) + MembersTokens(l.rest, MemberEnd(l, p) + 1)
  {
    hide Tokens, Text, Quoted, StringToken;
  }

  lemma {:induction false} MembersRun(js: string, st: State, l: Members)
    requires ValidMembers(l) && Ready(st) && st.sup >= 0
    requires Has(js, st.pos, MembersText(l)) && Ends(js, st.pos + |MembersText(l)|)
    ensures Run(js, st)
         == Run(js, AfterChildren(st, |MembersText(l)|, 2 * MemberCount(l), MembersTokens(l, st.pos)))
    decreases l, 4
  {
    hide Run, Tokens, Text, Quoted, Has, MembersTokens, MemberTokens;
    if l.Member? {
      MembersParts(js, st.pos, l);
      var end := MemberEnd(l, st.pos);
      if l.rest.Member? {
        HasChar(js, end, ",", 0);
      }
      MemberRuns(js, st, l);
      var next := State(end, Grow(st.toks, st.sup, 2) + MemberTokens(l, st.pos), st.sup);
      MembersTokensSplit(l, st.pos);
      ChildrenThenRest(st.toks, st.sup, 2, MemberTokens(l, st.pos), 2 * MemberCount(l.rest),
                       MembersTokens(l.rest, end + 1));
      if l.rest.Member? {
        BlankRuns(js, next);
        MembersRun(js, next.(pos := end + 1), l.rest);
      } else {
        NoMembersTokens(next.(pos := end + 1));
      }
    } else {
      NoMembersTokens(st);
    }
  }

  lemma NoMembersTokens(st: State)
    requires 0 <= st.sup < |st.toks|
    ensures Grow(st.toks, st.sup, 0) + MembersTokens(NoMembers, st.pos) == st.toks
  {
  }

  /** For every JSON text the parse succeeds, reads the whole text, and leaves exactly the preorder
      walk of the value. */
  lemma EveryJsonText(v: Value, lead: string, trail: string)
    requires Valid(v) && Ws(lead) && Ws(trail)
    ensures var js := lead + Text(v) + trail;
            Run(js, Init) == Go(State(|js|, Tokens(v, |lead|), -1))
  {
    var js := lead + Text(v) + trail;
    assert js == lead + (Text(v) + trail);
    JsonTextRuns(js, v, lead, trail);
    var done := State(|js|, Tokens(v, |lead|), -1);
    TokensClosed(v, |lead|);
    assert LastOpen(done.toks, |done.toks|) == -1;
  }

  lemma JsonTextRuns(js: string, v: Value, lead: string, trail: string)
    requires Valid(v) && Ws(lead) && Ws(trail) && js == lead + (Text(v) + trail)
    ensures Run(js, Init) == Run(js, State(|js|, Tokens(v, |lead|), -1))
  {
    hide Run, Tokens, Text, Valid, Has, Ws;
    HasAll(js);
    HasSplit(js, 0, lead, Text(v) + trail);
    WsRuns(js, Init, lead);
    var st := Init.(pos := |lead|);
    PaddedValueRuns(js, st, v, trail);
    var done := AfterValue(st, v).(pos := |js|);
    assert done.toks == Tokens(v, |lead|);
  }
}
