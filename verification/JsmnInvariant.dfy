/** What holds in every reachable parser state: `toksuper` is the innermost open token, the spans
    form a forest in preorder, and each `size` is the number of children so far. */
module JsmnInvariant {
  import opened JsmnSpec
  import opened Sequences

  predicate Container(t: Token) {
    t.kind in {OBJECT, ARRAY}
  }

  /** Position `p`, which lies right of the start of `t`, is inside the container `t`. */
  predicate Covers(t: Token, p: int) {
    Container(t) && (Open(t) || p < t.end)
  }

  /** The last token below index `n` that covers position `p`, or -1. */
  function CoverBelow(toks: seq<Token>, n: nat, p: int): (i: int)
    requires n <= |toks|
    ensures -1 <= i < n
  {
    if n == 0 then -1
    else if Covers(toks[n - 1], p) then n - 1
    else CoverBelow(toks, n - 1, p)
  }

  /** The innermost container around token `i`, read off the spans alone. */
  function Parent(toks: seq<Token>, i: nat): int
    requires i < |toks|
  {
    CoverBelow(toks, i, toks[i].start)
  }

  function Children(toks: seq<Token>, p: nat): set<nat> {
    set i: nat | i < |toks| && Parent(toks, i) == p
  }

  ghost predicate Spans(st: State) {
    && (forall i :: 0 <= i < |st.toks| ==> 0 <= st.toks[i].start < st.pos)
    && (forall i, j :: 0 <= i < j < |st.toks| ==> st.toks[i].start < st.toks[j].start)
    && (forall i :: 0 <= i < |st.toks| ==>
          if Open(st.toks[i]) then Container(st.toks[i])
          else st.toks[i].start <= st.toks[i].end <= st.pos)
  }

  /** Two spans are disjoint, or the later token is a finished one strictly inside. */
  predicate Apart(a: Token, b: Token) {
    || b.start >= a.end
    || (Container(a) && !Open(b) && b.end < a.end)
  }

  ghost predicate Forest(st: State) {
    forall i, j :: 0 <= i < j < |st.toks| && !Open(st.toks[i]) ==> Apart(st.toks[i], st.toks[j])
  }

  ghost predicate Sizes(toks: seq<Token>) {
    forall i: nat :: i < |toks| ==> toks[i].size == |Children(toks, i)|
  }

  ghost predicate Inv(st: State) {
    && st.sup == LastOpen(st.toks, |st.toks|)
    && Spans(st)
    && Forest(st)
    && Sizes(st.toks)
  }

  /** Token `b` is token `a` seen later: only `size` and an open end may differ. */
  predicate Later(a: Token, b: Token, pos: nat) {
    a.kind == b.kind && a.start == b.start && (b.end == a.end || (Open(a) && pos < b.end))
  }

  lemma {:induction false} CoverSame(a: seq<Token>, b: seq<Token>, n: nat, p: int)
    requires n <= |a| && n <= |b|
    requires forall k :: 0 <= k < n ==> Covers(a[k], p) == Covers(b[k], p)
    ensures CoverBelow(a, n, p) == CoverBelow(b, n, p)
  {
    if n > 0 {
      CoverSame(a, b, n - 1, p);
    }
  }

  /** Children do not change when sizes grow or open tokens close behind them. */
  lemma ChildrenSame(st: State, b: seq<Token>, p: nat)
    requires Spans(st) && |b| == |st.toks|
    requires forall k :: 0 <= k < |b| ==> Later(st.toks[k], b[k], st.pos)
    ensures Children(b, p) == Children(st.toks, p)
  {
    forall i: nat | i < |b| ensures Parent(b, i) == Parent(st.toks, i) {
      CoverSame(st.toks, b, i, b[i].start);
    }
  }

  /** Past every finished span only the open tokens cover. */
  lemma {:induction false} CoverIsLastOpen(st: State, n: nat, p: int)
    requires Spans(st) && st.pos <= p && n <= |st.toks|
    ensures CoverBelow(st.toks, n, p) == LastOpen(st.toks, n)
  {
    if n > 0 {
      CoverIsLastOpen(st, n - 1, p);
    }
  }

  lemma {:induction false} LastOpenSame(a: seq<Token>, b: seq<Token>, n: nat)
    requires n <= |a| && n <= |b|
    requires forall k :: 0 <= k < n ==> Open(a[k]) == Open(b[k])
    ensures LastOpen(a, n) == LastOpen(b, n)
  {
    if n > 0 {
      LastOpenSame(a, b, n - 1);
    }
  }

  lemma AppendParents(st: State, t: Token)
    requires Spans(st) && st.sup == LastOpen(st.toks, |st.toks|) && st.pos <= t.start
    ensures var toks := Bump(st.toks, st.sup) + [t];
            && Parent(toks, |st.toks|) == st.sup
            && forall i: nat :: i < |st.toks| ==> Parent(toks, i) == Parent(st.toks, i)
  {
    var toks := Bump(st.toks, st.sup) + [t];
    forall i: nat | i < |st.toks| ensures Parent(toks, i) == Parent(st.toks, i) {
      CoverSame(toks, st.toks, i, toks[i].start);
    }
    CoverSame(toks, st.toks, |st.toks|, t.start);
    CoverIsLastOpen(st, |st.toks|, t.start);
  }

  /** A new token becomes a child of the innermost open token and of no other. */
  lemma AppendChildren(st: State, t: Token, p: nat)
    requires Spans(st) && st.sup == LastOpen(st.toks, |st.toks|) && st.pos <= t.start
    ensures Children(Bump(st.toks, st.sup) + [t], p)
         == Children(st.toks, p) + (if p == st.sup then {|st.toks|} else {})
  {
    AppendParents(st, t);
    hide Parent, Bump, LastOpen, Spans;
  }

  lemma NoChildYet(toks: seq<Token>, n: nat)
    requires n + 1 == |toks|
    ensures Children(toks, n) == {}
  {
    forall i: nat | i < |toks| ensures Parent(toks, i) != n {}
  }

  lemma AppendSizes(st: State, t: Token)
    requires Inv(st) && st.pos <= t.start && t.size == 0
    ensures Sizes(Bump(st.toks, st.sup) + [t])
  {
    var toks := Bump(st.toks, st.sup) + [t];
    forall i: nat | i < |toks| ensures toks[i].size == |Children(toks, i)| {
      if i < |st.toks| {
        AppendChildren(st, t, i);
        assert |st.toks| !in Children(st.toks, i);
      } else {
        NoChildYet(toks, i);
      }
    }
  }

  lemma AppendSpans(st: State, pos: nat, t: Token)
    requires Spans(st) && st.pos <= t.start < pos
    requires if Open(t) then Container(t) else t.start <= t.end <= pos
    ensures Spans(State(pos, Bump(st.toks, st.sup) + [t], st.sup))
  {
  }

  lemma AppendForest(st: State, pos: nat, t: Token)
    requires Spans(st) && Forest(st) && st.pos <= t.start
    ensures Forest(State(pos, Bump(st.toks, st.sup) + [t], st.sup))
  {
    var toks := Bump(st.toks, st.sup) + [t];
    forall i, j | 0 <= i < j < |toks| && !Open(toks[i]) ensures Apart(toks[i], toks[j]) {
      if j < |st.toks| {
        assert Apart(st.toks[i], st.toks[j]);
      }
    }
  }

  lemma LeafKeeps(st: State, pos: nat, t: Token)
    requires Inv(st) && st.pos <= t.start <= t.end <= pos && t.start < pos && t.size == 0
    ensures Inv(Leaf(st, pos, t))
  {
    AppendSizes(st, t);
    AppendSpans(st, pos, t);
    AppendForest(st, pos, t);
    LastOpenSame(st.toks, Bump(st.toks, st.sup) + [t], |st.toks|);
  }

  lemma OpenKeeps(st: State, kind: Kind)
    requires Inv(st) && kind in {OBJECT, ARRAY}
    ensures Inv(StepOpen(st, kind))
  {
    AppendSizes(st, Token(kind, st.pos, -1, 0));
    AppendSpans(st, st.pos + 1, Token(kind, st.pos, -1, 0));
    AppendForest(st, st.pos + 1, Token(kind, st.pos, -1, 0));
  }

  /** Closing the last open token encloses only finished spans. */
  lemma CloseForest(st: State, i: nat, sup: int)
    requires Spans(st) && Forest(st) && i < |st.toks| && Open(st.toks[i])
    requires forall k :: i < k < |st.toks| ==> !Open(st.toks[k])
    ensures var next := State(st.pos + 1, st.toks[i := st.toks[i].(end := st.pos + 1)], sup);
            Spans(next) && Forest(next)
  {
  }

  lemma CloseSizes(st: State, i: nat)
    requires Inv(st) && i < |st.toks| && Open(st.toks[i])
    ensures Sizes(st.toks[i := st.toks[i].(end := st.pos + 1)])
  {
    var toks := st.toks[i := st.toks[i].(end := st.pos + 1)];
    forall p: nat | p < |toks| ensures toks[p].size == |Children(toks, p)| {
      ChildrenSame(st, toks, p);
    }
  }

  lemma CloseKeeps(st: State, kind: Kind)
    requires Inv(st)
    ensures Inv(StepClose(st, kind).st)
  {
    hide Sizes, Children, Parent;
    var r := StepClose(st, kind);
    var i := LastOpen(st.toks, |st.toks|);
    if r.Go? {
      CloseForest(st, i, r.st.sup);
      CloseSizes(st, i);
      LastOpenSkip(r.st.toks, i, |r.st.toks|);
    }
  }

  lemma {:induction false} LastOpenSkip(toks: seq<Token>, i: nat, n: nat)
    requires i <= n <= |toks|
    requires forall k :: i <= k < n ==> !Open(toks[k])
    ensures LastOpen(toks, n) == LastOpen(toks, i)
  {
    if i < n {
      LastOpenSkip(toks, i, n - 1);
    }
  }

  lemma MoveKeeps(st: State)
    requires Inv(st)
    ensures Inv(st.(pos := st.pos + 1))
  {
  }

  lemma StepKeeps(js: string, st: State)
    requires More(js, st.pos) && Inv(st)
    ensures Inv(Step(js, st).st)
  {
    hide Inv, StepOpen, StepClose, Leaf, StringScan, PrimEnd;
    var c := js[st.pos];
    if c == '{' {
      OpenKeeps(st, OBJECT);
    } else if c == '[' {
      OpenKeeps(st, ARRAY);
    } else if c == '}' {
      CloseKeeps(st, OBJECT);
    } else if c == ']' {
      CloseKeeps(st, ARRAY);
    } else if c == '"' {
      if StringScan(js, st.pos + 1).Closed? {
        var e := StringScan(js, st.pos + 1).at;
        LeafKeeps(st, e + 1, Token(STRING, st.pos + 1, e, 0));
      }
    } else if Blank(c) {
      MoveKeeps(st);
    } else if PrimEnd(js, st.pos).Some? {
      var e := PrimEnd(js, st.pos).value;
      LeafKeeps(st, e, Token(PRIMITIVE, st.pos, e, 0));
    }
  }

  /** The state after any history of loop turns from a fresh parser.  Each turn names the text it
      sees, so that resumed calls on other texts are histories too. */
  function Turns(texts: seq<string>): State {
    if texts == [] then Init
    else
      var st := Turns(texts[..|texts| - 1]);
      var js := texts[|texts| - 1];
      if More(js, st.pos) then Step(js, st).st else st
  }

  lemma {:induction false} EveryReachableState(texts: seq<string>)
    ensures Inv(Turns(texts))
  {
    if texts != [] {
      EveryReachableState(texts[..|texts| - 1]);
      var st := Turns(texts[..|texts| - 1]);
      var js := texts[|texts| - 1];
      if More(js, st.pos) {
        StepKeeps(js, st);
      }
    }
  }

  lemma {:induction false} RunKeeps(js: string, st: State)
    requires Inv(st)
    ensures Inv(Run(js, st).st)
    decreases |js| - st.pos
  {
    if More(js, st.pos) {
      StepKeeps(js, st);
      if Step(js, st).Go? {
        RunKeeps(js, Step(js, st).st);
      }
    }
  }

  function PlusN(t: Tally, n: nat): Tally {
    match t case Tally(k) => Tally(k + n) case Rejected(_) => t
  }

  /** A turn of the filling run allocates what the count-only run counts for it. */
  lemma CountTurn(js: string, st: State)
    requires More(js, st.pos) && Step(js, st).Go?
    ensures var next := Step(js, st).st;
            && |next.toks| >= |st.toks|
            && CountRun(js, st.pos) == PlusN(CountRun(js, next.pos), |next.toks| - |st.toks|)
  {
  }

  /** The count-only run returns exactly the number of tokens a successful filling run allocates,
      and fails on nothing that the filling run accepts. */
  lemma {:induction false} CountMatches(js: string, st: State)
    requires Run(js, st).Go?
    ensures |Run(js, st).st.toks| >= |st.toks|
    ensures CountRun(js, st.pos) == Tally(|Run(js, st).st.toks| - |st.toks|)
    decreases |js| - st.pos
  {
    if More(js, st.pos) {
      CountTurn(js, st);
      hide Step, CountRun;
      CountMatches(js, Step(js, st).st);
    }
  }
}
