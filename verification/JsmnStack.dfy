/** The implicit stack kept in the token array is an explicit stack over the brackets of the text. */
module JsmnStack {
  import opened JsmnSpec
  import opened Sequences
  import JsmnInvariant

  datatype Bracket = Left(kind: Kind) | Right(kind: Kind)

  /** The brackets outside strings and primitives, None if a string or primitive is malformed. */
  function Brackets(js: string, pos: nat): Option<seq<Bracket>>
    decreases |js| - pos
  {
    if !More(js, pos) then Some([])
    else if js[pos] == '{' then Cons(Left(OBJECT), Brackets(js, pos + 1))
    else if js[pos] == '[' then Cons(Left(ARRAY), Brackets(js, pos + 1))
    else if js[pos] == '}' then Cons(Right(OBJECT), Brackets(js, pos + 1))
    else if js[pos] == ']' then Cons(Right(ARRAY), Brackets(js, pos + 1))
    else if js[pos] == '"' then
      var s := StringScan(js, pos + 1);
      if s.Closed? then Brackets(js, s.at + 1) else None
    else if Blank(js[pos]) then Brackets(js, pos + 1)
    else
      var e := PrimEnd(js, pos);
      if e.Some? then Brackets(js, e.value) else None
  }

  function Cons(b: Bracket, w: Option<seq<Bracket>>): Option<seq<Bracket>> {
    match w case Some(s) => Some([b] + s) case None => None
  }

  /** The word closes the open brackets `stack` and is otherwise balanced. */
  predicate Accepts(w: seq<Bracket>, stack: seq<Kind>) {
    if w == [] then stack == []
    else match w[0]
      case Left(k) => Accepts(w[1..], stack + [k])
      case Right(k) =>
        stack != [] && stack[|stack| - 1] == k && Accepts(w[1..], stack[..|stack| - 1])
  }

  function OpenKinds(toks: seq<Token>): seq<Kind> {
    if toks == [] then []
    else
      var last := toks[|toks| - 1];
      OpenKinds(toks[..|toks| - 1]) + (if Open(last) then [last.kind] else [])
  }

  lemma {:induction false} OpenKindsSame(a: seq<Token>, b: seq<Token>)
    requires |a| == |b|
    requires forall k :: 0 <= k < |a| ==> Open(a[k]) == Open(b[k]) && a[k].kind == b[k].kind
    ensures OpenKinds(a) == OpenKinds(b)
  {
    if a != [] {
      OpenKindsSame(a[..|a| - 1], b[..|b| - 1]);
    }
  }

  lemma OpenKindsAppend(toks: seq<Token>, sup: int, t: Token)
    ensures OpenKinds(Bump(toks, sup) + [t]) == OpenKinds(toks) + (if Open(t) then [t.kind] else [])
  {
    var more := Bump(toks, sup) + [t];
    assert more[..|more| - 1] == Bump(toks, sup);
    OpenKindsSame(toks, Bump(toks, sup));
  }

  /** The last open token is the top of the stack, and closing it pops the stack. */
  lemma {:induction false} OpenKindsTop(toks: seq<Token>, end: nat)
    ensures var i := LastOpen(toks, |toks|);
            if i == -1 then OpenKinds(toks) == []
            else OpenKinds(toks) == OpenKinds(toks[i := toks[i].(end := end)]) + [toks[i].kind]
  {
    if toks != [] {
      var n := |toks| - 1;
      var init := toks[..n];
      var i := LastOpen(toks, n + 1);
      if i == n {
        OpenKindsSame(toks[n := toks[n].(end := end)][..n], init);
      } else {
        JsmnInvariant.LastOpenSame(toks, init, n);
        OpenKindsTop(init, end);
        if i != -1 {
          assert toks[i := toks[i].(end := end)][..n] == init[i := init[i].(end := end)];
        }
      }
    }
  }

  lemma CloseIsPop(st: State, kind: Kind)
    ensures var stack := OpenKinds(st.toks);
            var r := StepClose(st, kind);
            && (r.Go? <==> stack != [] && stack[|stack| - 1] == kind)
            && (r.Go? ==> OpenKinds(r.st.toks) == stack[..|stack| - 1])
  {
    OpenKindsTop(st.toks, st.pos + 1);
  }

  /** Scanning the token array backwards is an explicit stack. */
  lemma {:induction false} RunIsStack(js: string, st: State)
    ensures Run(js, st).Go? <==>
            Brackets(js, st.pos).Some? && Accepts(Brackets(js, st.pos).value, OpenKinds(st.toks))
    decreases |js| - st.pos
  {
    if !More(js, st.pos) {
      OpenKindsTop(st.toks, 0);
      if LastOpen(st.toks, |st.toks|) != -1 {
        assert OpenKinds(st.toks) != [];
      }
    } else {
      var r := Step(js, st);
      StepIsStack(js, st);
      if r.Go? {
        RunIsStack(js, r.st);
      }
    }
  }

  /** The verdict on the word `w` left before a turn is the verdict on the word `v` left after it. */
  ghost predicate InStep(w: Option<seq<Bracket>>, st: State, r: Result, v: Option<seq<Bracket>>) {
    if r.Fail? then w.None? || !Accepts(w.value, OpenKinds(st.toks))
    else
      && w.Some? == v.Some?
      && (w.Some? ==> Accepts(w.value, OpenKinds(st.toks)) == Accepts(v.value, OpenKinds(r.st.toks)))
  }

  lemma OpenInStep(st: State, kind: Kind, v: Option<seq<Bracket>>)
    ensures InStep(Cons(Left(kind), v), st, Go(StepOpen(st, kind)), v)
  {
    OpenKindsAppend(st.toks, st.sup, Token(kind, st.pos, -1, 0));
    if v.Some? {
      assert ([Left(kind)] + v.value)[1..] == v.value;
    }
  }

  lemma CloseInStep(st: State, kind: Kind, v: Option<seq<Bracket>>)
    ensures InStep(Cons(Right(kind), v), st, StepClose(st, kind), v)
  {
    CloseIsPop(st, kind);
    if v.Some? {
      assert ([Right(kind)] + v.value)[1..] == v.value;
    }
  }

  lemma LeafInStep(st: State, pos: nat, t: Token, v: Option<seq<Bracket>>)
    requires !Open(t)
    ensures InStep(v, st, Go(Leaf(st, pos, t)), v)
  {
    OpenKindsAppend(st.toks, st.sup, t);
    assert OpenKinds(st.toks) + [] == OpenKinds(st.toks);
  }

  /** One turn keeps the stack in step with the brackets that are left. */
  lemma StepIsStack(js: string, st: State)
    requires More(js, st.pos)
    ensures var r := Step(js, st);
            InStep(Brackets(js, st.pos), st, r, Brackets(js, r.st.pos))
  {
    var c := js[st.pos];
    var v := Brackets(js, st.pos + 1);
    if c == '{' {
      OpenInStep(st, OBJECT, v);
    } else if c == '[' {
      OpenInStep(st, ARRAY, v);
    } else if c == '}' {
      CloseInStep(st, OBJECT, v);
    } else if c == ']' {
      CloseInStep(st, ARRAY, v);
    } else if c == '"' {
      if StringScan(js, st.pos + 1).Closed? {
        var e := StringScan(js, st.pos + 1).at;
        LeafInStep(st, e + 1, Token(STRING, st.pos + 1, e, 0), Brackets(js, e + 1));
      }
    } else if !Blank(c) && PrimEnd(js, st.pos).Some? {
      var e := PrimEnd(js, st.pos).value;
      LeafInStep(st, e, Token(PRIMITIVE, st.pos, e, 0), Brackets(js, e));
    }
  }
}
