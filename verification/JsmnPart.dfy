/** Why a text is not accepted: it is reported as incomplete exactly if more bytes can still make it
    acceptable, apart from a cut right behind the backslash of an escape. */
module JsmnPart {
  import opened JsmnCut
  import opened JsmnGrammar
  import opened JsmnLexis
  import opened JsmnResume
  import opened JsmnRfc
  import opened JsmnSpec
  import opened JsmnStack
  import opened Sequences
  import JsonText

  predicate Containers(stack: seq<Kind>) {
    forall k :: 0 <= k < |stack| ==> Container(stack[k])
  }

  /** The brackets that close everything that is open. */
  function Closers(stack: seq<Kind>): string {
    if stack == [] then "" else [RightOf(stack[|stack| - 1])] + Closers(stack[..|stack| - 1])
  }

  lemma {:induction false} ClosersGo(js: string, p: nat, stack: seq<Kind>)
    requires Containers(stack) && Has(js, p, Closers(stack)) && p + |Closers(stack)| == |js|
    ensures Goes(js, p, stack)
    decreases |stack|
  {
    if stack != [] {
      var top, rest := stack[|stack| - 1], stack[..|stack| - 1];
      HasChar(js, p, Closers(stack), 0);
      HasSplit(js, p, [RightOf(top)], Closers(rest));
      ClosersGo(js, p + 1, rest);
      var v := Brackets(js, p + 1);
      assert ([Right(top)] + v.value)[1..] == v.value;
    }
  }

  lemma StepContainers(js: string, st: State)
    requires More(js, st.pos) && Step(js, st).Go? && Containers(OpenKinds(st.toks))
    ensures Containers(OpenKinds(Step(js, st).st.toks))
  {
    hide StringScan, PrimEnd, LastOpen, OpenKinds, StepClose, Bump;
    var c := js[st.pos];
    if c == '{' || c == '[' {
      OpenKindsAppend(st.toks, st.sup, Token(if c == '{' then OBJECT else ARRAY, st.pos, -1, 0));
    } else if c == '}' || c == ']' {
      CloseIsPop(st, if c == '}' then OBJECT else ARRAY);
    } else if c == '"' {
      var e := StringScan(js, st.pos + 1).at;
      OpenKindsAppend(st.toks, st.sup, Token(STRING, st.pos + 1, e, 0));
    } else if !Blank(c) {
      var e := PrimEnd(js, st.pos).value;
      OpenKindsAppend(st.toks, st.sup, Token(PRIMITIVE, st.pos, e, 0));
    }
  }

  /** What completes an unfinished escape. */
  lemma Filler(t: string) returns (fill: string, s: seq<JsonText.Char>)
    requires Unfinished(t)
    ensures Pieces(s) && JsonText.CharsText(s) == t + fill
  {
    if t == "" {
      fill, s := "", [];
    } else {
      fill := "0000"[|t| - 2..];
      var u := t + fill;
      var x := JsonText.Unicode(u[2], u[3], u[4], u[5]);
      s := [x];
      assert JsonText.CharText(x) == u && s[1..] == [];
    }
  }

  lemma {:induction false} CharsTextConcat(a: seq<JsonText.Char>, b: seq<JsonText.Char>)
    ensures JsonText.CharsText(a + b) == JsonText.CharsText(a) + JsonText.CharsText(b)
    decreases |a|
  {
    if a == [] {
      assert a + b == b;
    } else {
      assert (a + b)[1..] == a[1..] + b;
      CharsTextConcat(a[1..], b);
    }
  }

  lemma EndsWhole(p: string, i: nat, s: seq<JsonText.Char>, t: string)
    requires NoNul(p) && i <= |p| && EndsBehind(p, i, s, t)
    ensures p[i..] == JsonText.CharsText(s) + t
  {
    hide Pieces, Unfinished, JsonText.CharsText;
  }

  /** The completed string closes. */
  lemma Fills(p: string, i: nat, s: seq<JsonText.Char>, t: string, fill: string, more: seq<JsonText.Char>, rest: string)
    requires i <= |p| && p[i..] == JsonText.CharsText(s) + t && JsonText.CharsText(more) == t + fill
    requires Pieces(s) && Pieces(more)
    ensures StringScan(p + (fill + "\"" + rest), i) == Closed(|p| + |fill|)
  {
    hide StringScan, JsonText.CharsText;
    var js := p + (fill + "\"" + rest);
    var e := |p| + |fill|;
    CharsTextConcat(s, more);
    assert js[i..e] == p[i..] + fill == JsonText.CharsText(s + more);
    ClosesIff(js, i, e);
  }

  lemma StringThen(js: string, pos: nat, e: nat, stack: seq<Kind>)
    requires More(js, pos) && js[pos] == '"' && StringScan(js, pos + 1) == Closed(e) && Goes(js, e + 1, stack)
    ensures Goes(js, pos, stack)
  {
    hide StringScan;
  }

  /** A string that is cut off is completed, and everything that is open is closed. */
  lemma CompletesString(p: string, pos: nat, stack: seq<Kind>) returns (q: string)
    requires Containers(stack) && More(p, pos) && p[pos] == '"' && NoNul(p) && StringScan(p, pos + 1) == Cut
    ensures Goes(p + q, pos, stack)
  {
    hide StringScan, Containers, Unfinished, Goes, Pieces, JsonText.CharsText, Closers;
    CutIff(p, pos + 1);
    var s, t :| EndsBehind(p, pos + 1, s, t);
    EndsWhole(p, pos + 1, s, t);
    var fill, more := Filler(t);
    q := fill + "\"" + Closers(stack);
    Fills(p, pos + 1, s, t, fill, more, Closers(stack));
    var e := |p| + |fill|;
    assert Has(p + q, e + 1, Closers(stack));
    ClosersGo(p + q, e + 1, stack);
    StringThen(p + q, pos, e, stack);
  }

  /** Every text that is reported as incomplete can be completed. */
  lemma {:induction false} Completes(p: string, st: State) returns (q: string)
    requires NoNul(p) && st.pos <= |p| && Run(p, st).Fail? && Run(p, st).code == PART && Containers(OpenKinds(st.toks))
    ensures Goes(p + q, st.pos, OpenKinds(st.toks))
    ensures st.pos == |p| ==> q == Closers(OpenKinds(st.toks)) && q != ""
    decreases |p| - st.pos
  {
    hide Goes, Containers, StringScan, PrimEnd, OpenKinds;
    if st.pos == |p| {
      OpenKindsTop(st.toks, 0);
      q := Closers(OpenKinds(st.toks));
      assert Has(p + q, st.pos, q);
      ClosersGo(p + q, st.pos, OpenKinds(st.toks));
    } else if Step(p, st).Fail? {
      StopsAtString(p, st);
      q := CompletesString(p, st.pos, OpenKinds(st.toks));
    } else {
      var next := Step(p, st).st;
      StepContainers(p, st);
      q := Completes(p, next);
      StepPrefix(p, q, st);
      if next.pos == |p| {
        CloserEnds(p, OpenKinds(next.toks));
      }
      StepIsStack(p + q, st);
      GoesBack(p + q, st);
    }
  }

  lemma StopsAtString(p: string, st: State)
    requires More(p, st.pos) && Step(p, st) == Fail(st, PART)
    ensures p[st.pos] == '"' && StringScan(p, st.pos + 1) == Cut
  {
  }

  /** Behind a closing bracket a primitive does not go on. */
  lemma CloserEnds(p: string, stack: seq<Kind>)
    requires Closers(stack) != ""
    ensures Delimiter((p + Closers(stack))[|p|])
  {
  }

  lemma GoesBack(js: string, st: State)
    requires More(js, st.pos) && Step(js, st).Go? && InStep(Brackets(js, st.pos), st, Step(js, st), Brackets(js, Step(js, st).st.pos))
    requires Goes(js, Step(js, st).st.pos, OpenKinds(Step(js, st).st.toks))
    ensures Goes(js, st.pos, OpenKinds(st.toks))
  {
  }

  /** A text is reported as incomplete if and only if it is not accepted, more bytes can make it acceptable,
      and it does not end right behind the backslash of an escape. All other texts that are not accepted are
      reported as invalid. */
  lemma IncompleteIff(p: string)
    requires NoNul(p)
    ensures var r := Run(p, Init);
            r.Fail? && r.code == PART <==>
            r.Fail? && (exists q :: Run(p + q, Init).Go?) && !(InString(p, 0) && Backslashes(p, 0, |p|) % 2 == 1)
  {
    hide Run, InString, Backslashes;
    var r := Run(p, Init);
    if r.Fail? && r.code == PART {
      var q := Completes(p, Init);
      RunIsStack(p + q, Init);
      CutVerdict(p, q);
    }
    forall q | Run(p + q, Init).Go? ensures Invalid(r) <==> InString(p, 0) && Backslashes(p, 0, |p|) % 2 == 1 {
      CutVerdict(p, q);
    }
  }
}
