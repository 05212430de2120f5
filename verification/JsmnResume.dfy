/** Feeding a text in two pieces: a second call on the longer text does what one call does, except exactly
    when the cut runs through a primitive. */
module JsmnResume {
  import opened JsmnSpec
  import opened Sequences

  predicate NoNul(p: string) {
    forall k :: 0 <= k < |p| ==> p[k] != '\0'
  }

  lemma {:induction false} HexPrefix(p: string, q: string, i: nat, n: nat)
    requires NoNul(p) && i <= |p|
    ensures HexScan(p, i, n).Some? && HexScan(p, i, n).value < |p|
            ==> HexScan(p + q, i, n) == HexScan(p, i, n)
    decreases n
  {
    if n > 0 && i < |p| {
      HexPrefix(p, q, i + 1, n - 1);
    }
  }

  /** A string that is closed in the first piece is the same string in the whole text. */
  lemma {:induction false} StringPrefix(p: string, q: string, i: nat)
    requires NoNul(p) && StringScan(p, i).Closed?
    ensures StringScan(p + q, i) == StringScan(p, i)
    decreases |p| - i
  {
    if p[i] == '\\' {
      if Escaped(At(p, i + 1)) {
        StringPrefix(p, q, i + 2);
      } else {
        HexPrefix(p, q, i + 2, 4);
        StringPrefix(p, q, HexScan(p, i + 2, 4).value);
      }
    } else if p[i] != '"' {
      StringPrefix(p, q, i + 1);
    }
  }

  /** A primitive that ends inside the first piece is the same one in the whole text; one that
      reaches the cut goes on after it. */
  lemma {:induction false} PrimPrefix(p: string, q: string, i: nat)
    requires NoNul(p) && i <= |p| && PrimEnd(p, i).Some?
    ensures var e := PrimEnd(p, i).value;
            PrimEnd(p + q, i) == if e < |p| then Some(e) else PrimEnd(p + q, |p|)
    decreases |p| - i
  {
    if i < |p| && !Delimiter(p[i]) {
      PrimPrefix(p, q, i + 1);
    }
  }

  /** The parser stopped right behind a primitive, and the next byte belongs to that primitive:
      what a caller can see before calling again. */
  predicate Splits(js: string, st: State) {
    && st.toks != []
    && (var t := st.toks[|st.toks| - 1]; t.kind == PRIMITIVE && t.end == st.pos)
    && More(js, st.pos) && !Delimiter(js[st.pos])
  }

  /** The turn of the first piece is the turn of the whole text, unless it splits a primitive. */
  lemma StepPrefix(p: string, q: string, st: State)
    requires NoNul(p) && st.pos < |p| && Step(p, st).Go?
    ensures var next := Step(p, st).st;
            Step(p + q, st) == Step(p, st) || (next.pos == |p| && Splits(p + q, next))
  {
    var c := p[st.pos];
    assert (p + q)[st.pos] == c;
    if c == '"' {
      StringPrefix(p, q, st.pos + 1);
    } else if PrimEnd(p, st.pos).Some? {
      PrimPrefix(p, q, st.pos);
    }
  }

  lemma {:induction false} ResumeUnlessSplit(p: string, q: string, st: State)
    requires NoNul(p) && st.pos <= |p| && !Splits(p + q, Run(p, st).st)
    ensures Run(p + q, Run(p, st).st) == Run(p + q, st)
    decreases |p| - st.pos
  {
    if st.pos < |p| {
      var r := Step(p, st);
      if r.Go? {
        StepPrefix(p, q, st);
        ResumeUnlessSplit(p, q, r.st);
      }
    }
  }

  /** A finished token never changes its kind or span again. */
  lemma {:induction false} Frozen(js: string, st: State, k: nat)
    requires k < |st.toks| && !Open(st.toks[k])
    ensures var toks := Run(js, st).st.toks;
            k < |toks| && toks[k].kind == st.toks[k].kind && toks[k].end == st.toks[k].end
    decreases |js| - st.pos
  {
    if More(js, st.pos) && Step(js, st).Go? {
      Frozen(js, Step(js, st).st, k);
    }
  }

  /** A primitive that was just read ends at a delimiter or at the end of the text. */
  predicate Clean(p: string, st: State) {
    st.toks != [] && st.toks[|st.toks| - 1].kind == PRIMITIVE ==>
      var e := st.toks[|st.toks| - 1].end;
      e <= st.pos && (e == st.pos ==> !More(p, e) || Delimiter(p[e]))
  }

  lemma {:induction false} PrimEndStops(js: string, i: nat)
    requires PrimEnd(js, i).Some?
    ensures var e := PrimEnd(js, i).value; !More(js, e) || Delimiter(js[e])
    decreases |js| - i
  {
    if More(js, i) && !Delimiter(js[i]) {
      PrimEndStops(js, i + 1);
    }
  }

  lemma StepClean(p: string, st: State)
    requires More(p, st.pos) && Clean(p, st) && Step(p, st).Go?
    ensures Clean(p, Step(p, st).st)
  {
    if PrimEnd(p, st.pos).Some? {
      PrimEndStops(p, st.pos);
    }
  }

  /** The turn that reads a split primitive gives the token a wrong end. */
  lemma SplitTurn(p: string, q: string, st: State)
    requires NoNul(p) && st.pos < |p| && Clean(p, st) && Step(p, st).Go?
    requires Step(p, st).st.pos == |p| && Splits(p + q, Step(p, st).st)
    ensures Run(p + q, st).st.toks != Run(p + q, Step(p, st).st).st.toks
  {
    var js := p + q;
    var next := Step(p, st).st;
    assert js[st.pos] == p[st.pos];
    var k := |st.toks|;
    assert next == Leaf(st, |p|, Token(PRIMITIVE, st.pos, |p|, 0));
    PrimPrefix(p, q, st.pos);
    Frozen(js, next, k);
    if PrimEnd(js, |p|).Some? {
      Frozen(js, Step(js, st).st, k);
    }
  }

  lemma {:induction false} SplitDiffers(p: string, q: string, st: State)
    requires NoNul(p) && st.pos < |p| && Clean(p, st) && Splits(p + q, Run(p, st).st)
    ensures Run(p + q, Run(p, st).st).st.toks != Run(p + q, st).st.toks
    decreases |p| - st.pos
  {
    var r := Step(p, st);
    assert (p + q)[st.pos] == p[st.pos];
    if r.Go? {
      if r.st.pos == |p| {
        assert Run(p, r.st).st == r.st;
        SplitTurn(p, q, st);
      } else {
        StepPrefix(p, q, st);
        StepClean(p, st);
        SplitDiffers(p, q, r.st);
      }
    }
  }

  /** Whatever a fresh parse of the first piece returned, calling again on the longer text reaches the same
      verdict, tokens, `pos` and `toksuper` as one parse of the longer text, if and only if the cut
      does not run through a primitive. */
  lemma ResumeIff(p: string, q: string)
    requires NoNul(p)
    ensures Run(p + q, Run(p, Init).st) == Run(p + q, Init) <==> !Splits(p + q, Run(p, Init).st)
  {
    if Splits(p + q, Run(p, Init).st) {
      SplitDiffers(p, q, Init);
    } else {
      ResumeUnlessSplit(p, q, Init);
    }
  }

  /** A cut through a primitive: `[1` and then `2]` gives two tokens for the number 12. */
  lemma SplitExample()
    ensures var p, q := "[1", "2]";
            && NoNul(p) && Run(p, Init).Fail? && Run(p, Init).code == PART
            && Splits(p + q, Run(p, Init).st)
            && Run(p + q, Run(p, Init).st) != Run(p + q, Init)
  {
    var p, q := "[1", "2]";
    assert p + q == "[12]";
    var s1 := StepOpen(Init, ARRAY);
    assert Step(p, Init) == Go(s1);
    ResumeIff(p, q);
  }
}
