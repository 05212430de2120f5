/** The verdict on a text that was cut off: for every text that is accepted as a whole, when its first piece
    is reported as incomplete and when as invalid. */
module JsmnCut {
  import opened JsmnResume
  import opened JsmnSpec
  import opened JsonText
  import opened Sequences
  import JsmnRfc

  /** How many backslashes stand in a row before position `n`, not counting any before `i`. */
  function Backslashes(p: string, i: nat, n: nat): (k: nat)
    requires i <= n <= |p|
    ensures k <= n - i
    decreases n
  {
    if n == i || p[n - 1] != '\\' then 0 else 1 + Backslashes(p, i, n - 1)
  }

  /** The text ends inside a string. */
  predicate InString(js: string, pos: nat)
    decreases |js| - pos
  {
    if !More(js, pos) then false
    else if js[pos] == '"' then
      var s := StringScan(js, pos + 1);
      !s.Closed? || InString(js, s.at + 1)
    else if Delimiter(js[pos]) || js[pos] == '{' || js[pos] == '[' then InString(js, pos + 1)
    else
      var e := PrimEnd(js, pos);
      e.Some? && e.value > pos && InString(js, e.value)
  }

  // Escapes are consumed in pairs.

  lemma {:induction false} SkipPlain(p: string, i: nat, j: nat, n: nat)
    requires i < j <= n <= |p| && p[j - 1] != '\\'
    ensures Backslashes(p, i, n) == Backslashes(p, j, n)
    decreases n
  {
    if n > j && p[n - 1] == '\\' {
      SkipPlain(p, i, j, n - 1);
    }
  }

  lemma {:induction false} SkipPair(p: string, i: nat, n: nat)
    requires i + 2 <= n <= |p| && p[i] == '\\' && p[i + 1] == '\\'
    ensures Backslashes(p, i, n) % 2 == Backslashes(p, i + 2, n) % 2
    decreases n
  {
    if n == i + 2 {
      assert Backslashes(p, i, n) == 1 + Backslashes(p, i, i + 1) == 2 + Backslashes(p, i, i);
    } else if p[n - 1] == '\\' {
      SkipPair(p, i, n - 1);
    }
  }

  /** Hexadecimal digits of the whole text that lie in the first piece. */
  lemma {:induction false} HexCut(p: string, q: string, i: nat, n: nat)
    requires NoNul(p) && i <= |p| && HexScan(p + q, i, n).Some?
    ensures HexScan(p, i, n) == Some(Min(HexScan(p + q, i, n).value, |p|))
    ensures forall k :: i <= k < HexScan(p, i, n).value ==> p[k] != '\\'
    decreases n
  {
    if n > 0 && i < |p| {
      assert (p + q)[i] == p[i];
      HexCut(p, q, i + 1, n - 1);
    }
  }

  /** A string that is cut off is taken for malformed exactly right behind the backslash of an escape. */
  lemma {:induction false} CutString(p: string, q: string, i: nat)
    requires NoNul(p) && i <= |p| && StringScan(p + q, i).Closed? && !StringScan(p, i).Closed?
    ensures StringScan(p, i).Bad? <==> Backslashes(p, i, |p|) % 2 == 1
    decreases |p| - i
  {
    if i < |p| {
      assert (p + q)[i] == p[i];
      if p[i] != '\\' {
        CutString(p, q, i + 1);
        SkipPlain(p, i, i + 1, |p|);
      } else if i + 1 == |p| {
        assert Backslashes(p, i, |p|) == 1 + Backslashes(p, i, i);
      } else {
        assert (p + q)[i + 1] == p[i + 1];
        CutEscape(p, q, i);
      }
    }
  }

  lemma {:induction false} CutEscape(p: string, q: string, i: nat)
    requires NoNul(p) && i + 1 < |p| && p[i] == '\\'
    requires StringScan(p + q, i).Closed? && !StringScan(p, i).Closed?
    ensures StringScan(p, i).Bad? <==> Backslashes(p, i, |p|) % 2 == 1
    decreases |p| - i, 0
  {
    assert (p + q)[i] == p[i] && (p + q)[i + 1] == p[i + 1];
    if Escaped(p[i + 1]) {
      CutString(p, q, i + 2);
      if p[i + 1] == '\\' {
        SkipPair(p, i, |p|);
      } else {
        SkipPlain(p, i, i + 2, |p|);
      }
    } else {
      HexCut(p, q, i + 2, 4);
      var h := HexScan(p, i + 2, 4).value;
      SkipPlain(p, i, h, |p|);
      if HexScan(p + q, i + 2, 4).value <= |p| {
        CutString(p, q, h);
      }
    }
  }

  // The turns before the cut.

  /** What is a primitive as a whole is one in the first piece. */
  lemma {:induction false} PrimCut(p: string, q: string, i: nat)
    requires NoNul(p) && i <= |p| && PrimEnd(p + q, i).Some?
    ensures PrimEnd(p, i).Some?
    decreases |p| - i
  {
    if i < |p| && !Delimiter(p[i]) {
      assert (p + q)[i] == p[i];
      PrimCut(p, q, i + 1);
    }
  }

  predicate Invalid(r: Result) {
    r.Fail? && r.code == INVAL
  }

  lemma {:induction false} VerdictFrom(p: string, q: string, st: State)
    requires NoNul(p) && st.pos <= |p| && Run(p + q, st).Go?
    ensures Invalid(Run(p, st)) <==> InString(p, st.pos) && Backslashes(p, 0, |p|) % 2 == 1
    decreases |p| - st.pos
  {
    if st.pos < |p| {
      assert (p + q)[st.pos] == p[st.pos];
      if p[st.pos] == '"' {
        StringVerdict(p, q, st);
      } else {
        OtherVerdict(p, q, st);
      }
    }
  }

  lemma {:induction false} StringVerdict(p: string, q: string, st: State)
    requires NoNul(p) && st.pos < |p| && Run(p + q, st).Go? && p[st.pos] == '"'
    ensures Invalid(Run(p, st)) <==> InString(p, st.pos) && Backslashes(p, 0, |p|) % 2 == 1
    decreases |p| - st.pos, 0
  {
    hide StringScan, Backslashes, LastOpen;
    assert (p + q)[st.pos] == p[st.pos];
    var s := StringScan(p, st.pos + 1);
    assert Step(p + q, st).Go?;
    if s.Closed? {
      StringPrefix(p, q, st.pos + 1);
      VerdictFrom(p, q, Step(p, st).st);
    } else {
      CutString(p, q, st.pos + 1);
      SkipPlain(p, 0, st.pos + 1, |p|);
    }
  }

  lemma {:induction false} OtherVerdict(p: string, q: string, st: State)
    requires NoNul(p) && st.pos < |p| && Run(p + q, st).Go? && p[st.pos] != '"'
    ensures Invalid(Run(p, st)) <==> InString(p, st.pos) && Backslashes(p, 0, |p|) % 2 == 1
    decreases |p| - st.pos, 0
  {
    assert (p + q)[st.pos] == p[st.pos];
    var c := p[st.pos];
    assert Step(p + q, st).Go?;
    if c != '{' && c != '[' && !Delimiter(c) {
      PrimCut(p, q, st.pos);
      PrimPrefix(p, q, st.pos);
      var e := PrimEnd(p, st.pos).value;
      if e < |p| {
        VerdictFrom(p, q, Step(p, st).st);
      } else {
        assert !InString(p, e);
      }
    } else {
      assert Step(p, st) == Step(p + q, st);
      VerdictFrom(p, q, Step(p, st).st);
    }
  }

  /** The first piece of a text that is accepted as a whole is invalid if and only if it ends inside a string
      and behind an odd number of backslashes, that is, right behind the backslash of an escape; otherwise
      it is accepted or incomplete. */
  lemma CutVerdict(p: string, q: string)
    requires NoNul(p) && Run(p + q, Init).Go?
    ensures Invalid(Run(p, Init)) <==> InString(p, 0) && Backslashes(p, 0, |p|) % 2 == 1
  {
    VerdictFrom(p, q, Init);
  }

  // A text that is read to its end holds no NUL.

  lemma {:induction false} HexNoNul(js: string, i: nat, n: nat, k: nat)
    requires HexScan(js, i, n).Some? && i <= k < HexScan(js, i, n).value && k < |js|
    ensures js[k] != '\0'
    decreases n
  {
    if k > i {
      HexNoNul(js, i + 1, n - 1, k);
    }
  }

  lemma {:induction false} StringNoNul(js: string, i: nat, k: nat)
    requires StringScan(js, i).Closed? && i <= k < StringScan(js, i).at
    ensures js[k] != '\0'
    decreases |js| - i
  {
    if js[i] != '\\' {
      if k > i {
        StringNoNul(js, i + 1, k);
      }
    } else if Escaped(At(js, i + 1)) {
      if k >= i + 2 {
        StringNoNul(js, i + 2, k);
      }
    } else {
      var h := HexScan(js, i + 2, 4).value;
      if k >= h {
        StringNoNul(js, h, k);
      } else if k >= i + 2 {
        HexNoNul(js, i + 2, 4, k);
      }
    }
  }

  lemma {:induction false} PrimNoNul(js: string, i: nat, k: nat)
    requires PrimEnd(js, i).Some? && i <= k < PrimEnd(js, i).value && k < |js|
    ensures js[k] != '\0'
    decreases |js| - i
  {
    if k > i {
      PrimNoNul(js, i + 1, k);
    }
  }

  lemma {:induction false} ReadNoNul(js: string, st: State, k: nat)
    requires Run(js, st).Go? && Run(js, st).st.pos == |js| && st.pos <= k < |js|
    ensures js[k] != '\0'
    decreases |js| - st.pos
  {
    assert More(js, st.pos);
    var next := Step(js, st).st;
    if k >= next.pos {
      ReadNoNul(js, next, k);
    } else if js[st.pos] == '"' {
      if k > st.pos && k < next.pos - 1 {
        StringNoNul(js, st.pos + 1, k);
      }
    } else if k > st.pos {
      PrimNoNul(js, st.pos, k);
    }
  }

  /** In particular for every piece of a JSON text. */
  lemma JsonCutVerdict(v: Value, lead: string, trail: string, k: nat)
    requires Valid(v) && Ws(lead) && Ws(trail) && k <= |lead + Text(v) + trail|
    ensures var p := (lead + Text(v) + trail)[..k];
            Invalid(Run(p, Init)) <==> InString(p, 0) && Backslashes(p, 0, |p|) % 2 == 1
  {
    var js := lead + Text(v) + trail;
    hide Text, Tokens, Valid;
    JsmnRfc.EveryJsonText(v, lead, trail);
    forall i | 0 <= i < k ensures js[..k][i] != '\0' {
      ReadNoNul(js, Init, i);
    }
    assert js == js[..k] + js[k..];
    CutVerdict(js[..k], js[k..]);
  }

  /** A cut right behind a backslash: the opening of an array and a string. */
  lemma EscapeExample()
    ensures Invalid(Run("[\"\\", Init)) && Run("[\"\\n\"]", Init).Go?
  {
    var p, q := "[\"\\", "n\"]";
    assert p + q == "[\"\\n\"]";
    var js := p + q;
    var s1 := StepOpen(Init, ARRAY);
    assert Step(js, Init) == Go(s1);
    assert StringScan(js, 4) == Closed(4) && StringScan(js, 2) == Closed(4);
    var s2 := Leaf(s1, 5, Token(STRING, 2, 4, 0));
    assert Step(js, s1) == Go(s2);
    var r := Step(js, s2);
    assert r.Go? && r.st.pos == 6 && LastOpen(r.st.toks, |r.st.toks|) == -1;
    assert Run(js, r.st).Go? && Run(js, s2).Go? && Run(js, s1).Go?;
    assert Step(p, Init) == Go(s1) && StringScan(p, 2) == Bad && Step(p, s1) == Fail(s1, INVAL);
    assert Run(p, s1) == Fail(s1, INVAL);
  }
}
