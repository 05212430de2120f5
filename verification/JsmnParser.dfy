/** The parser as jsmn.c runs it: the token array is updated in place, scanned backwards for open
    tokens, and replaced by a copy of twice its size when it is full.  Every method is proved
    against JsmnSpec, which knows no capacity: growing the pool is invisible. */
module JsmnParser {
  import opened JsmnSpec
  import opened Sequences
  import JsmnInvariant

  /** Return codes besides a count; INVAL and PART are the codes of JsmnSpec. */
  const NOMEM_CODE := -1
  const INVAL_CODE := -2
  const PART_CODE := -3

  function CodeOf(c: Code): int {
    match c case INVAL => INVAL_CODE case PART => PART_CODE
  }

  /** How many tokens an array holds after doubling it `grants` times. */
  function Grown(len: nat, grants: nat): (r: nat)
    ensures r >= len
    decreases grants
  {
    if grants == 0 then len else Grown(2 * len, grants - 1)
  }

  class Parser {
    var pos: nat
    var toknext: nat
    var toksuper: int
    /** The caller's token array; null asks for a count only. */
    var tokens: array?<Token>
    /** How many more times `calloc` succeeds. */
    var grants: nat

    ghost predicate Valid()
      reads this, tokens
    {
      if tokens == null then toknext == 0 && toksuper == -1
      else
        && 1 <= tokens.Length && toknext <= tokens.Length
        && toksuper == LastOpen(tokens[..toknext], toknext)
    }

    ghost function Abs(): State
      requires Valid()
      reads this, tokens
    {
      State(pos, if tokens == null then [] else tokens[..toknext], toksuper)
    }

    /** How many tokens there can be in all. */
    ghost function Room(): nat
      reads this, tokens
    {
      if tokens == null then 0 else Grown(tokens.Length, grants)
    }

    /** `jsmn_init`, on an array of at least one token or none at all. */
    constructor (pool: array?<Token>, grants: nat)
      requires pool != null ==> pool.Length >= 1
      ensures Valid() && Abs() == Init && tokens == pool && this.grants == grants
    {
      pos, toknext, toksuper := 0, 0, -1;
      tokens, this.grants := pool, grants;
    }

    /** `jsmn_alloc_token`: the index of a fresh token, or -1 when the array is full and cannot be
        doubled.  The allocated tokens keep their contents when the array is replaced. */
    method AllocToken(num: nat) returns (tok: int, num': nat)
      requires tokens != null && 1 <= num == tokens.Length && toknext <= num
      modifies this, tokens
      ensures tokens != null && num <= num' == tokens.Length
      ensures tokens == old(tokens) || fresh(tokens)
      ensures num' == if old(toknext) < num || old(grants) == 0 then num else 2 * num
      ensures Room() == old(Room())
      ensures pos == old(pos) && toksuper == old(toksuper)
      ensures tok == -1 ==>
                && toknext == old(toknext) == num && grants == old(grants) == 0
                && tokens == old(tokens) && tokens[..] == old(tokens[..])
      ensures tok != -1 ==>
                && tok == old(toknext) && toknext == tok + 1 <= tokens.Length
                && tokens[..tok] == old(tokens[..toknext])
                && tokens[tok] == Token(tokens[tok].kind, -1, -1, 0)
    {
      num' := num;
      if toknext >= num {
        if grants == 0 {
          return -1, num;
        }
        grants := grants - 1;
        num' := num * 2;
        var region := new Token[num'](_ => Token(PRIMITIVE, 0, 0, 0));
        for i := 0 to num
          modifies region
          invariant region[..i] == tokens[..i]
        {
          region[i] := tokens[i];
        }
        tokens := region;
      }
      tok := toknext;
      toknext := toknext + 1;
      tokens[tok] := Token(tokens[tok].kind, -1, -1, 0);
    }

    /** Allocates and fills one finished token. */
    method FillToken(num: nat, t: Token) returns (ok: bool, num': nat)
      requires tokens != null && 1 <= num == tokens.Length && toknext <= num
      modifies this, tokens
      ensures tokens != null && num <= num' == tokens.Length
      ensures tokens == old(tokens) || fresh(tokens)
      ensures pos == old(pos) && toksuper == old(toksuper) && toknext <= tokens.Length
      ensures tokens[..toknext] == old(tokens[..toknext]) + (if ok then [t] else [])
      ensures Room() == old(Room()) && (!ok ==> toknext == tokens.Length && grants == 0)
    {
      var tok;
      tok, num' := AllocToken(num);
      ok := tok != -1;
      if ok {
        tokens[tok] := t;
      }
    }

    /** `jsmn_parse_primitive`: leaves `pos` on the last byte of the primitive, and on any error
        where it was. */
    method ParsePrimitive(js: string, num: nat) returns (r: int, num': nat)
      requires More(js, pos) && !Delimiter(js[pos])
      requires tokens != null ==> 1 <= num == tokens.Length && toknext <= num
      modifies this, tokens
      ensures toksuper == old(toksuper) && (tokens == old(tokens) || fresh(tokens))
      ensures (tokens == null) == (old(tokens) == null)
      ensures tokens == null ==> toknext == old(toknext) && r != NOMEM_CODE
      ensures Room() == old(Room()) && (r == NOMEM_CODE ==> toknext == tokens.Length && grants == 0)
      ensures tokens != null ==> num <= num' == tokens.Length && toknext <= num'
      ensures r == 0 || r == NOMEM_CODE || r == INVAL_CODE
      ensures r == INVAL_CODE <==> PrimEnd(js, old(pos)) == None
      ensures r == 0 ==> PrimEnd(js, old(pos)) == Some(pos + 1)
      ensures r != 0 ==> pos == old(pos)
      ensures tokens != null ==>
                tokens[..toknext] == old(tokens[..toknext])
                  + (if r == 0 then [Token(PRIMITIVE, old(pos), pos + 1, 0)] else [])
    {
      num' := num;
      var start := pos;
      while More(js, pos) && !Delimiter(js[pos])
        invariant start <= pos <= |js|
        invariant tokens == old(tokens) && toknext == old(toknext) && toksuper == old(toksuper) && grants == old(grants)
        invariant tokens != null ==> tokens[..toknext] == old(tokens[..toknext])
        invariant PrimEnd(js, pos) == PrimEnd(js, start)
        decreases |js| - pos
      {
        if js[pos] < ' ' || js[pos] >= '\U{7F}' {
          pos := start;
          return INVAL_CODE, num;
        }
        pos := pos + 1;
      }
      if tokens == null {
        pos := pos - 1;
        return 0, num;
      }
      var ok;
      ok, num' := FillToken(num, Token(PRIMITIVE, start, pos, 0));
      if !ok {
        pos := start;
        return NOMEM_CODE, num';
      }
      pos := pos - 1;
      r := 0;
    }

    /** The four digits of a `\u` escape, from `pos` on; moves `pos` behind what it accepts. */
    method SkipHex(js: string) returns (ok: bool)
      requires pos <= |js|
      modifies this`pos
      ensures ok == HexScan(js, old(pos), 4).Some?
      ensures ok ==> pos == HexScan(js, old(pos), 4).value
    {
      var i := 0;
      while i < 4 && More(js, pos)
        invariant 0 <= i <= 4 && pos <= |js|
        invariant HexScan(js, pos, 4 - i) == HexScan(js, old(pos), 4)
      {
        if !Hex(js[pos]) {
          return false;
        }
        pos := pos + 1;
        i := i + 1;
      }
      ok := true;
    }

    /** `jsmn_parse_string`: leaves `pos` on the closing quote, and on any error where it was. */
    method ParseString(js: string, num: nat) returns (r: int, num': nat)
      requires More(js, pos) && js[pos] == '"'
      requires tokens != null ==> 1 <= num == tokens.Length && toknext <= num
      modifies this, tokens
      ensures toksuper == old(toksuper) && (tokens == old(tokens) || fresh(tokens))
      ensures (tokens == null) == (old(tokens) == null)
      ensures tokens == null ==> toknext == old(toknext) && r != NOMEM_CODE
      ensures Room() == old(Room()) && (r == NOMEM_CODE ==> toknext == tokens.Length && grants == 0)
      ensures tokens != null ==> num <= num' == tokens.Length && toknext <= num'
      ensures r == 0 || r == NOMEM_CODE || r == INVAL_CODE || r == PART_CODE
      ensures r == INVAL_CODE <==> StringScan(js, old(pos) + 1) == Bad
      ensures r == PART_CODE <==> StringScan(js, old(pos) + 1) == Cut
      ensures r == 0 ==> StringScan(js, old(pos) + 1) == Closed(pos)
      ensures r != 0 ==> pos == old(pos)
      ensures tokens != null ==>
                tokens[..toknext] == old(tokens[..toknext])
                  + (if r == 0 then [Token(STRING, old(pos) + 1, pos, 0)] else [])
    {
      num' := num;
      var start := pos;
      pos := pos + 1;
      while More(js, pos)
        invariant start < pos <= |js|
        invariant tokens == old(tokens) && toknext == old(toknext) && toksuper == old(toksuper) && grants == old(grants)
        invariant tokens != null ==> tokens[..toknext] == old(tokens[..toknext])
        invariant StringScan(js, pos) == StringScan(js, start + 1)
        decreases |js| - pos
      {
        var c := js[pos];
        if c == '"' {
          if tokens == null {
            return 0, num;
          }
          var ok;
          ok, num' := FillToken(num, Token(STRING, start + 1, pos, 0));
          if !ok {
            pos := start;
            return NOMEM_CODE, num';
          }
          return 0, num';
        }
        if c == '\\' {
          pos := pos + 1;
          if At(js, pos) == 'u' {
            pos := pos + 1;
            var ok := SkipHex(js);
            if !ok {
              pos := start;
              return INVAL_CODE, num;
            }
            pos := pos - 1;
          } else if !Escaped(At(js, pos)) {
            pos := start;
            return INVAL_CODE, num;
          }
        }
        pos := pos + 1;
      }
      pos := start;
      r := PART_CODE;
    }

    /** The scan of the token array, from index `n - 1` down, for the last open token. */
    method FindOpen(n: nat) returns (i: int)
      requires tokens != null && n <= toknext <= tokens.Length
      ensures i == LastOpen(tokens[..toknext], n)
    {
      i := n - 1;
      while i >= 0
        invariant -1 <= i < n
        invariant LastOpen(tokens[..toknext], n) == LastOpen(tokens[..toknext], i + 1)
      {
        if Open(tokens[i]) {
          return;
        }
        i := i - 1;
      }
    }

    /** One more child for the enclosing token. */
    method CountChild()
      requires tokens != null && toknext <= tokens.Length && -1 <= toksuper < toknext
      modifies tokens
      ensures tokens[..toknext] == Bump(old(tokens[..toknext]), toksuper)
    {
      if toksuper != -1 {
        tokens[toksuper] := tokens[toksuper].(size := tokens[toksuper].size + 1);
      }
    }

    /** The cases `{` and `[` of `jsmn_parse`, before `pos` moves on. */
    method OpenBracket(kind: Kind, num: nat) returns (ok: bool, num': nat)
      requires Valid() && tokens != null && num == tokens.Length
      modifies this, tokens
      ensures Valid() && tokens != null && num <= num' == tokens.Length
      ensures tokens == old(tokens) || fresh(tokens)
      ensures pos == old(pos) && (ok ==> Abs().(pos := pos + 1) == StepOpen(old(Abs()), kind))
      ensures ok ==> toknext == old(toknext) + 1
      ensures Room() == old(Room()) && (!ok ==> Abs() == old(Abs()) && toknext == tokens.Length && grants == 0)
    {
      hide Grown, Bump;
      ghost var before := Abs();
      var tok;
      tok, num' := AllocToken(num);
      ok := tok != -1;
      if ok {
        ghost var blank := tokens[tok];
        assert tokens[..toknext] == before.toks + [blank];
        CountChild();
        BumpAppend(before.toks, toksuper, blank);
        ghost var bumped := Bump(before.toks, toksuper) + [blank];
        assert tokens[tok] == bumped[tok] == blank;
        tokens[tok] := tokens[tok].(kind := kind, start := pos);
        toksuper := toknext - 1;
        assert tokens[..toknext] == bumped[tok := Token(kind, pos, -1, 0)];
      }
    }

    /** The cases `}` and `]` of `jsmn_parse`, before `pos` moves on. */
    method CloseBracket(kind: Kind) returns (ok: bool)
      requires Valid() && tokens != null
      modifies this`toksuper, tokens
      ensures Valid()
      ensures StepClose(old(Abs()), kind) == if ok then Go(Abs().(pos := pos + 1)) else Fail(Abs(), INVAL)
      ensures !ok ==> Abs() == old(Abs())
    {
      ghost var before := Abs();
      var i := FindOpen(toknext);
      if i == -1 || tokens[i].kind != kind {
        return false;
      }
      toksuper := -1;
      tokens[i] := tokens[i].(end := pos + 1);
      ghost var toks := before.toks[i := before.toks[i].(end := pos + 1)];
      assert tokens[..toknext] == toks;
      toksuper := FindOpen(i);
      JsmnInvariant.LastOpenSkip(toks, i, toknext);
      ok := true;
    }

    /** What one turn of the loop of `jsmn_parse` did to the state `before`, except that `pos` has
        yet to move on by one; `added` is what the turn adds to the count. */
    ghost predicate Turned(js: string, before: State, r: int, added: nat)
      requires Valid() && More(js, before.pos)
      reads this, tokens
    {
      && (r == 0 || r == NOMEM_CODE || r == INVAL_CODE || r == PART_CODE)
      && (r == 0 ==> before.pos <= pos < |js|)
      && (r != 0 ==> Abs() == before)
      && (if tokens == null then
            CountRun(js, before.pos) ==
              if r == 0 then JsmnInvariant.PlusN(CountRun(js, pos + 1), added)
              else Rejected(if r == PART_CODE then PART else INVAL)
          else if r == 0 then
            Step(js, before) == Go(Abs().(pos := pos + 1)) && toknext == |before.toks| + added
          else if r == NOMEM_CODE then
            && toknext == tokens.Length && grants == 0 && CountRun(js, before.pos) != Tally(0)
            && Step(js, before).Go? && |Step(js, before).st.toks| == |before.toks| + 1
          else
            Step(js, before) == Fail(before, if r == PART_CODE then PART else INVAL))
      && (tokens == null ==> r != NOMEM_CODE)
    }

    /** The cases for the four brackets. */
    method BracketCase(js: string, num: nat) returns (r: int, num': nat, added: nat)
      requires Valid() && (tokens != null ==> num == tokens.Length) && More(js, pos)
      requires var c := js[pos]; c == '{' || c == '[' || c == '}' || c == ']'
      modifies this, tokens
      ensures Valid() && (tokens == null) == (old(tokens) == null)
      ensures tokens == old(tokens) || fresh(tokens)
      ensures tokens != null ==> num <= num' == tokens.Length
      ensures Turned(js, old(Abs()), r, added) && Room() == old(Room())
    {
      r, num', added := 0, num, 0;
      var c := js[pos];
      if c == '{' || c == '[' {
        added := 1;
        if tokens != null {
          var ok;
          ok, num' := OpenBracket(if c == '{' then OBJECT else ARRAY, num);
          if !ok {
            r := NOMEM_CODE;
          }
        }
      } else if tokens != null {
        var ok := CloseBracket(if c == '}' then OBJECT else ARRAY);
        if !ok {
          r := INVAL_CODE;
        }
      }
    }

    /** The case of a quote. */
    method StringCase(js: string, num: nat) returns (r: int, num': nat)
      requires Valid() && (tokens != null ==> num == tokens.Length)
      requires More(js, pos) && js[pos] == '"'
      modifies this, tokens
      ensures Valid() && (tokens == null) == (old(tokens) == null)
      ensures tokens == old(tokens) || fresh(tokens)
      ensures tokens != null ==> num <= num' == tokens.Length
      ensures Turned(js, old(Abs()), r, 1) && Room() == old(Room())
    {
      hide StringScan, LastOpen, PrimEnd;
      ghost var before := Abs();
      r, num' := ParseString(js, num);
      if r < 0 {
        assert tokens != null ==> tokens[..toknext] == before.toks;
        return;
      }
      if toksuper != -1 && tokens != null {
        CountChild();
      }
      if tokens != null {
        LeafState(before, tokens[..toknext], Token(STRING, before.pos + 1, pos, 0));
      }
    }

    /** The default case: a primitive. */
    method PrimitiveCase(js: string, num: nat) returns (r: int, num': nat)
      requires Valid() && (tokens != null ==> num == tokens.Length)
      requires More(js, pos) && !Delimiter(js[pos])
      requires var c := js[pos]; c != '{' && c != '[' && c != '"'
      modifies this, tokens
      ensures Valid() && (tokens == null) == (old(tokens) == null)
      ensures tokens == old(tokens) || fresh(tokens)
      ensures tokens != null ==> num <= num' == tokens.Length
      ensures Turned(js, old(Abs()), r, 1) && Room() == old(Room())
    {
      hide StringScan, LastOpen, PrimEnd;
      ghost var before := Abs();
      r, num' := ParsePrimitive(js, num);
      if r < 0 {
        assert tokens != null ==> tokens[..toknext] == before.toks;
        return;
      }
      if toksuper != -1 && tokens != null {
        CountChild();
      }
      if tokens != null {
        LeafState(before, tokens[..toknext], Token(PRIMITIVE, before.pos, pos + 1, 0));
      }
    }

    /** The switch of `jsmn_parse`. */
    method Turn(js: string, num: nat) returns (r: int, num': nat, added: nat)
      requires Valid() && (tokens != null ==> num == tokens.Length) && More(js, pos)
      modifies this, tokens
      ensures Valid() && (tokens == null) == (old(tokens) == null)
      ensures tokens == old(tokens) || fresh(tokens)
      ensures tokens != null ==> num <= num' == tokens.Length
      ensures Turned(js, old(Abs()), r, added) && Room() == old(Room())
    {
      r, num', added := 0, num, 0;
      var c := js[pos];
      if c == '{' || c == '[' || c == '}' || c == ']' {
        r, num', added := BracketCase(js, num);
      } else if c == '"' {
        r, num' := StringCase(js, num);
        added := 1;
      } else if !Blank(c) {
        r, num' := PrimitiveCase(js, num);
        added := 1;
      }
    }

    /** `jsmn_parse` from any valid state, fresh or resumed.  With a token array the outcome, the
        tokens and the parser state are those of `Run`, whatever the capacity; an allocation failure
        stops at a state from which `Run` goes on to the same outcome.  Without a token array the
        result is that of `CountRun`. */
    method Parse(js: string, numTokens: nat) returns (r: int)
      requires Valid() && (tokens != null ==> numTokens == tokens.Length)
      modifies this, tokens
      ensures Valid() && (tokens == null) == (old(tokens) == null)
      ensures r >= 0 || r == NOMEM_CODE || r == INVAL_CODE || r == PART_CODE
      ensures tokens != null && r >= 0 ==>
                Run(js, old(Abs())) == Go(Abs()) && r == toknext - old(toknext)
      ensures tokens != null && (r == INVAL_CODE || r == PART_CODE) ==>
                Run(js, old(Abs())) == Fail(Abs(), if r == PART_CODE then PART else INVAL)
      ensures r == NOMEM_CODE ==> tokens != null && Run(js, Abs()) == Run(js, old(Abs()))
      ensures tokens != null ==> (r == NOMEM_CODE <==> |Run(js, old(Abs())).st.toks| > Grown(numTokens, old(grants)))
      ensures r == NOMEM_CODE && CountRun(js, old(pos)).Tally? ==>
                numTokens <= tokens.Length == toknext < old(toknext) + CountRun(js, old(pos)).n
      ensures tokens == null ==>
                match CountRun(js, old(pos))
                case Tally(n) => r == n
                case Rejected(code) => r == CodeOf(code)
    {
      hide Step, CountRun, LastOpen;
      var num := numTokens;
      var count := 0;
      ghost var start := Abs();
      while More(js, pos)
        invariant Valid() && (tokens == null) == (old(tokens) == null)
        invariant tokens == old(tokens) || fresh(tokens)
        invariant tokens != null ==> numTokens <= num == tokens.Length
        invariant Room() == old(Room())
        invariant tokens != null ==> Run(js, Abs()) == Run(js, start) && count == toknext - |start.toks|
        invariant CountRun(js, start.pos) == JsmnInvariant.PlusN(CountRun(js, pos), count)
        invariant count >= 0
        decreases |js| - pos
      {
        ghost var before := Abs();
        var added;
        r, num, added := Turn(js, num);
        if r < 0 {
          if r == NOMEM_CODE {
            RunGrows(js, Step(js, before).st);
          }
          return;
        }
        ghost var after := Abs();
        pos := pos + 1;
        assert Abs() == after.(pos := pos);
        if tokens != null {
          JsmnInvariant.CountTurn(js, before);
        }
        count := count + added;
      }
      CountEnds(js, pos);
      if tokens != null {
        var i := FindOpen(toknext);
        if i >= 0 {
          return PART_CODE;
        }
      }
      r := count;
    }
  }

  /** The two passes jsmn is made for: a count, then a parse into an array of exactly that size.
      The array never has to grow: without a single allocation the second pass gives the verdict
      and the tokens of `Run`. */
  method CountThenFill(js: string) returns (r: int, toks: seq<Token>)
    ensures r != NOMEM_CODE
    ensures r >= 0 ==> Run(js, Init).Go? && toks == Run(js, Init).st.toks && r == |toks|
    ensures r < 0 ==> Run(js, Init).Fail?
  {
    toks := [];
    var counter := new Parser(null, 0);
    var n := counter.Parse(js, 0);
    if n < 0 {
      if Run(js, Init).Go? {
        JsmnInvariant.CountMatches(js, Init);
      }
      return n, toks;
    }
    var size := if n == 0 then 1 else n;
    var pool := new Token[size](_ => Token(PRIMITIVE, 0, 0, 0));
    var parser := new Parser(pool, 0);
    r := parser.Parse(js, size);
    if r >= 0 {
      toks := parser.tokens[..parser.toknext];
    }
  }

  lemma BumpAppend(toks: seq<Token>, sup: int, t: Token)
    requires sup < |toks|
    ensures Bump(toks + [t], sup) == Bump(toks, sup) + [t]
  {
  }

  /** A run never drops a token. */
  lemma {:induction false} RunGrows(js: string, st: State)
    ensures |Run(js, st).st.toks| >= |st.toks|
    decreases |js| - st.pos
  {
    if More(js, st.pos) && Step(js, st).Go? {
      RunGrows(js, Step(js, st).st);
    }
  }

  lemma CountEnds(js: string, pos: nat)
    requires !More(js, pos)
    ensures CountRun(js, pos) == Tally(0)
  {
  }

  /** Appending a finished token and counting it keeps the innermost open token. */
  lemma LeafState(before: State, toks: seq<Token>, t: Token)
    requires before.sup == LastOpen(before.toks, |before.toks|) && !Open(t)
    requires toks == Bump(before.toks + [t], before.sup)
    ensures toks == Bump(before.toks, before.sup) + [t]
    ensures before.sup == LastOpen(toks, |toks|)
  {
    JsmnInvariant.LastOpenSame(before.toks, toks, |before.toks|);
  }
}
