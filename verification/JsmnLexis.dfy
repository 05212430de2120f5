/** What the scanners of strings and primitives accept and reject, told by the bytes alone. */
module JsmnLexis {
  import opened JsmnSpec
  import opened JsonText
  import opened Sequences

  /** `s` stands in the text at position `p`. */
  ghost predicate Has(js: string, p: nat, s: string) {
    p + |s| <= |js| && forall k :: 0 <= k < |s| ==> js[p + k] == s[k]
  }

  lemma HasSplit(js: string, p: nat, a: string, b: string)
    requires Has(js, p, a + b)
    ensures Has(js, p, a) && Has(js, p + |a|, b)
  {
    forall k | 0 <= k < |a| ensures js[p + k] == a[k] {
      assert (a + b)[k] == a[k];
    }
    forall k | 0 <= k < |b| ensures js[p + |a| + k] == b[k] {
      assert (a + b)[|a| + k] == b[k];
    }
  }

  lemma HasJoin(js: string, p: nat, a: string, b: string)
    requires Has(js, p, a) && Has(js, p + |a|, b)
    ensures Has(js, p, a + b)
  {
    forall k | 0 <= k < |a + b| ensures js[p + k] == (a + b)[k] {
      if k >= |a| {
        assert js[p + |a| + (k - |a|)] == b[k - |a|];
      }
    }
  }

  lemma HasAll(js: string)
    ensures Has(js, 0, js)
  {
  }

  lemma HasChar(js: string, p: nat, s: string, k: nat)
    requires Has(js, p, s) && k < |s|
    ensures p + k < |js| && js[p + k] == s[k]
  {
  }

  // Strings.

  /** A piece of a string's inside. Unlike in RFC 8259, control characters may stand for themselves. */
  predicate Piece(x: Char) {
    match x
    case Plain(c) => c != '\0' && c != '"' && c != '\\'
    case Escape(c) => SimpleEscape(c)
    case Unicode(a, b, c, d) => HexDigit(a) && HexDigit(b) && HexDigit(c) && HexDigit(d)
  }

  predicate Pieces(s: seq<Char>) {
    forall k :: 0 <= k < |s| ==> Piece(s[k])
  }

  /** Nothing, or a Unicode escape with fewer than four digits. A backslash alone is not one. */
  predicate Unfinished(t: string) {
    t == "" || (2 <= |t| < 6 && t[0] == '\\' && t[1] == 'u' && forall k :: 2 <= k < |t| ==> HexDigit(t[k]))
  }

  lemma {:induction false} HexScanIs(js: string, p: nat, t: string, n: nat)
    requires Has(js, p, t) && |t| <= n && forall k :: 0 <= k < |t| ==> HexDigit(t[k])
    requires |t| == n || !More(js, p + |t|)
    ensures HexScan(js, p, n) == Some(p + |t|)
    decreases n
  {
    if t != "" {
      HasChar(js, p, t, 0);
      assert t == t[..1] + t[1..];
      HasSplit(js, p, t[..1], t[1..]);
      HexScanIs(js, p + 1, t[1..], n - 1);
    }
  }

  lemma PieceScans(js: string, p: nat, x: Char)
    requires Piece(x) && Has(js, p, CharText(x))
    ensures StringScan(js, p) == StringScan(js, p + |CharText(x)|)
  {
    HasChar(js, p, CharText(x), 0);
    if !x.Plain? {
      HasChar(js, p, CharText(x), 1);
      if x.Unicode? {
        var t := CharText(x);
        assert t == t[..2] + t[2..];
        HasSplit(js, p, t[..2], t[2..]);
        HexScanIs(js, p + 2, t[2..], 4);
      }
    }
  }

  lemma {:induction false} PiecesScan(js: string, p: nat, s: seq<Char>)
    requires Pieces(s) && Has(js, p, CharsText(s))
    ensures StringScan(js, p) == StringScan(js, p + |CharsText(s)|)
    decreases |s|
  {
    hide StringScan, Has, Piece, CharText;
    if s != [] {
      HasSplit(js, p, CharText(s[0]), CharsText(s[1..]));
      PieceScans(js, p, s[0]);
      PiecesScan(js, p + |CharText(s[0])|, s[1..]);
    }
  }

  lemma UnfinishedScans(js: string, p: nat, t: string)
    requires Unfinished(t) && Has(js, p, t) && !More(js, p + |t|)
    ensures StringScan(js, p) == Cut
  {
    if t != "" {
      HasChar(js, p, t, 0);
      HasChar(js, p, t, 1);
      assert t == t[..2] + t[2..];
      HasSplit(js, p, t[..2], t[2..]);
      HexScanIs(js, p + 2, t[2..], 4);
    }
  }

  /** The digits that are scanned. */
  lemma {:induction false} ScannedHex(js: string, p: nat, n: nat)
    requires HexScan(js, p, n).Some? && p <= |js|
    ensures var e := HexScan(js, p, n).value; forall k :: p <= k < e ==> HexDigit(js[k])
    ensures var e := HexScan(js, p, n).value; e == p + n || !More(js, e)
    decreases n
  {
    if n > 0 && More(js, p) {
      ScannedHex(js, p + 1, n - 1);
    }
  }

  /** A string that goes on does so with a piece or with an unfinished escape. */
  lemma NextPiece(js: string, p: nat) returns (x: Char, t: string)
    requires More(js, p) && js[p] != '"' && StringScan(js, p) != Bad
    ensures t == "" ==> Piece(x) && Has(js, p, CharText(x))
    ensures t != "" ==> StringScan(js, p) == Cut && Unfinished(t) && Has(js, p, t) && !More(js, p + |t|)
  {
    x, t := Plain(js[p]), "";
    if js[p] == '\\' {
      if js[p + 1] == 'u' {
        ScannedHex(js, p + 2, 4);
        var e := HexScan(js, p + 2, 4).value;
        if e == p + 6 {
          x := Unicode(js[p + 2], js[p + 3], js[p + 4], js[p + 5]);
        } else {
          t := js[p..e];
        }
      } else {
        x := Escape(js[p + 1]);
      }
    }
  }

  lemma PieceFirst(x: Char, rest: seq<Char>, t: string)
    requires Piece(x) && Pieces(rest)
    ensures Pieces([x] + rest) && CharsText([x] + rest) == CharText(x) + CharsText(rest) && CharText(x) != ""
    ensures CharsText([x] + rest) + t == CharText(x) + (CharsText(rest) + t)
  {
    assert ([x] + rest)[1..] == rest;
  }

  lemma NoPieces(t: string)
    ensures Pieces([]) && CharsText([]) == "" && CharsText([]) + t == t
  {
  }

  /** What is scanned before a string closes or the text ends. */
  lemma {:induction false} Scanned(js: string, p: nat) returns (s: seq<Char>, t: string)
    requires p <= |js| && StringScan(js, p) != Bad
    ensures Pieces(s) && Unfinished(t) && Has(js, p, CharsText(s) + t)
    ensures var r := StringScan(js, p);
            var e := p + |CharsText(s)| + |t|;
            if r.Closed? then t == "" && e == r.at else !More(js, e)
    decreases |js| - p
  {
    s, t := [], "";
    NoPieces("");
    if More(js, p) && js[p] != '"' {
      hide StringScan, Piece, Pieces, CharText, CharsText, Unfinished, Has;
      var x;
      x, t := NextPiece(js, p);
      NoPieces(t);
      if t == "" {
        var rest;
        PieceScans(js, p, x);
        PieceFirst(x, [], "");
        PieceFits(js, p, x);
        rest, t := Scanned(js, p + |CharText(x)|);
        s := [x] + rest;
        PieceFirst(x, rest, t);
        HasJoin(js, p, CharText(x), CharsText(rest) + t);
      }
    }
  }

  lemma PieceFits(js: string, p: nat, x: Char)
    requires Has(js, p, CharText(x))
    ensures p + |CharText(x)| <= |js|
  {
  }

  /** A string closes at `e` if and only if a quote stands there behind pieces. */
  lemma ClosesIff(js: string, p: nat, e: nat)
    requires p <= |js|
    ensures StringScan(js, p) == Closed(e) <==>
            p <= e < |js| && js[e] == '"' && exists s :: Pieces(s) && CharsText(s) == js[p..e]
  {
    if StringScan(js, p) == Closed(e) {
      var s, t := Scanned(js, p);
      assert CharsText(s) + t == CharsText(s) == js[p..e];
    } else if p <= e < |js| && js[e] == '"' {
      forall s | Pieces(s) ensures CharsText(s) != js[p..e] {
        if CharsText(s) == js[p..e] {
          PiecesScan(js, p, s);
        }
      }
    }
  }

  /** The text ends behind the pieces and possibly an unfinished escape. */
  ghost predicate EndsBehind(js: string, p: nat, s: seq<Char>, t: string) {
    Pieces(s) && Unfinished(t) && Has(js, p, CharsText(s) + t) && !More(js, p + |CharsText(s)| + |t|)
  }

  /** A string is cut off if and only if the text ends behind pieces and possibly an unfinished escape. Any
      other string that does not close is bad. */
  lemma CutIff(js: string, p: nat)
    requires p <= |js|
    ensures StringScan(js, p) == Cut <==> exists s, t :: EndsBehind(js, p, s, t)
  {
    hide StringScan, Has, Unfinished, Pieces, CharsText;
    if StringScan(js, p) == Cut {
      var s, t := Scanned(js, p);
      assert EndsBehind(js, p, s, t);
    }
    forall s, t | EndsBehind(js, p, s, t) ensures StringScan(js, p) == Cut {
      HasSplit(js, p, CharsText(s), t);
      PiecesScan(js, p, s);
      UnfinishedScans(js, p + |CharsText(s)|, t);
    }
  }

  // Primitives.

  /** What separates tokens, besides brackets. */
  predicate Separator(c: char) {
    c == ' ' || c == '\t' || c == '\r' || c == '\n' || c == ':' || c == ','
  }

  /** A printable byte of ASCII that does not end a primitive. */
  predicate PrimByte(c: char) {
    ' ' <= c <= '~' && !Separator(c) && c != ']' && c != '}'
  }

  /** A primitive may end here. */
  predicate Ends(js: string, p: nat) {
    !More(js, p) || Separator(js[p]) || js[p] == ']' || js[p] == '}'
  }

  /** A primitive ends where a separator, a closing bracket or the end of the text follows, with only
      printable bytes before, and nowhere else. */
  lemma {:induction false} PrimEndIff(js: string, p: nat, e: nat)
    ensures PrimEnd(js, p) == Some(e) <==>
            p <= e && Ends(js, e) && (p < e ==> e <= |js|) && forall k :: p <= k < e && k < |js| ==> PrimByte(js[k])
    decreases |js| - p
  {
    if !Ends(js, p) {
      PrimEndIff(js, p + 1, e);
    }
  }
}
