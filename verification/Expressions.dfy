/** Expression hashing and tandem equality: what the code emitted by the hasher and the dot visitor
    computes.  Types and operators are those of the expression language; what an operator, a cast or
    the hash of a double, a boolean or a string computes is left open, so the results hold for all of
    them. */
module Expressions {
  import opened Hashing
  import opened Sequences

  datatype Type = INT | INT64 | FLOAT | BOOL | STRING | DSTRING | DATE | RECORD(fields: seq<Type>)

  datatype Value =
    | VInt(i: Int32) | VInt64(w: Word) | VFloat(f: real) | VBool(b: bool) | VString(s: string)
    | VDString(code: Int32) | VDate(d: Word) | VRecord(vs: seq<Value>)

  predicate HasType(v: Value, t: Type)
    decreases t
  {
    match t
    case INT => v.VInt?
    case INT64 => v.VInt64?
    case FLOAT => v.VFloat?
    case BOOL => v.VBool?
    case STRING => v.VString?
    case DSTRING => v.VDString?
    case DATE => v.VDate?
    case RECORD(fields) =>
      v.VRecord? && |v.vs| == |fields| && forall i :: 0 <= i < |fields| ==> HasType(v.vs[i], fields[i])
  }

  datatype BinOp = Eq | Ne | Ge | Gt | Le | Lt | And | Or | Add | Sub | Mult | Div | Mod | Shl | Lshr | Ashr | XOr

  datatype UnOp = Neg | Extract | TestNull

  datatype Expr =
    | Const(v: Value)
    | Projection(attr: string, ptype: Type)
    | Binary(op: BinOp, btype: Type, l: Expr, r: Expr)
    | Unary(uop: UnOp, utype: Type, arg: Expr)
    | IfThenElse(cond: Expr, thn: Expr, els: Expr)
    | Max(ml: Expr, mr: Expr)
    | Min(nl: Expr, nr: Expr)
    | Record(atts: seq<Expr>)
    | Cast(to: Type, inner: Expr)
    | Hint(hinted: Expr)
    | Ref(target: Expr)

  /** What the generated code calls or computes without it being spelled out here.  `hashObject` is the
      plugin's hash of a projected record, None where it throws. */
  datatype Runtime = Runtime(
    binary: (BinOp, Value, Value) -> Value,
    unary: (UnOp, Value) -> Value,
    cast: (Type, Value) -> Value,
    hashDouble: real -> Word,
    hashBoolean: bool -> Word,
    hashString: string -> Word,
    hashObject: Value -> Option<Word>)

  type Bindings = string -> Value

  function TypeOfValue(v: Value): Type {
    match v
    case VInt(_) => INT
    case VInt64(_) => INT64
    case VFloat(_) => FLOAT
    case VBool(_) => BOOL
    case VString(_) => STRING
    case VDString(_) => DSTRING
    case VDate(_) => DATE
    case VRecord(vs) => RECORD(seq(|vs|, i requires 0 <= i < |vs| => TypeOfValue(vs[i])))
  }

  /** Every value has exactly one type. */
  lemma {:induction false} TypeOfValueIff(v: Value, t: Type)
    ensures HasType(v, t) <==> t == TypeOfValue(v)
    decreases v
  {
    if v.VRecord? {
      var own := TypeOfValue(v);
      forall i | 0 <= i < |v.vs| ensures HasType(v.vs[i], own.fields[i]) {
        TypeOfValueIff(v.vs[i], own.fields[i]);
      }
      if HasType(v, t) {
        forall i | 0 <= i < |v.vs| ensures t.fields[i] == own.fields[i] {
          TypeOfValueIff(v.vs[i], t.fields[i]);
        }
      }
    }
  }

  function TypeOf(e: Expr): Type {
    match e
    case Const(v) => TypeOfValue(v)
    case Projection(_, t) => t
    case Binary(_, t, _, _) => t
    case Unary(_, t, _) => t
    case IfThenElse(_, thn, _) => TypeOf(thn)
    case Max(l, _) => TypeOf(l)
    case Min(l, _) => TypeOf(l)
    case Record(atts) => RECORD(Types(atts))
    case Cast(to, _) => to
    case Hint(x) => TypeOf(x)
    case Ref(x) => TypeOf(x)
  }

  function Types(es: seq<Expr>): seq<Type> {
    if es == [] then [] else [TypeOf(es[0])] + Types(es[1..])
  }

  function Pick(c: Value, a: Value, b: Value): Value {
    if c == VBool(true) then a else b
  }

  /** The value the expression generator computes. */
  function Eval(rt: Runtime, env: Bindings, e: Expr): Value {
    match e
    case Const(v) => v
    case Projection(attr, _) => env(attr)
    case Binary(op, _, l, r) => rt.binary(op, Eval(rt, env, l), Eval(rt, env, r))
    case Unary(op, _, x) => rt.unary(op, Eval(rt, env, x))
    case IfThenElse(c, thn, els) => Pick(Eval(rt, env, c), Eval(rt, env, thn), Eval(rt, env, els))
    case Max(l, r) =>
      var a, b := Eval(rt, env, l), Eval(rt, env, r);
      Pick(rt.binary(Gt, a, b), a, b)
    case Min(l, r) =>
      var a, b := Eval(rt, env, l), Eval(rt, env, r);
      Pick(rt.binary(Lt, a, b), a, b)
    case Record(atts) => VRecord(EvalAll(rt, env, atts))
    case Cast(to, x) => rt.cast(to, Eval(rt, env, x))
    case Hint(x) => Eval(rt, env, x)
    case Ref(x) => Eval(rt, env, x)
  }

  function EvalAll(rt: Runtime, env: Bindings, es: seq<Expr>): (vs: seq<Value>)
    ensures |vs| == |es|
  {
    if es == [] then [] else [Eval(rt, env, es[0])] + EvalAll(rt, env, es[1..])
  }

  /** Every subexpression has its declared type, the branches of a choice agree, and records are not cast. */
  ghost predicate Typed(rt: Runtime, env: Bindings, e: Expr) {
    && HasType(Eval(rt, env, e), TypeOf(e))
    && match e
       case Const(v) => !v.VRecord?
       case Projection(_, _) => true
       case Binary(_, _, l, r) => Typed(rt, env, l) && Typed(rt, env, r)
       case Unary(_, _, x) => Typed(rt, env, x)
       case IfThenElse(c, thn, els) =>
         Typed(rt, env, c) && Typed(rt, env, thn) && Typed(rt, env, els) && TypeOf(thn) == TypeOf(els)
       case Max(l, r) => Typed(rt, env, l) && Typed(rt, env, r) && TypeOf(l) == TypeOf(r)
       case Min(l, r) => Typed(rt, env, l) && Typed(rt, env, r) && TypeOf(l) == TypeOf(r)
       case Record(atts) => AllTyped(rt, env, atts)
       case Cast(_, x) => Typed(rt, env, x) && !TypeOf(x).RECORD?
       case Hint(x) => Typed(rt, env, x)
       case Ref(x) => Typed(rt, env, x)
  }

  ghost predicate AllTyped(rt: Runtime, env: Bindings, es: seq<Expr>) {
    es == [] || (Typed(rt, env, es[0]) && AllTyped(rt, env, es[1..]))
  }

  /** `hashPrimitive`; it throws on a type that is not primitive. */
  function HashPrimitive(rt: Runtime, t: Type, v: Value): Option<Word> {
    if !HasType(v, t) then None
    else match t
      case INT => Some(HashInt32(v.i))
      case DSTRING => Some(HashInt32(v.code))
      case INT64 => Some(HashInt64(v.w))
      case DATE => Some(HashInt64(v.d))
      case FLOAT => Some(rt.hashDouble(v.f))
      case BOOL => Some(rt.hashBoolean(v.b))
      case STRING => Some(rt.hashString(v.s))
      case RECORD(_) => None
  }

  /** The hash visitor.  Code for both branches of a choice is generated, so an unsupported branch
      throws whether or not it is taken. */
  function Hash(rt: Runtime, env: Bindings, e: Expr): Option<Word> {
    match e
    case IfThenElse(c, thn, els) =>
      HashChoice(Eval(rt, env, c), Hash(rt, env, thn), Hash(rt, env, els))
    case Max(l, r) =>
      HashChoice(rt.binary(Gt, Eval(rt, env, l), Eval(rt, env, r)), Hash(rt, env, l), Hash(rt, env, r))
    case Min(l, r) =>
      HashChoice(rt.binary(Lt, Eval(rt, env, l), Eval(rt, env, r)), Hash(rt, env, l), Hash(rt, env, r))
    case Record(atts) => HashAll(rt, env, atts, 0)
    case Hint(x) => Hash(rt, env, x)
    case Ref(x) => Hash(rt, env, x)
    case Projection(attr, t) =>
      if t.RECORD? then rt.hashObject(env(attr)) else HashPrimitive(rt, t, env(attr))
    case _ => HashPrimitive(rt, TypeOf(e), Eval(rt, env, e))
  }

  function HashChoice(c: Value, a: Option<Word>, b: Option<Word>): Option<Word> {
    if a.None? || b.None? then None else if c == VBool(true) then a else b
  }

  function HashAll(rt: Runtime, env: Bindings, es: seq<Expr>, seed: Word): Option<Word> {
    if es == [] then Some(seed)
    else
      var h := Hash(rt, env, es[0]);
      if h.None? then None else HashAll(rt, env, es[1..], Combine(seed, h.value))
  }

  /** The hash as a function of the value alone. */
  function HashValue(rt: Runtime, v: Value): Word {
    match v
    case VInt(i) => HashInt32(i)
    case VDString(code) => HashInt32(code)
    case VInt64(w) => HashInt64(w)
    case VDate(d) => HashInt64(d)
    case VFloat(f) => rt.hashDouble(f)
    case VBool(b) => rt.hashBoolean(b)
    case VString(s) => rt.hashString(s)
    case VRecord(vs) => HashValues(rt, vs, 0)
  }

  function HashValues(rt: Runtime, vs: seq<Value>, seed: Word): Word {
    if vs == [] then seed else HashValues(rt, vs[1..], Combine(seed, HashValue(rt, vs[0])))
  }

  /** The plugin hashes a projected record of this type as the hasher hashes a constructed one. */
  ghost predicate HashesAlike(rt: Runtime, t: Type) {
    forall v: Value :: HasType(v, t) && v.VRecord? && rt.hashObject(v).Some? ==>
      rt.hashObject(v).value == HashValue(rt, v)
  }

  /** It does so for every record projected where the hasher looks. */
  ghost predicate AllAlike(rt: Runtime, e: Expr) {
    match e
    case Projection(_, t) => HashesAlike(rt, t)
    case IfThenElse(_, thn, els) => AllAlike(rt, thn) && AllAlike(rt, els)
    case Max(l, r) => AllAlike(rt, l) && AllAlike(rt, r)
    case Min(l, r) => AllAlike(rt, l) && AllAlike(rt, r)
    case Record(atts) => EachAlike(rt, atts)
    case Hint(x) => AllAlike(rt, x)
    case Ref(x) => AllAlike(rt, x)
    case _ => true
  }

  ghost predicate EachAlike(rt: Runtime, es: seq<Expr>) {
    es == [] || (AllAlike(rt, es[0]) && EachAlike(rt, es[1..]))
  }

  lemma {:induction false} PrimitivesAlike(rt: Runtime, env: Bindings, e: Expr)
    requires Typed(rt, env, e) && !TypeOf(e).RECORD?
    ensures AllAlike(rt, e)
  {
    match e
    case IfThenElse(_, thn, els) =>
      PrimitivesAlike(rt, env, thn);
      PrimitivesAlike(rt, env, els);
    case Max(l, r) =>
      PrimitivesAlike(rt, env, l);
      PrimitivesAlike(rt, env, r);
    case Min(l, r) =>
      PrimitivesAlike(rt, env, l);
      PrimitivesAlike(rt, env, r);
    case Hint(x) => PrimitivesAlike(rt, env, x);
    case Ref(x) => PrimitivesAlike(rt, env, x);
    case _ =>
  }

  /** The hasher's result depends only on the evaluated value. */
  lemma {:induction false} HashIsOfValue(rt: Runtime, env: Bindings, e: Expr)
    requires Typed(rt, env, e) && Hash(rt, env, e).Some? && AllAlike(rt, e)
    ensures Hash(rt, env, e).value == HashValue(rt, Eval(rt, env, e))
  {
    hide HashInt32, HashInt64, Combine;
    match e
    case IfThenElse(c, thn, els) =>
      HashIsOfValue(rt, env, thn);
      HashIsOfValue(rt, env, els);
    case Max(l, r) =>
      HashIsOfValue(rt, env, l);
      HashIsOfValue(rt, env, r);
    case Min(l, r) =>
      HashIsOfValue(rt, env, l);
      HashIsOfValue(rt, env, r);
    case Record(atts) =>
      HashAllIsOfValues(rt, env, atts, 0);
    case Hint(x) =>
      HashIsOfValue(rt, env, x);
    case Ref(x) =>
      HashIsOfValue(rt, env, x);
    case _ =>
  }

  lemma {:induction false} HashAllIsOfValues(rt: Runtime, env: Bindings, es: seq<Expr>, seed: Word)
    requires AllTyped(rt, env, es) && HashAll(rt, env, es, seed).Some? && EachAlike(rt, es)
    ensures HashAll(rt, env, es, seed).value == HashValues(rt, EvalAll(rt, env, es), seed)
  {
    hide HashInt32, HashInt64, Combine;
    if es != [] {
      HashIsOfValue(rt, env, es[0]);
      HashAllIsOfValues(rt, env, es[1..], Combine(seed, Hash(rt, env, es[0]).value));
      assert EvalAll(rt, env, es)[1..] == EvalAll(rt, env, es[1..]);
    }
  }

  lemma {:induction false} AlikeEverywhere(rt: Runtime, e: Expr)
    requires forall t :: HashesAlike(rt, t)
    ensures AllAlike(rt, e)
  {
    hide HashesAlike;
    match e
    case IfThenElse(_, thn, els) =>
      AlikeEverywhere(rt, thn);
      AlikeEverywhere(rt, els);
    case Max(l, r) =>
      AlikeEverywhere(rt, l);
      AlikeEverywhere(rt, r);
    case Min(l, r) =>
      AlikeEverywhere(rt, l);
      AlikeEverywhere(rt, r);
    case Record(atts) => AlikeInEach(rt, atts);
    case Hint(x) => AlikeEverywhere(rt, x);
    case Ref(x) => AlikeEverywhere(rt, x);
    case _ =>
  }

  lemma {:induction false} AlikeInEach(rt: Runtime, es: seq<Expr>)
    requires forall t :: HashesAlike(rt, t)
    ensures EachAlike(rt, es)
  {
    hide HashesAlike;
    if es != [] {
      AlikeEverywhere(rt, es[0]);
      AlikeInEach(rt, es[1..]);
    }
  }

  /** For all expressions and bindings, it does exactly if the plugin hashes projected records of every
      type as constructed ones. */
  lemma HashIsOfValueIff(rt: Runtime)
    ensures (forall env, e :: HashedByValue(rt, env, e)) <==> (forall t :: HashesAlike(rt, t))
  {
    hide HashValue, AllAlike, HashPrimitive, HashInt32, HashInt64;
    if forall t :: HashesAlike(rt, t) {
      forall env, e ensures HashedByValue(rt, env, e) {
        AlikeEverywhere(rt, e);
        if Typed(rt, env, e) && Hash(rt, env, e).Some? {
          HashIsOfValue(rt, env, e);
        }
      }
    } else {
      var t :| !HashesAlike(rt, t);
      var v: Value :| HasType(v, t) && v.VRecord? && rt.hashObject(v).Some?
        && rt.hashObject(v).value != HashValue(rt, v);
      assert !HashedByValue(rt, _ => v, Projection("", t));
    }
  }

  ghost predicate HashedByValue(rt: Runtime, env: Bindings, e: Expr) {
    Typed(rt, env, e) && Hash(rt, env, e).Some? ==> Hash(rt, env, e).value == HashValue(rt, Eval(rt, env, e))
  }

  /** Records that differ only in a last attribute of an integer, date or dictionary type never collide. */
  lemma LastValueDecides(rt: Runtime, vs: seq<Value>, v: Value, w: Value)
    requires TypeOfValue(v) == TypeOfValue(w) && TypeOfValue(v) in {INT, INT64, DATE, DSTRING}
    ensures HashValue(rt, VRecord(vs + [v])) == HashValue(rt, VRecord(vs + [w])) <==> v == w
  {
    hide HashValue, Combine;
    HashValuesLast(rt, vs, v, 0);
    HashValuesLast(rt, vs, w, 0);
    RecordHash(rt, vs + [v]);
    RecordHash(rt, vs + [w]);
    ValueHashDecides(rt, v, w);
    var seed := HashValues(rt, vs, 0);
    if Combine(seed, HashValue(rt, v)) == Combine(seed, HashValue(rt, w)) {
      CombineInjective(seed, HashValue(rt, v), HashValue(rt, w));
    }
  }

  lemma RecordHash(rt: Runtime, vs: seq<Value>)
    ensures HashValue(rt, VRecord(vs)) == HashValues(rt, vs, 0)
  {
  }

  lemma ValueHashDecides(rt: Runtime, v: Value, w: Value)
    requires TypeOfValue(v) == TypeOfValue(w) && TypeOfValue(v) in {INT, INT64, DATE, DSTRING}
    ensures HashValue(rt, v) == HashValue(rt, w) <==> v == w
  {
    hide HashInt32, HashInt64, HashValues;
    match v
    case VInt(i) => HashesDecideEquality(0, 0, i, w.i);
    case VInt64(x) => HashesDecideEquality(x, w.w, 0, 0);
    case VDate(d) => HashesDecideEquality(d, w.d, 0, 0);
    case VDString(c) => HashesDecideEquality(0, 0, c, w.code);
  }

  lemma {:induction false} HashValuesLast(rt: Runtime, vs: seq<Value>, v: Value, seed: Word)
    ensures HashValues(rt, vs + [v], seed) == Combine(HashValues(rt, vs, seed), HashValue(rt, v))
    decreases |vs|
  {
    hide Combine, HashInt32, HashInt64;
    if vs == [] {
      assert [] + [v] == [v] && [v][1..] == [];
    } else {
      assert (vs + [v])[1..] == vs[1..] + [v];
      HashValuesLast(rt, vs[1..], v, Combine(seed, HashValue(rt, vs[0])));
    }
  }

  function Decide(supported: bool, equal: bool): Option<bool> {
    if supported then Some(equal) else None
  }

  /** The types that most visits of the dot visitor compare; it throws on the others. */
  predicate Comparable(t: Type) {
    t == INT || t == FLOAT || t == BOOL
  }

  predicate Arithmetic(op: BinOp) {
    op in {Add, Sub, Mult, Div, Mod, Shl, Lshr, Ashr, XOr}
  }

  /** The dot visitor: whether two expressions, each over its own bindings, are taken to be equal.
      None where it throws: different node kinds, or types it does not compare. */
  function Dot(rt: Runtime, left: Bindings, right: Bindings, a: Expr, b: Expr): Option<bool>
    decreases a
  {
    var same := Eval(rt, left, a) == Eval(rt, right, b);
    match a
    case Const(v) => Decide(b.Const? && TypeOf(a) == TypeOf(b), same)
    case Projection(_, t) =>
      if !b.Projection? then None
      else if Comparable(t) || t == STRING then Some(same)
      else if t == INT64 then None
      else
        var h, k := Hash(rt, left, a), Hash(rt, right, b);
        Decide(h.Some? && k.Some?, h == k)
    case Binary(op, t, _, _) =>
      Decide(b.Binary? && b.op == op && (Arithmetic(op) ==> Comparable(t)), same)
    case Unary(op, t, _) =>
      Decide(b.Unary? && b.uop == op && (op == TestNull || Comparable(t) || t == DSTRING), same)
    case IfThenElse(_, _, _) =>
      Decide(b.IfThenElse? && (Comparable(TypeOf(a)) || TypeOf(a) == STRING), same)
    case Max(_, _) => Decide(b.Max? && (Comparable(TypeOf(a)) || TypeOf(a) == STRING), same)
    case Min(_, _) => Decide(b.Min? && (Comparable(TypeOf(a)) || TypeOf(a) == STRING), same)
    case Record(atts) => if b.Record? then DotAll(rt, left, right, atts, b.atts) else None
    case Cast(_, x) => if b.Cast? then Dot(rt, left, right, x, b.inner) else None
    case Hint(x) => if b.Hint? then Dot(rt, left, right, x, b.hinted) else None
    case Ref(x) => if b.Ref? then Dot(rt, left, right, x, b.target) else None
  }

  /** Attributes in pairs; what one record has beyond the other is not looked at. */
  function DotAll(rt: Runtime, left: Bindings, right: Bindings, a: seq<Expr>, b: seq<Expr>): Option<bool>
    decreases a
  {
    if a == [] || b == [] then Some(true)
    else
      var d := Dot(rt, left, right, a[0], b[0]);
      var rest := DotAll(rt, left, right, a[1..], b[1..]);
      Decide(d.Some? && rest.Some?, d.Some? && d.value && rest.Some? && rest.value)
  }

  /** The loop over the attributes of two record constructions. */
  method DotRecord(rt: Runtime, left: Bindings, right: Bindings, a: seq<Expr>, b: seq<Expr>)
    returns (r: Option<bool>)
    ensures r == DotAll(rt, left, right, a, b)
  {
    hide Dot;
    var result := true;
    var i := 0;
    while i < |a| && i < |b|
      invariant 0 <= i <= |a| && i <= |b|
      invariant var rest := DotAll(rt, left, right, a[i..], b[i..]);
                DotAll(rt, left, right, a, b) == Decide(rest.Some?, result && rest == Some(true))
    {
      assert a[i..][1..] == a[i + 1..] && b[i..][1..] == b[i + 1..];
      var d := Dot(rt, left, right, a[i], b[i]);
      if d.None? {
        return None;
      }
      result := result && d.value;
      i := i + 1;
    }
    r := Some(result);
  }

  /** The same types where the visitor compares, the same cast targets and record arities. */
  predicate SameShape(a: Expr, b: Expr)
    decreases a
  {
    match a
    case Record(atts) => b.Record? && SameShapes(atts, b.atts)
    case Cast(to, x) => b.Cast? && b.to == to && SameShape(x, b.inner)
    case Hint(x) => b.Hint? && SameShape(x, b.hinted)
    case Ref(x) => b.Ref? && SameShape(x, b.target)
    case _ => TypeOf(a) == TypeOf(b)
  }

  predicate SameShapes(a: seq<Expr>, b: seq<Expr>)
    decreases a
  {
    if a == [] || b == [] then a == b else SameShape(a[0], b[0]) && SameShapes(a[1..], b[1..])
  }

  /** No cast on the way that the visitor descends. */
  predicate CastFree(a: Expr) {
    match a
    case Record(atts) => CastFrees(atts)
    case Cast(_, _) => false
    case Hint(x) => CastFree(x)
    case Ref(x) => CastFree(x)
    case _ => true
  }

  predicate CastFrees(a: seq<Expr>) {
    a == [] || (CastFree(a[0]) && CastFrees(a[1..]))
  }

  /** Comparing hashes of DATE and DSTRING projections is comparing the values. */
  lemma HashComparison(rt: Runtime, t: Type, v: Value, w: Value)
    requires HasType(v, t) && HasType(w, t) && (t == DATE || t == DSTRING)
    ensures HashPrimitive(rt, t, v) == HashPrimitive(rt, t, w) <==> v == w
  {
    hide HashInt32, HashInt64;
    if t == DATE {
      HashesDecideEquality(v.d, w.d, 0, 0);
    } else {
      HashesDecideEquality(0, 0, v.code, w.code);
    }
  }

  /** The plugin's hash keeps different records of this type apart. */
  ghost predicate KeepsApart(rt: Runtime, t: Type) {
    forall v: Value, w: Value ::
      HasType(v, t) && HasType(w, t) && rt.hashObject(v).Some? && rt.hashObject(v) == rt.hashObject(w) ==> v == w
  }

  /** It does so for every record projected where the dot visitor looks. */
  ghost predicate AllApart(rt: Runtime, e: Expr) {
    match e
    case Projection(_, t) => t.RECORD? ==> KeepsApart(rt, t)
    case Record(atts) => EachApart(rt, atts)
    case Hint(x) => AllApart(rt, x)
    case Ref(x) => AllApart(rt, x)
    case _ => true
  }

  ghost predicate EachApart(rt: Runtime, es: seq<Expr>) {
    es == [] || (AllApart(rt, es[0]) && EachApart(rt, es[1..]))
  }

  lemma {:induction false} PrimitivesApart(rt: Runtime, env: Bindings, e: Expr)
    requires Typed(rt, env, e) && !TypeOf(e).RECORD?
    ensures AllApart(rt, e)
  {
    match e
    case Hint(x) => PrimitivesApart(rt, env, x);
    case Ref(x) => PrimitivesApart(rt, env, x);
    case _ =>
  }

  /** What the dot visitor accepts has equal values; without casts on the way it accepts exactly
      the pairs with equal values. */
  lemma {:induction false} DotDecides(rt: Runtime, left: Bindings, right: Bindings, a: Expr, b: Expr)
    requires Typed(rt, left, a) && Typed(rt, right, b) && SameShape(a, b)
    requires Dot(rt, left, right, a, b).Some? && AllApart(rt, a)
    ensures Dot(rt, left, right, a, b).value ==> Eval(rt, left, a) == Eval(rt, right, b)
    ensures CastFree(a) ==>
              (Dot(rt, left, right, a, b).value <==> Eval(rt, left, a) == Eval(rt, right, b))
    decreases a
  {
    hide HashPrimitive;
    match a
    case Projection(_, t) =>
      if t == DATE || t == DSTRING {
        HashComparison(rt, t, Eval(rt, left, a), Eval(rt, right, b));
      }
    case Record(atts) =>
      DotAllDecides(rt, left, right, atts, b.atts);
    case Cast(_, x) =>
      PrimitivesApart(rt, left, x);
      DotDecides(rt, left, right, x, b.inner);
    case Hint(x) =>
      DotDecides(rt, left, right, x, b.hinted);
    case Ref(x) =>
      DotDecides(rt, left, right, x, b.target);
    case _ =>
  }

  lemma {:induction false} DotAllDecides(rt: Runtime, left: Bindings, right: Bindings,
                                         a: seq<Expr>, b: seq<Expr>)
    requires AllTyped(rt, left, a) && AllTyped(rt, right, b) && SameShapes(a, b)
    requires DotAll(rt, left, right, a, b).Some? && EachApart(rt, a)
    ensures DotAll(rt, left, right, a, b).value ==> EvalAll(rt, left, a) == EvalAll(rt, right, b)
    ensures CastFrees(a) ==>
              (DotAll(rt, left, right, a, b).value <==> EvalAll(rt, left, a) == EvalAll(rt, right, b))
    decreases a
  {
    if a != [] {
      DotDecides(rt, left, right, a[0], b[0]);
      DotAllDecides(rt, left, right, a[1..], b[1..]);
      var va, vb := EvalAll(rt, left, a), EvalAll(rt, right, b);
      assert va[1..] == EvalAll(rt, left, a[1..]) && vb[1..] == EvalAll(rt, right, b[1..]);
      assert va == vb <==> va[0] == vb[0] && va[1..] == vb[1..];
    }
  }

  /** Projected records are compared by the plugin's hash: the verdict is about their values, for all
      bindings, exactly if that hash keeps records of their type apart. */
  lemma ObjectsDecideIff(rt: Runtime, attr: string, fields: seq<Type>)
    ensures (forall left, right :: ObjectsCompared(rt, left, right, attr, fields)) <==> KeepsApart(rt, RECORD(fields))
  {
    var t := RECORD(fields);
    if KeepsApart(rt, t) {
      forall left, right ensures ObjectsCompared(rt, left, right, attr, fields) {
      }
    } else {
      var v: Value, w: Value :| HasType(v, t) && HasType(w, t) && rt.hashObject(v).Some?
        && rt.hashObject(v) == rt.hashObject(w) && v != w;
      assert !ObjectsCompared(rt, _ => v, _ => w, attr, fields);
    }
  }

  ghost predicate ObjectsCompared(rt: Runtime, left: Bindings, right: Bindings, attr: string, fields: seq<Type>) {
    var p := Projection(attr, RECORD(fields));
    Typed(rt, left, p) && Typed(rt, right, p) && Dot(rt, left, right, p, p).Some? ==>
      (Dot(rt, left, right, p, p).value <==> Eval(rt, left, p) == Eval(rt, right, p))
  }

  /** Joins and grouping: expressions that the dot visitor accepts have equal hashes, whatever the plugin
      does with projected records. */
  lemma {:induction false} AcceptedHashesAgree(rt: Runtime, left: Bindings, right: Bindings, a: Expr, b: Expr)
    requires Typed(rt, left, a) && Typed(rt, right, b) && SameShape(a, b)
    requires Dot(rt, left, right, a, b) == Some(true)
    requires Hash(rt, left, a).Some? && Hash(rt, right, b).Some?
    ensures Hash(rt, left, a) == Hash(rt, right, b)
    decreases a
  {
    hide HashValue, HashPrimitive, Combine;
    match a
    case Record(atts) => AcceptedAllAgree(rt, left, right, atts, b.atts, 0);
    case Hint(x) => AcceptedHashesAgree(rt, left, right, x, b.hinted);
    case Ref(x) => AcceptedHashesAgree(rt, left, right, x, b.target);
    case _ =>
      if !IsObject(a) {
        HashIsPrimitive(rt, left, right, a, b);
        PrimitivesApart(rt, left, a);
        PrimitivesAlike(rt, left, a);
        PrimitivesAlike(rt, right, b);
        DotDecides(rt, left, right, a, b);
        HashIsOfValue(rt, left, a);
        HashIsOfValue(rt, right, b);
      }
  }

  predicate IsObject(e: Expr) {
    e.Projection? && e.ptype.RECORD?
  }

  /** What is compared by value is not a record. */
  lemma HashIsPrimitive(rt: Runtime, left: Bindings, right: Bindings, a: Expr, b: Expr)
    requires Typed(rt, left, a) && SameShape(a, b) && Hash(rt, left, a).Some?
    requires Dot(rt, left, right, a, b) == Some(true)
    requires !a.Record? && !a.Hint? && !a.Ref? && !IsObject(a)
    ensures !TypeOf(a).RECORD? && !TypeOf(b).RECORD?
  {
    hide Eval, HashInt32, HashInt64, HasType;
  }

  lemma {:induction false} AcceptedAllAgree(rt: Runtime, left: Bindings, right: Bindings, a: seq<Expr>,
                                            b: seq<Expr>, seed: Word)
    requires AllTyped(rt, left, a) && AllTyped(rt, right, b) && SameShapes(a, b)
    requires DotAll(rt, left, right, a, b) == Some(true)
    requires HashAll(rt, left, a, seed).Some? && HashAll(rt, right, b, seed).Some?
    ensures HashAll(rt, left, a, seed) == HashAll(rt, right, b, seed)
    decreases a
  {
    hide Combine;
    if a != [] {
      AcceptedHashesAgree(rt, left, right, a[0], b[0]);
      AcceptedAllAgree(rt, left, right, a[1..], b[1..], Combine(seed, Hash(rt, left, a[0]).value));
    }
  }

  /** Records of different arity can be accepted: the accepted pair is equal exactly when the
      arities are. */
  lemma ArityDecides(rt: Runtime, left: Bindings, right: Bindings, a: seq<Expr>, b: seq<Expr>)
    requires AllTyped(rt, left, a) && AllTyped(rt, right, b)
    requires |a| == |b| ==> SameShapes(a, b) && EachApart(rt, a)
    requires Dot(rt, left, right, Record(a), Record(b)) == Some(true)
    ensures Eval(rt, left, Record(a)) == Eval(rt, right, Record(b)) <==> |a| == |b|
  {
    if |a| == |b| {
      DotAllDecides(rt, left, right, a, b);
    }
  }

  lemma {:induction false} DotAllBeyond(rt: Runtime, left: Bindings, right: Bindings, a: seq<Expr>, b: seq<Expr>,
                                        more: seq<Expr>)
    requires |a| == |b|
    ensures DotAll(rt, left, right, a, b + more) == DotAll(rt, left, right, a, b)
    ensures DotAll(rt, left, right, a + more, b) == DotAll(rt, left, right, a, b)
    decreases |a|
  {
    hide Dot;
    if a == [] {
      assert [] + more == more;
    } else {
      assert (b + more)[1..] == b[1..] + more && (a + more)[1..] == a[1..] + more;
      DotAllBeyond(rt, left, right, a[1..], b[1..], more);
    }
  }

  /** Two records keep their verdict whatever attributes one of them has beyond the other, so every accepted
      pair has accepted partners of another arity, which are never equal. */
  lemma UnequalArityAccepted(rt: Runtime, left: Bindings, right: Bindings, a: seq<Expr>, b: seq<Expr>, more: seq<Expr>)
    requires |a| == |b| && more != []
    ensures Dot(rt, left, right, Record(a), Record(b + more)) == Dot(rt, left, right, Record(a), Record(b))
         == Dot(rt, left, right, Record(a + more), Record(b))
    ensures Eval(rt, left, Record(a)) != Eval(rt, right, Record(b + more))
    ensures Eval(rt, left, Record(a + more)) != Eval(rt, right, Record(b))
  {
    DotAllBeyond(rt, left, right, a, b, more);
  }

  // Casts are compared before the cast.

  /** Values of the type stay different under the cast. */
  ghost predicate Injective(rt: Runtime, to: Type, t: Type) {
    forall v: Value, w: Value :: HasType(v, t) && HasType(w, t) && rt.cast(to, v) == rt.cast(to, w) ==> v == w
  }

  /** Under an injective cast the verdict on any two expressions is about the cast values. */
  lemma CastDecides(rt: Runtime, left: Bindings, right: Bindings, to: Type, x: Expr, y: Expr)
    requires Typed(rt, left, Cast(to, x)) && Typed(rt, right, Cast(to, y)) && SameShape(x, y) && CastFree(x)
    requires TypeOf(x) == TypeOf(y) && Injective(rt, to, TypeOf(x))
    requires Dot(rt, left, right, Cast(to, x), Cast(to, y)).Some?
    ensures Dot(rt, left, right, Cast(to, x), Cast(to, y)).value
            <==> Eval(rt, left, Cast(to, x)) == Eval(rt, right, Cast(to, y))
  {
    PrimitivesApart(rt, left, x);
    DotDecides(rt, left, right, x, y);
  }

  /** The verdict on two cast attributes is about the cast values for all bindings exactly if the cast is
      injective on their type. */
  lemma CastIff(rt: Runtime, to: Type, t: Type, attr: string)
    requires !t.RECORD? && t != INT64
    ensures (forall left, right :: CastsCompared(rt, left, right, to, t, attr)) <==> Injective(rt, to, t)
  {
    hide CastsCompared;
    if Injective(rt, to, t) {
      forall left, right ensures CastsCompared(rt, left, right, to, t, attr) {
        CastsComparedIff(rt, left, right, to, t, attr);
      }
    } else {
      var v: Value, w: Value :| HasType(v, t) && HasType(w, t) && rt.cast(to, v) == rt.cast(to, w) && v != w;
      var left: Bindings, right: Bindings := _ => v, _ => w;
      CastsComparedIff(rt, left, right, to, t, attr);
      assert !CastsCompared(rt, left, right, to, t, attr);
    }
  }

  lemma CastsComparedIff(rt: Runtime, left: Bindings, right: Bindings, to: Type, t: Type, attr: string)
    requires !t.RECORD? && t != INT64
    ensures var v, w := left(attr), right(attr);
            CastsCompared(rt, left, right, to, t, attr)
            <==> (HasType(v, t) && HasType(w, t) ==> (v == w <==> rt.cast(to, v) == rt.cast(to, w)))
  {
    hide HashPrimitive;
    if HasType(left(attr), t) && HasType(right(attr), t) {
      ProjectionsCompared(rt, left, right, attr, t);
    }
  }

  ghost predicate CastsCompared(rt: Runtime, left: Bindings, right: Bindings, to: Type, t: Type, attr: string) {
    var p := Projection(attr, t);
    Typed(rt, left, p) && Typed(rt, right, p) ==>
      Dot(rt, left, right, Cast(to, p), Cast(to, p))
      == Some(Eval(rt, left, Cast(to, p)) == Eval(rt, right, Cast(to, p)))
  }

  lemma ProjectionsCompared(rt: Runtime, left: Bindings, right: Bindings, attr: string, t: Type)
    requires !t.RECORD? && t != INT64 && HasType(left(attr), t) && HasType(right(attr), t)
    ensures var p := Projection(attr, t); Dot(rt, left, right, p, p) == Some(left(attr) == right(attr))
  {
    hide HashInt32, HashInt64;
    if t == DATE || t == DSTRING {
      HashComparison(rt, t, left(attr), right(attr));
    }
  }

  /** Casts that drop the fraction: 1.2 and 1.7 are cast to the same integer and yet told apart. */
  lemma TruncatingCast(rt: Runtime)
    requires rt.cast(INT, VFloat(1.2)) == VInt(1) == rt.cast(INT, VFloat(1.7))
    ensures var e := Cast(INT, Projection("x", FLOAT));
            var left, right := (_: string) => VFloat(1.2), (_: string) => VFloat(1.7);
            && Typed(rt, left, e) && Typed(rt, right, e)
            && Eval(rt, left, e) == Eval(rt, right, e) && Dot(rt, left, right, e, e) == Some(false)
  {
  }
}
