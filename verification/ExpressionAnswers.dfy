/** When the two visitors of expressions answer at all instead of throwing. */
module ExpressionAnswers {
  import opened Expressions
  import opened Hashing
  import opened Sequences

  /** The nodes at which the hasher stops descending. */
  function Leaves(e: Expr): seq<Expr> {
    match e
    case IfThenElse(_, thn, els) => Leaves(thn) + Leaves(els)
    case Max(l, r) => Leaves(l) + Leaves(r)
    case Min(l, r) => Leaves(l) + Leaves(r)
    case Record(atts) => LeavesOfAll(atts)
    case Hint(x) => Leaves(x)
    case Ref(x) => Leaves(x)
    case _ => [e]
  }

  function LeavesOfAll(es: seq<Expr>): seq<Expr> {
    if es == [] then [] else Leaves(es[0]) + LeavesOfAll(es[1..])
  }

  /** The only record the hasher cannot take apart and still hash is a projected one, if the plugin does. */
  predicate Hashable(rt: Runtime, env: Bindings, x: Expr) {
    TypeOf(x).RECORD? ==> x.Projection? && rt.hashObject(env(x.attr)).Some?
  }

  ghost predicate AllHashable(rt: Runtime, env: Bindings, leaves: seq<Expr>) {
    forall x :: x in leaves ==> Hashable(rt, env, x)
  }

  lemma HashableBoth(rt: Runtime, env: Bindings, a: seq<Expr>, b: seq<Expr>)
    ensures AllHashable(rt, env, a + b) <==> AllHashable(rt, env, a) && AllHashable(rt, env, b)
  {
    if AllHashable(rt, env, a + b) {
      forall x | x in a ensures Hashable(rt, env, x) {
        assert x in a + b;
      }
      forall x | x in b ensures Hashable(rt, env, x) {
        assert x in a + b;
      }
    }
  }

  /** A well-typed expression has a hash if and only if no record is computed below its constructions and
      choices, and the plugin hashes all that are projected there. */
  lemma {:induction false} HashExistsIff(rt: Runtime, env: Bindings, e: Expr)
    requires Typed(rt, env, e)
    ensures Hash(rt, env, e).Some? <==> AllHashable(rt, env, Leaves(e))
  {
    hide HashInt32, HashInt64, AllHashable;
    match e
    case IfThenElse(_, thn, els) =>
      HashExistsIff(rt, env, thn);
      HashExistsIff(rt, env, els);
      HashableBoth(rt, env, Leaves(thn), Leaves(els));
    case Max(l, r) =>
      HashExistsIff(rt, env, l);
      HashExistsIff(rt, env, r);
      HashableBoth(rt, env, Leaves(l), Leaves(r));
    case Min(l, r) =>
      HashExistsIff(rt, env, l);
      HashExistsIff(rt, env, r);
      HashableBoth(rt, env, Leaves(l), Leaves(r));
    case Record(atts) => AllHashesExistIff(rt, env, atts, 0);
    case Hint(x) => HashExistsIff(rt, env, x);
    case Ref(x) => HashExistsIff(rt, env, x);
    case _ =>
      HashableOne(rt, env, e);
  }

  lemma HashableOne(rt: Runtime, env: Bindings, e: Expr)
    ensures AllHashable(rt, env, [e]) <==> Hashable(rt, env, e)
  {
    assert e in [e];
  }

  lemma {:induction false} AllHashesExistIff(rt: Runtime, env: Bindings, es: seq<Expr>, seed: Word)
    requires AllTyped(rt, env, es)
    ensures HashAll(rt, env, es, seed).Some? <==> AllHashable(rt, env, LeavesOfAll(es))
  {
    hide Hash, Combine, Leaves, Hashable;
    if es != [] {
      HashExistsIff(rt, env, es[0]);
      var h := Hash(rt, env, es[0]);
      AllHashesExistIff(rt, env, es[1..], if h.Some? then Combine(seed, h.value) else 0);
      HashableBoth(rt, env, Leaves(es[0]), LeavesOfAll(es[1..]));
    }
  }

  /** In particular every well-typed expression that is not a record has a hash. */
  lemma {:induction false} PrimitivesHash(rt: Runtime, env: Bindings, e: Expr)
    requires Typed(rt, env, e) && !TypeOf(e).RECORD?
    ensures Hash(rt, env, e).Some?
  {
    hide HashInt32, HashInt64;
    match e
    case IfThenElse(_, thn, els) =>
      PrimitivesHash(rt, env, thn);
      PrimitivesHash(rt, env, els);
    case Max(l, r) =>
      PrimitivesHash(rt, env, l);
      PrimitivesHash(rt, env, r);
    case Min(l, r) =>
      PrimitivesHash(rt, env, l);
      PrimitivesHash(rt, env, r);
    case Hint(x) => PrimitivesHash(rt, env, x);
    case Ref(x) => PrimitivesHash(rt, env, x);
    case _ =>
  }

  /** And that hash is the one of its value, whatever the plugin does with records. */
  lemma PrimitiveHashIs(rt: Runtime, env: Bindings, e: Expr)
    requires Typed(rt, env, e) && !TypeOf(e).RECORD?
    ensures Hash(rt, env, e) == Some(HashValue(rt, Eval(rt, env, e)))
  {
    hide Hash, HashValue;
    PrimitivesHash(rt, env, e);
    PrimitivesAlike(rt, env, e);
    HashIsOfValue(rt, env, e);
  }

  // The dot visitor.

  /** The pairs of nodes at which the dot visitor stops descending. */
  function LeafPairs(a: Expr, b: Expr): seq<(Expr, Expr)>
    decreases a
  {
    if a.Record? && b.Record? then LeafPairsOfAll(a.atts, b.atts)
    else if a.Cast? && b.Cast? then LeafPairs(a.inner, b.inner)
    else if a.Hint? && b.Hint? then LeafPairs(a.hinted, b.hinted)
    else if a.Ref? && b.Ref? then LeafPairs(a.target, b.target)
    else [(a, b)]
  }

  function LeafPairsOfAll(a: seq<Expr>, b: seq<Expr>): seq<(Expr, Expr)>
    decreases a
  {
    if a == [] || b == [] then [] else LeafPairs(a[0], b[0]) + LeafPairsOfAll(a[1..], b[1..])
  }

  /** What can be compared: any constants of one type, projections of anything but 64-bit integers,
      comparisons and connectives of any operands, null tests, and otherwise operators and choices of a few
      types only. */
  predicate Comparison(rt: Runtime, left: Bindings, right: Bindings, a: Expr, b: Expr) {
    if a.Const? && b.Const? then TypeOf(a) == TypeOf(b)
    else if a.Projection? && b.Projection? then
      TypeOf(a) != INT64 && (TypeOf(a).RECORD? ==> rt.hashObject(left(a.attr)).Some? && rt.hashObject(right(b.attr)).Some?)
    else if a.Binary? && b.Binary? then
      a.op == b.op && (a.op in {Eq, Ne, Ge, Gt, Le, Lt, And, Or} || TypeOf(a) in {INT, FLOAT, BOOL})
    else if a.Unary? && b.Unary? then
      a.uop == b.uop && (a.uop == TestNull || TypeOf(a) in {INT, FLOAT, BOOL, DSTRING})
    else
      && ((a.IfThenElse? && b.IfThenElse?) || (a.Max? && b.Max?) || (a.Min? && b.Min?))
      && TypeOf(a) in {INT, FLOAT, BOOL, STRING}
  }

  ghost predicate AllCompared(rt: Runtime, left: Bindings, right: Bindings, pairs: seq<(Expr, Expr)>) {
    forall p :: p in pairs ==> Comparison(rt, left, right, p.0, p.1)
  }

  lemma ComparedBoth(rt: Runtime, left: Bindings, right: Bindings, a: seq<(Expr, Expr)>, b: seq<(Expr, Expr)>)
    ensures AllCompared(rt, left, right, a + b) <==>
            AllCompared(rt, left, right, a) && AllCompared(rt, left, right, b)
  {
    hide Comparison;
    if AllCompared(rt, left, right, a + b) {
      forall p | p in a ensures Comparison(rt, left, right, p.0, p.1) {
        assert p in a + b;
      }
      forall p | p in b ensures Comparison(rt, left, right, p.0, p.1) {
        assert p in a + b;
      }
    }
  }

  lemma ComparedOne(rt: Runtime, left: Bindings, right: Bindings, a: Expr, b: Expr)
    ensures AllCompared(rt, left, right, [(a, b)]) <==> Comparison(rt, left, right, a, b)
  {
    hide Comparison;
    assert (a, b) in [(a, b)];
  }

  /** Two well-typed expressions of the same shape get a verdict if and only if all the pairs of nodes at
      which the visitor arrives can be compared. */
  lemma {:induction false} DotAnswersIff(rt: Runtime, left: Bindings, right: Bindings, a: Expr, b: Expr)
    requires Typed(rt, left, a) && Typed(rt, right, b) && SameShape(a, b)
    ensures Dot(rt, left, right, a, b).Some? <==> AllCompared(rt, left, right, LeafPairs(a, b))
    decreases a
  {
    hide AllCompared, HashInt32, HashInt64;
    if a.Record? {
      DotAllAnswersIff(rt, left, right, a.atts, b.atts);
    } else if a.Cast? {
      DotAnswersIff(rt, left, right, a.inner, b.inner);
    } else if a.Hint? {
      DotAnswersIff(rt, left, right, a.hinted, b.hinted);
    } else if a.Ref? {
      DotAnswersIff(rt, left, right, a.target, b.target);
    } else {
      ComparedOne(rt, left, right, a, b);
      LeafAnswersIff(rt, left, right, a, b);
    }
  }

  lemma LeafAnswersIff(rt: Runtime, left: Bindings, right: Bindings, a: Expr, b: Expr)
    requires Typed(rt, left, a) && Typed(rt, right, b) && SameShape(a, b)
    requires !a.Record? && !a.Cast? && !a.Hint? && !a.Ref?
    ensures Dot(rt, left, right, a, b).Some? <==> Comparison(rt, left, right, a, b)
  {
    hide HashInt32, HashInt64;
  }

  lemma {:induction false} DotAllAnswersIff(rt: Runtime, left: Bindings, right: Bindings, a: seq<Expr>, b: seq<Expr>)
    requires AllTyped(rt, left, a) && AllTyped(rt, right, b) && SameShapes(a, b)
    ensures DotAll(rt, left, right, a, b).Some? <==> AllCompared(rt, left, right, LeafPairsOfAll(a, b))
    decreases a
  {
    hide Dot, LeafPairs, Comparison;
    if a != [] {
      DotAnswersIff(rt, left, right, a[0], b[0]);
      DotAllAnswersIff(rt, left, right, a[1..], b[1..]);
      ComparedBoth(rt, left, right, LeafPairs(a[0], b[0]), LeafPairsOfAll(a[1..], b[1..]));
    }
  }

  // One expression on two sides, as in joins and groupings.

  lemma {:induction false} ShapeOfSelf(e: Expr)
    ensures SameShape(e, e)
  {
    match e
    case Record(atts) => ShapesOfSelf(atts);
    case Cast(_, x) => ShapeOfSelf(x);
    case Hint(x) => ShapeOfSelf(x);
    case Ref(x) => ShapeOfSelf(x);
    case _ =>
  }

  lemma {:induction false} ShapesOfSelf(es: seq<Expr>)
    ensures SameShapes(es, es)
  {
    if es != [] {
      ShapeOfSelf(es[0]);
      ShapesOfSelf(es[1..]);
    }
  }

  /** Without casts, the verdict on one expression over two bindings exists and is the equality of its values,
      if all that the visitor arrives at can be compared and projected records are kept apart. */
  lemma EqualityDecided(rt: Runtime, left: Bindings, right: Bindings, e: Expr)
    requires Typed(rt, left, e) && Typed(rt, right, e) && CastFree(e) && AllApart(rt, e)
    requires AllCompared(rt, left, right, LeafPairs(e, e))
    ensures Dot(rt, left, right, e, e) == Some(Eval(rt, left, e) == Eval(rt, right, e))
  {
    hide Dot, Eval, Typed, CastFree, AllApart, LeafPairs, AllCompared;
    ShapeOfSelf(e);
    DotAnswersIff(rt, left, right, e, e);
    DotDecides(rt, left, right, e, e);
  }
}
