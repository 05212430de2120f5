/** Projected records under a plugin that hashes them as the hasher hashes constructed ones: which record
    types the dot visitor decides. */
module ObjectHashes {
  import opened Expressions
  import opened HashCollision
  import opened Hashing
  import opened Sequences

  /** The types that are hashed as integers. */
  predicate IntegerLike(t: Type) {
    t == INT || t == INT64 || t == DATE || t == DSTRING
  }

  /** The plugin hashes every record of this type, and as the hasher does. */
  ghost predicate HasherLike(rt: Runtime, t: Type) {
    forall v: Value :: HasType(v, t) ==> rt.hashObject(v) == Some(HashValue(rt, v))
  }

  lemma {:induction false} HashValuesConcat(rt: Runtime, vs: seq<Value>, ws: seq<Value>, seed: Word)
    ensures HashValues(rt, vs + ws, seed) == HashValues(rt, ws, HashValues(rt, vs, seed))
    decreases |vs|
  {
    hide Combine, HashValue;
    if vs == [] {
      assert [] + ws == ws;
    } else {
      assert (vs + ws)[1..] == vs[1..] + ws;
      HashValuesConcat(rt, vs[1..], ws, Combine(seed, HashValue(rt, vs[0])));
    }
  }

  // A single attribute.

  lemma OneAttributeApart(rt: Runtime, t: Type, v: Value, w: Value)
    requires IntegerLike(t) && HasType(v, RECORD([t])) && HasType(w, RECORD([t]))
    requires HashValue(rt, v) == HashValue(rt, w)
    ensures v == w
  {
    assert v == VRecord([v.vs[0]]) && w == VRecord([w.vs[0]]);
    assert [] + [v.vs[0]] == [v.vs[0]] && [] + [w.vs[0]] == [w.vs[0]];
    assert HasType(v.vs[0], [t][0]) && HasType(w.vs[0], [t][0]);
    LastValueDecides(rt, [], v.vs[0], w.vs[0]);
  }

  // Two attributes and more.

  /** A value of the type with the hash of the integer `k`. */
  function ValueLike(t: Type, k: Int32): (v: Value)
    requires IntegerLike(t)
    ensures HasType(v, t)
  {
    match t
    case INT => VInt(k)
    case DSTRING => VDString(k)
    case INT64 => VInt64(UnhashInt64(HashInt32(k)))
    case DATE => VDate(UnhashInt64(HashInt32(k)))
  }

  lemma HashLike(rt: Runtime, t: Type, k: Int32)
    requires IntegerLike(t)
    ensures HashValue(rt, ValueLike(t, k)) == HashInt32(k)
  {
    hide HashInt32, HashInt64, UnhashInt64;
    HashInt64Bijective(HashInt32(k));
  }

  function Pair(t: Type, u: Type, i: Int32, j: Int32): seq<Value>
    requires IntegerLike(t) && IntegerLike(u)
  {
    [ValueLike(t, i), ValueLike(u, j)]
  }

  lemma HashOfPair(rt: Runtime, t: Type, u: Type, i: Int32, j: Int32)
    requires IntegerLike(t) && IntegerLike(u)
    ensures HashValues(rt, Pair(t, u, i, j), 0) == CombineAll(0, [HashInt32(i), HashInt32(j)])
  {
    hide Combine, HashValue, HashInt32, ValueLike;
    var p := Pair(t, u, i, j);
    HashLike(rt, t, i);
    HashLike(rt, u, j);
    var h := Combine(0, HashInt32(i));
    assert p[1..] == [p[1]] && [p[1]][1..] == [];
    assert HashValues(rt, p, 0) == HashValues(rt, [p[1]], h) == HashValues(rt, [], Combine(h, HashInt32(j)));
    TwoCombined(HashInt32(i), HashInt32(j));
  }

  /** The same two records for every such type: 0 with -39947289, and -508122200 with 0. */
  lemma FirstTwoCollide(rt: Runtime, t: Type, u: Type, rest: seq<Value>)
    requires IntegerLike(t) && IntegerLike(u)
    ensures HashValue(rt, VRecord(Pair(t, u, 0, -39947289) + rest)) == HashValue(rt, VRecord(Pair(t, u, -508122200, 0) + rest))
    ensures Pair(t, u, 0, -39947289) + rest != Pair(t, u, -508122200, 0) + rest
  {
    hide HashInt32, CombineAll, HashValues, Pair;
    var p, q := Pair(t, u, 0, -39947289), Pair(t, u, -508122200, 0);
    HashOfPair(rt, t, u, 0, -39947289);
    HashOfPair(rt, t, u, -508122200, 0);
    Collision();
    RecordHash(rt, p + rest);
    RecordHash(rt, q + rest);
    HashValuesConcat(rt, p, rest, 0);
    HashValuesConcat(rt, q, rest, 0);
    PairsDiffer(rt, t, u, rest);
  }

  lemma PairsDiffer(rt: Runtime, t: Type, u: Type, rest: seq<Value>)
    requires IntegerLike(t) && IntegerLike(u)
    ensures Pair(t, u, 0, -39947289) + rest != Pair(t, u, -508122200, 0) + rest
  {
    hide HashInt32, HashValue, ValueLike;
    HashLike(rt, t, 0);
    HashLike(rt, t, -508122200);
    HashesDecideEquality(0, 0, 0, -508122200);
    assert (Pair(t, u, 0, -39947289) + rest)[0] != (Pair(t, u, -508122200, 0) + rest)[0];
  }

  function Samples(fields: seq<Type>): (vs: seq<Value>)
    requires forall i :: 0 <= i < |fields| ==> IntegerLike(fields[i])
    ensures |vs| == |fields| && forall i :: 0 <= i < |fields| ==> HasType(vs[i], fields[i])
  {
    seq(|fields|, i requires 0 <= i < |fields| => ValueLike(fields[i], 0))
  }

  /** Records of integers, dates and dictionary strings are kept apart exactly if they have at most one
      attribute. */
  lemma KeepsApartIff(rt: Runtime, fields: seq<Type>)
    requires (forall i :: 0 <= i < |fields| ==> IntegerLike(fields[i])) && HasherLike(rt, RECORD(fields))
    ensures KeepsApart(rt, RECORD(fields)) <==> |fields| <= 1
  {
    hide HashValue, ValueLike, Pair;
    var t := RECORD(fields);
    if |fields| <= 1 {
      forall v: Value, w: Value | HasType(v, t) && HasType(w, t) && rt.hashObject(v) == rt.hashObject(w)
        ensures v == w
      {
        if |fields| == 1 {
          assert fields == [fields[0]];
          OneAttributeApart(rt, fields[0], v, w);
        } else {
          assert v.vs == [] == w.vs;
        }
      }
    } else {
      var rest := Samples(fields[2..]);
      var v := VRecord(Pair(fields[0], fields[1], 0, -39947289) + rest);
      var w := VRecord(Pair(fields[0], fields[1], -508122200, 0) + rest);
      PairTyped(fields, 0, -39947289, rest);
      PairTyped(fields, -508122200, 0, rest);
      FirstTwoCollide(rt, fields[0], fields[1], rest);
    }
  }

  lemma PairTyped(fields: seq<Type>, i: Int32, j: Int32, rest: seq<Value>)
    requires |fields| >= 2 && IntegerLike(fields[0]) && IntegerLike(fields[1])
    requires HasType(VRecord(rest), RECORD(fields[2..]))
    ensures HasType(VRecord(Pair(fields[0], fields[1], i, j) + rest), RECORD(fields))
  {
    var vs := Pair(fields[0], fields[1], i, j) + rest;
    forall k | 0 <= k < |fields| ensures HasType(vs[k], fields[k]) {
      if k >= 2 {
        assert HasType(rest[k - 2], fields[2..][k - 2]);
      }
    }
  }

  /** So the verdict on projected records of such a type is right for all bindings exactly if they have at
      most one attribute. */
  lemma ObjectsRightIff(rt: Runtime, attr: string, fields: seq<Type>)
    requires (forall i :: 0 <= i < |fields| ==> IntegerLike(fields[i])) && HasherLike(rt, RECORD(fields))
    ensures (forall left, right :: ObjectsCompared(rt, left, right, attr, fields)) <==> |fields| <= 1
  {
    hide KeepsApart, ObjectsCompared;
    ObjectsDecideIff(rt, attr, fields);
    KeepsApartIff(rt, fields);
  }

  // A 64-bit attribute behind others.

  /** Whatever stands before them, a 64-bit attribute can be chosen so that two records have the same hash:
      every record with one behind other attributes has unequal partners that are accepted. */
  lemma EveryRecordHasPartner(rt: Runtime, vs: seq<Value>, ws: seq<Value>, b: Word, rest: seq<Value>) returns (c: Word)
    ensures HashValue(rt, VRecord(vs + [VInt64(b)] + rest)) == HashValue(rt, VRecord(ws + [VInt64(c)] + rest))
    ensures HashValue(rt, VRecord(vs + [VDate(b)] + rest)) == HashValue(rt, VRecord(ws + [VDate(c)] + rest))
    ensures vs != ws && |vs| == |ws| ==> vs + [VInt64(b)] + rest != ws + [VInt64(c)] + rest
    ensures vs != ws && |vs| == |ws| ==> vs + [VDate(b)] + rest != ws + [VDate(c)] + rest
  {
    hide Combine, HashInt64, UnhashInt64, HashValues;
    var seed := HashValues(rt, ws, 0);
    var hv := CombineOnto(seed, Combine(HashValues(rt, vs, 0), HashInt64(b)));
    c := UnhashInt64(hv);
    HashInt64Bijective(hv);
    SameAfter(rt, vs, VInt64(b), ws, VInt64(c), rest);
    SameAfter(rt, vs, VDate(b), ws, VDate(c), rest);
  }

  lemma SameAfter(rt: Runtime, vs: seq<Value>, v: Value, ws: seq<Value>, w: Value, rest: seq<Value>)
    requires Combine(HashValues(rt, vs, 0), HashValue(rt, v)) == Combine(HashValues(rt, ws, 0), HashValue(rt, w))
    ensures HashValue(rt, VRecord(vs + [v] + rest)) == HashValue(rt, VRecord(ws + [w] + rest))
    ensures |vs| == |ws| && vs != ws ==> vs + [v] + rest != ws + [w] + rest
  {
    hide HashValue, Combine, HashValues;
    HashValuesLast(rt, vs, v, 0);
    HashValuesLast(rt, ws, w, 0);
    HashValuesConcat(rt, vs + [v], rest, 0);
    HashValuesConcat(rt, ws + [w], rest, 0);
    RecordHash(rt, vs + [v] + rest);
    RecordHash(rt, ws + [w] + rest);
    if |vs| == |ws| && vs + [v] + rest == ws + [w] + rest {
      assert vs == (vs + [v] + rest)[..|vs|] == ws;
    }
  }
}
