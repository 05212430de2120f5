/** Columns of one table stay row-aligned: the arithmetic commutes with the width of the values, so
    each (server, socket) partition of every column holds the same rows. */
module RowAlignment {
  import opened Arithmetic
  import opened Partitioning
  import opened Sequences

  /** The rows of server `s`, socket by socket, for a table of `rows` rows cut at multiples of
      `align` rows. */
  function RowParts(rows: nat, align: nat, servers: nat, sockets: nat, s: nat): seq<Range>
    requires align > 0 && servers > 0 && sockets > 0
  {
    var part := PartSize(rows, align, servers);
    ScaledAll(DeviceParts(ServerUnits(rows, part, s), align, sockets), 1, Times(part, s))
  }

  lemma TimesLaws(a: nat, b: nat, c: nat)
    ensures Times(Times(a, b), c) == Times(a, Times(b, c))
    ensures Times(a, b) == Times(b, a)
    ensures Times(a + b, c) == Times(a, c) + Times(b, c)
  {
  }

  lemma ScaleLess(a: nat, b: nat, c: nat)
    requires c > 0
    ensures a < b <==> Times(a, c) < Times(b, c)
  {
    if a < b {
      MulMonotone(a + 1, b, c);
    } else {
      MulMonotone(b, a, c);
    }
  }

  /** Rounding up is unchanged when both sides grow by the same factor. */
  lemma CeilDivScales(x: nat, a: nat, c: nat)
    requires a > 0 && c > 0
    ensures Times(a, c) > 0
    ensures CeilDiv(Times(x, c), Times(a, c)) == CeilDiv(x, a)
  {
    hide Times, CeilDiv;
    ScaleLess(0, a, c);
    TimesZero(c);
    var q := CeilDiv(x, a);
    var ac := Times(a, c);
    CeilDivBounds(x, a);
    ScaleLess(Times(q, a) + a, x + a, c);
    ScaleLess(x + a, Times(q, a) + 1, c);
    TimesLaws(x, a, c);
    TimesLaws(Times(q, a), a, c);
    TimesLaws(Times(q, a), 1, c);
    TimesLaws(q, a, c);
    TimesOne(c);
    assert Times(q, ac) + c <= Times(x, c) + ac <= Times(q, ac) + ac;
    DivUnique(Times(x, c) + ac - 1, ac, q);
    CeilDivIs(Times(x, c), ac);
  }

  lemma CeilDivBounds(x: nat, a: nat)
    requires a > 0
    ensures var q := CeilDiv(x, a); Times(q, a) + 1 <= x + a <= Times(q, a) + a
  {
    var q := CeilDiv(x, a);
    assert x + a - 1 == q * a + (x + a - 1) % a;
  }

  lemma CeilDivIs(x: nat, a: nat)
    requires a > 0
    ensures CeilDiv(x, a) == (x + a - 1) / a
  {
  }

  lemma TimesOne(a: nat)
    ensures Times(1, a) == a && Times(a, 1) == a
  {
  }

  lemma PartSizeScales(x: nat, a: nat, k: nat, c: nat)
    requires a > 0 && c > 0 && k > 0
    ensures Times(a, c) > 0
    ensures PartSize(Times(x, c), Times(a, c), k) == Times(PartSize(x, a, k), c)
  {
    hide Times, CeilDiv;
    CeilDivScales(x, a, c);
    TimesLaws(CeilDiv(CeilDiv(x, a), k), a, c);
  }

  lemma MinScales(a: nat, b: nat, c: nat)
    requires c > 0
    ensures Min(Times(a, c), Times(b, c)) == Times(Min(a, b), c)
  {
    hide Times;
    ScaleLess(a, b, c);
  }

  lemma DifferenceScales(a: nat, b: nat, c: nat)
    requires b <= a
    ensures Times(b, c) <= Times(a, c) && Times(a, c) - Times(b, c) == Times(a - b, c)
  {
    TimesLaws(b, a - b, c);
  }

  lemma PartOfScales(x: nat, part: nat, d: nat, c: nat)
    requires c > 0
    ensures PartOf(Times(x, c), Times(part, c), d) == ScaledAll(PartOf(x, part, d), c, 0)
  {
    hide Times;
    var at := Times(part, d);
    TimesLaws(part, c, d);
    TimesLaws(part, d, c);
    TimesLaws(c, d, 0);
    assert Times(Times(part, c), d) == Times(at, c);
    ScaleLess(at, x, c);
    if at < x {
      DifferenceScales(x, at, c);
      MinScales(part, x - at, c);
    }
  }

  lemma {:induction false} PartsScale(x: nat, part: nat, d: nat, c: nat)
    requires c > 0
    ensures Parts(Times(x, c), Times(part, c), d) == ScaledAll(Parts(x, part, d), c, 0)
    decreases d
  {
    hide Times, PartOf, ScaledAll;
    if d == 0 {
      ScaledNone(c, 0);
    } else {
      PartsScale(x, part, d - 1, c);
      PartOfScales(x, part, d - 1, c);
      ScaledConcat(Parts(x, part, d - 1), PartOf(x, part, d - 1), c, 0);
    }
  }

  lemma ScaledConcat(a: seq<Range>, b: seq<Range>, c: nat, offset: nat)
    ensures ScaledAll(a + b, c, offset) == ScaledAll(a, c, offset) + ScaledAll(b, c, offset)
  {
  }

  lemma DevicePartsScale(x: nat, a: nat, k: nat, c: nat)
    requires a > 0 && c > 0 && k > 0
    ensures Times(a, c) > 0
    ensures DeviceParts(Times(x, c), Times(a, c), k) == ScaledAll(DeviceParts(x, a, k), c, 0)
  {
    hide Times, PartSize, Parts, ScaledAll;
    PartSizeScales(x, a, k, c);
    PartsScale(x, PartSize(x, a, k), k, c);
  }

  lemma ServerUnitsScale(x: nat, part: nat, s: nat, c: nat)
    requires c > 0
    ensures ServerUnits(Times(x, c), Times(part, c), s) == Times(ServerUnits(x, part, s), c)
  {
    hide Times;
    var at := Times(part, s);
    TimesLaws(part, c, s);
    TimesLaws(part, s, c);
    TimesLaws(c, s, 0);
    assert Times(Times(part, c), s) == Times(at, c);
    ScaleLess(at, x, c);
    if at < x {
      DifferenceScales(x, at, c);
      MinScales(part, x - at, c);
    } else {
      TimesZero(c);
      MinScales(part, 0, c);
    }
  }

  /** Scaling by 4, then by `f` behind a scaled offset, is shifting by rows and scaling by 4f. */
  lemma ScaledTwice(rs: seq<Range>, f: nat, at: nat)
    ensures ScaledAll(ScaledAll(rs, 4, 0), f, Times(Times(at, 4), f))
         == ScaledAll(ScaledAll(rs, 1, at), Times(4, f), 0)
  {
    hide Times;
    forall i | 0 <= i < |rs|
      ensures Scaled(Scaled(rs[i], 4, 0), f, Times(Times(at, 4), f))
           == Scaled(Scaled(rs[i], 1, at), Times(4, f), 0)
    {
      TimesLaws(rs[i].offset, 4, f);
      TimesLaws(rs[i].bytes, 4, f);
      TimesLaws(at, 4, f);
      TimesLaws(rs[i].offset, at, Times(4, f));
      TimesOne(rs[i].offset);
      TimesOne(rs[i].bytes);
    }
  }

  /** For a column of `rows` values of 4f bytes, the byte ranges on each server are exactly the row
      ranges, which do not depend on f. */
  lemma ColumnsStayAligned(rows: nat, f: nat, align: nat, servers: nat, sockets: nat, s: nat)
    requires f > 0 && align > 0 && servers > 0 && sockets > 0
    ensures Times(align, 4) > 0 && Times(4, f) >= 4
    ensures ServerParts(Times(4, f), Times(rows, Times(4, f)), Times(align, 4), servers, sockets, s)
         == ScaledAll(RowParts(rows, align, servers, sockets, s), Times(4, f), 0)
  {
    TypeSize(f);
    PartSizeScales(rows, align, servers, 4);
    var part := PartSize(rows, align, servers);
    var mine := ServerUnits(rows, part, s);
    var a4 := Times(align, 4);
    hide Times, PartSize, DeviceParts, ScaledAll, ServerUnits;
    TimesLaws(rows, 4, f);
    DivOfProduct(Times(rows, 4), f);
    ServerUnitsScale(rows, part, s, 4);
    DivOfProduct(Times(mine, 4), f);
    DevicePartsScale(mine, align, sockets, 4);
    TimesLaws(part, 4, s);
    TimesLaws(part, s, 4);
    TimesLaws(4, s, 0);
    assert Times(Times(part, 4), s) == Times(Times(part, s), 4);
    ScaledTwice(DeviceParts(mine, align, sockets), f, Times(part, s));
  }

  lemma TypeSize(f: nat)
    requires f > 0
    ensures Times(4, f) >= 4 && Factor(Times(4, f)) == f
  {
  }

  // Every range starts at a multiple of the alignment.

  ghost predicate Multiple(x: nat, a: nat) {
    exists k: nat :: x == Times(k, a)
  }

  ghost predicate Aligned(rs: seq<Range>, a: nat) {
    forall i :: 0 <= i < |rs| ==> Multiple(rs[i].offset, a)
  }

  lemma MultipleTimes(x: nat, a: nat, b: nat)
    requires Multiple(x, a)
    ensures Multiple(Times(x, b), a)
  {
    hide Times;
    var k :| x == Times(k, a);
    TimesLaws(k, a, b);
    TimesLaws(k, b, a);
    TimesLaws(a, b, 0);
    assert Times(x, b) == Times(Times(k, b), a);
  }

  lemma MultipleSum(x: nat, y: nat, a: nat)
    requires Multiple(x, a) && Multiple(y, a)
    ensures Multiple(x + y, a)
  {
    hide Times;
    var k :| x == Times(k, a);
    var l :| y == Times(l, a);
    TimesLaws(k, l, a);
  }

  lemma {:induction false} PartsAligned(filesize: nat, part: nat, d: nat, a: nat)
    requires Multiple(part, a)
    ensures Aligned(Parts(filesize, part, d), a)
    decreases d
  {
    hide Multiple, Times;
    if d > 0 {
      PartsAligned(filesize, part, d - 1, a);
      MultipleTimes(part, a, d - 1);
    }
  }

  lemma ScaledAligned(rs: seq<Range>, f: nat, at: nat, a: nat)
    requires Aligned(rs, a) && Multiple(at, a)
    ensures Aligned(ScaledAll(rs, f, at), a)
  {
    hide Multiple, Times;
    forall i | 0 <= i < |rs| ensures Multiple(Times(rs[i].offset, f) + at, a) {
      MultipleTimes(rs[i].offset, a, f);
      MultipleSum(Times(rs[i].offset, f), at, a);
    }
  }

  lemma PartSizeAligned(x: nat, a: nat, k: nat)
    requires a > 0 && k > 0
    ensures Multiple(PartSize(x, a, k), a)
  {
  }

  lemma ServerAligned(typeSize: nat, fileSize: nat, align: nat, servers: nat, sockets: nat, s: nat)
    requires typeSize >= 4 && align > 0 && servers > 0 && sockets > 0
    ensures Aligned(ServerParts(typeSize, fileSize, align, servers, sockets, s), align)
  {
    hide Multiple, Times, PartSize, Aligned, ScaledAll, Parts, ServerUnits;
    var factor := Factor(typeSize);
    var units := fileSize / factor;
    var part := PartSize(units, align, servers);
    PartSizeAligned(units, align, servers);
    MultipleTimes(part, align, s);
    MultipleTimes(Times(part, s), align, factor);
    var mine := Times(ServerUnits(units, part, s), factor) / factor;
    PartSizeAligned(mine, align, sockets);
    PartsAligned(mine, PartSize(mine, align, sockets), sockets, align);
    ScaledAligned(DeviceParts(mine, align, sockets), factor, Times(Times(part, s), factor), align);
  }

  /** All the ranges of all servers start at multiples of the alignment, as mapping a file demands. */
  lemma {:induction false} DistributedAligned(typeSize: nat, fileSize: nat, align: nat, sockets: seq<nat>, s: nat)
    requires typeSize >= 4 && align > 0 && Cluster(sockets) && s <= |sockets|
    ensures Aligned(AllParts(typeSize, fileSize, align, sockets, s), align)
    decreases s
  {
    hide Multiple, Times, ServerParts;
    if s > 0 {
      DistributedAligned(typeSize, fileSize, align, sockets, s - 1);
      ServerAligned(typeSize, fileSize, align, |sockets|, sockets[s - 1], s - 1);
    }
  }
}
