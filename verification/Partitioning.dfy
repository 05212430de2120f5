/** How a column file is cut into byte ranges over servers and then over the sockets of each server
    (FileRecord::loadDistributed, loadToCpus, loadToGpus, loadEverywhere). */
module Partitioning {
  import opened Arithmetic
  import opened Sequences

  datatype Range = Range(offset: nat, bytes: nat)

  function CeilDiv(a: nat, b: nat): nat
    requires b > 0
  {
    (a + b - 1) / b
  }

  /** The share of each device: the file in units of `align`, divided evenly and rounded up. */
  function PartSize(filesize: nat, align: nat, devices: nat): nat
    requires align > 0 && devices > 0
  {
    Times(CeilDiv(CeilDiv(filesize, align), devices), align)
  }

  /** The part of device `d`, if any is left for it. */
  function PartOf(filesize: nat, part: nat, d: nat): seq<Range> {
    var at := Times(part, d);
    if at < filesize then [Range(at, Min(part, filesize - at))] else []
  }

  /** The parts of the first `d` devices, in units that do not depend on the column's type. */
  function Parts(filesize: nat, part: nat, d: nat): seq<Range> {
    if d == 0 then [] else Parts(filesize, part, d - 1) + PartOf(filesize, part, d - 1)
  }

  /** In bytes of a column whose values are `factor` units wide, from `offset` on. */
  function Scaled(r: Range, factor: nat, offset: nat): Range {
    Range(Times(r.offset, factor) + offset, Times(r.bytes, factor))
  }

  function ScaledAll(rs: seq<Range>, factor: nat, offset: nat): (s: seq<Range>)
    ensures |s| == |rs|
  {
    seq(|rs|, i requires 0 <= i < |rs| => Scaled(rs[i], factor, offset))
  }

  function DeviceParts(filesize: nat, align: nat, devices: nat): seq<Range>
    requires align > 0 && devices > 0
  {
    Parts(filesize, PartSize(filesize, align, devices), devices)
  }

  /** Nonempty consecutive ranges from `lo` to `hi`: in order, disjoint, without gaps. */
  predicate Tiles(rs: seq<Range>, lo: nat, hi: nat) {
    if rs == [] then lo == hi
    else
      var last := rs[|rs| - 1];
      last.bytes > 0 && last.offset + last.bytes == hi && Tiles(rs[..|rs| - 1], lo, last.offset)
  }

  lemma CeilDivCovers(a: nat, b: nat)
    requires b > 0
    ensures Times(CeilDiv(a, b), b) >= a
  {
    var q := (a + b - 1) / b;
    assert a + b - 1 == q * b + (a + b - 1) % b;
  }

  lemma PartsCover(filesize: nat, align: nat, devices: nat)
    requires align > 0 && devices > 0
    ensures Times(PartSize(filesize, align, devices), devices) >= filesize
  {
    var blocks := CeilDiv(filesize, align);
    var each := CeilDiv(blocks, devices);
    CeilDivCovers(filesize, align);
    CeilDivCovers(blocks, devices);
    calc {
      each * align * devices;
    ==
      (each * devices) * align;
    >= { MulMonotone(blocks, each * devices, align); }
      blocks * align;
    >=
      filesize;
    }
  }

  lemma TilesAppend(rs: seq<Range>, lo: nat, mid: nat, r: Range)
    requires Tiles(rs, lo, mid) && r.offset == mid && r.bytes > 0
    ensures Tiles(rs + [r], lo, mid + r.bytes)
  {
    assert (rs + [r])[..|rs|] == rs;
  }

  lemma TimesNext(a: nat, d: nat)
    requires d > 0
    ensures Times(a, d) == Times(a, d - 1) + a
  {
  }

  lemma PartsNext(filesize: nat, part: nat, d: nat)
    requires d > 0
    ensures var at := Times(part, d - 1);
            Parts(filesize, part, d) == Parts(filesize, part, d - 1)
              + (if at < filesize then [Range(at, Min(part, filesize - at))] else [])
  {
  }

  /** The first `d` devices tile what they can hold. */
  lemma {:induction false} PartsTile(filesize: nat, part: nat, d: nat)
    requires part > 0 || filesize == 0
    ensures Tiles(Parts(filesize, part, d), 0, Min(Times(part, d), filesize))
  {
    if d == 0 {
      NoTiles(0);
    } else {
      hide Tiles, Parts, Times;
      PartsTile(filesize, part, d - 1);
      PartsNext(filesize, part, d);
      TimesNext(part, d);
      var before := Parts(filesize, part, d - 1);
      var at := Times(part, d - 1);
      if at < filesize {
        TilesAppend(before, 0, at, Range(at, Min(part, filesize - at)));
      } else {
        assert before + [] == before;
      }
    }
  }

  lemma NoTiles(lo: nat)
    ensures Tiles([], lo, lo)
  {
  }

  lemma PartSizePositive(filesize: nat, align: nat, devices: nat)
    requires align > 0 && devices > 0 && filesize > 0
    ensures PartSize(filesize, align, devices) > 0
  {
    PartsCover(filesize, align, devices);
  }

  lemma DevicePartsTile(filesize: nat, align: nat, devices: nat)
    requires align > 0 && devices > 0
    ensures Tiles(DeviceParts(filesize, align, devices), 0, filesize)
  {
    hide PartSize, Parts, Tiles, Times;
    if filesize > 0 {
      PartSizePositive(filesize, align, devices);
    }
    PartsTile(filesize, PartSize(filesize, align, devices), devices);
    PartsCover(filesize, align, devices);
  }

  lemma TimesZero(a: nat)
    ensures Times(0, a) == 0 && Times(a, 0) == 0
  {
  }

  lemma ScaleSum(a: nat, b: nat, factor: nat)
    requires factor > 0
    ensures Times(a + b, factor) == Times(a, factor) + Times(b, factor)
    ensures b > 0 ==> Times(b, factor) > 0
  {
    if b > 0 {
      MulMonotone(1, b, factor);
    }
  }

  lemma ScaledAppend(rs: seq<Range>, r: Range, factor: nat, offset: nat)
    ensures ScaledAll(rs + [r], factor, offset)
         == ScaledAll(rs, factor, offset) + [Scaled(r, factor, offset)]
  {
  }

  lemma ScaledFields(r: Range, factor: nat, offset: nat)
    ensures Scaled(r, factor, offset).offset == Times(r.offset, factor) + offset
    ensures Scaled(r, factor, offset).bytes == Times(r.bytes, factor)
  {
  }

  lemma {:induction false} ScaledTiles(rs: seq<Range>, lo: nat, hi: nat, factor: nat, offset: nat)
    requires factor > 0 && Tiles(rs, lo, hi)
    ensures Tiles(ScaledAll(rs, factor, offset), Times(lo, factor) + offset, Times(hi, factor) + offset)
    decreases |rs|
  {
    hide Times, Scaled, ScaledAll;
    if rs == [] {
      ScaledNone(factor, offset);
    } else {
      var n := |rs| - 1;
      var last := rs[n];
      ScaledTiles(rs[..n], lo, last.offset, factor, offset);
      hide Tiles;
      assert rs == rs[..n] + [last];
      ScaledAppend(rs[..n], last, factor, offset);
      ScaledFields(last, factor, offset);
      ScaleSum(last.offset, last.bytes, factor);
      TilesAppend(ScaledAll(rs[..n], factor, offset), Times(lo, factor) + offset,
                  Times(last.offset, factor) + offset, Scaled(last, factor, offset));
    }
  }

  /** Two tilings one after the other. */
  lemma {:induction false} TilesConcat(a: seq<Range>, b: seq<Range>, lo: nat, mid: nat, hi: nat)
    requires Tiles(a, lo, mid) && Tiles(b, mid, hi)
    ensures Tiles(a + b, lo, hi)
    decreases |b|
  {
    if b == [] {
      assert a + b == a;
    } else {
      var n := |b| - 1;
      TilesConcat(a, b[..n], lo, mid, b[n].offset);
      assert (a + b)[..|a + b| - 1] == a + b[..n];
    }
  }

  /** `factor` of the source: the width of a value in 32-bit units. */
  function Factor(typeSize: nat): nat {
    typeSize / 4
  }

  lemma ScaledNone(factor: nat, offset: nat)
    ensures ScaledAll([], factor, offset) == []
  {
  }

  /** `loadToCpus` and `loadToGpus`: the loop over the devices. */
  method LoadToDevices(typeSize: nat, psize: nat, offset: nat, align: nat, devices: nat)
    returns (parts: seq<Range>)
    requires typeSize >= 4 && align > 0 && devices > 0
    ensures parts == CpuParts(typeSize, psize, offset, align, devices)
  {
    var factor := Factor(typeSize);
    var filesize := psize / factor;
    var partSize := PartSize(filesize, align, devices);
    hide ScaledAll, PartSize, Times;
    parts := [];
    var d := 0;
    ScaledNone(factor, offset);
    while d < devices
      invariant 0 <= d <= devices
      invariant parts == ScaledAll(Parts(filesize, partSize, d), factor, offset)
    {
      var at := Times(partSize, d);
      if at < filesize {
        ScaledAppend(Parts(filesize, partSize, d), Range(at, Min(partSize, filesize - at)), factor,
                     offset);
        parts := parts + [Range(Times(at, factor) + offset,
                                Times(Min(partSize, filesize - at), factor))];
      } else {
        assert Parts(filesize, partSize, d + 1) == Parts(filesize, partSize, d);
      }
      d := d + 1;
    }
  }

  function CpuParts(typeSize: nat, psize: nat, offset: nat, align: nat, devices: nat): seq<Range>
    requires typeSize >= 4 && align > 0 && devices > 0
  {
    var factor := Factor(typeSize);
    ScaledAll(DeviceParts(psize / factor, align, devices), factor, offset)
  }

  /** What one server loads: the units it gets and where they start. */
  function ServerUnits(units: nat, part: nat, s: nat): nat {
    var at := Times(part, s);
    Min(part, if at < units then units - at else 0)
  }

  /** `loadDistributed` on server `s`. */
  function ServerParts(typeSize: nat, fileSize: nat, align: nat, servers: nat, sockets: nat, s: nat)
    : seq<Range>
    requires typeSize >= 4 && align > 0 && servers > 0 && sockets > 0
  {
    var factor := Factor(typeSize);
    var units := fileSize / factor;
    var part := PartSize(units, align, servers);
    CpuParts(typeSize, Times(ServerUnits(units, part, s), factor), Times(Times(part, s), factor), align,
             sockets)
  }

  /** Every server of a cluster has its own number of sockets. */
  predicate Cluster(sockets: seq<nat>) {
    sockets != [] && forall s :: 0 <= s < |sockets| ==> sockets[s] > 0
  }

  /** The ranges of servers 0 to `s - 1`, one after the other. */
  function AllParts(typeSize: nat, fileSize: nat, align: nat, sockets: seq<nat>, s: nat): seq<Range>
    requires typeSize >= 4 && align > 0 && Cluster(sockets) && s <= |sockets|
  {
    if s == 0 then []
    else
      AllParts(typeSize, fileSize, align, sockets, s - 1)
      + ServerParts(typeSize, fileSize, align, |sockets|, sockets[s - 1], s - 1)
  }

  lemma DivOfProduct(a: nat, b: nat)
    requires b > 0
    ensures Times(a, b) / b == a
  {
    var q := (a * b) / b;
    assert a * b == q * b + (a * b) % b;
    if q < a {
      MulMonotone(q + 1, a, b);
    } else if q > a {
      MulMonotone(a + 1, q, b);
    }
  }

  lemma CpuPartsTile(typeSize: nat, units: nat, offset: nat, align: nat, devices: nat)
    requires typeSize >= 4 && align > 0 && devices > 0
    ensures var factor := Factor(typeSize);
            Tiles(CpuParts(typeSize, Times(units, factor), offset, align, devices),
                  offset, offset + Times(units, factor))
  {
    hide Tiles, DeviceParts, Times;
    var factor := Factor(typeSize);
    DivOfProduct(units, factor);
    DevicePartsTile(units, align, devices);
    ScaledTiles(DeviceParts(units, align, devices), 0, units, factor, offset);
    TimesZero(factor);
  }

  /** Server `s` continues the tiling where the servers before it stop. */
  lemma ServerTiles(typeSize: nat, fileSize: nat, align: nat, servers: nat, sockets: nat, s: nat)
    requires typeSize >= 4 && align > 0 && servers > 0 && sockets > 0
    ensures var factor := Factor(typeSize);
            var units := fileSize / factor;
            var part := PartSize(units, align, servers);
            Tiles(ServerParts(typeSize, fileSize, align, servers, sockets, s),
                  Times(Times(part, s), factor), Times(Times(part, s) + ServerUnits(units, part, s), factor))
  {
    hide Tiles, CpuParts, PartSize, Times;
    var factor := Factor(typeSize);
    var units := fileSize / factor;
    var part := PartSize(units, align, servers);
    var mine := ServerUnits(units, part, s);
    CpuPartsTile(typeSize, mine, Times(Times(part, s), factor), align, sockets);
    ScaleSum(Times(part, s), mine, factor);
  }

  lemma {:induction false} ServersTile(typeSize: nat, fileSize: nat, align: nat, sockets: seq<nat>, s: nat)
    requires typeSize >= 4 && align > 0 && Cluster(sockets) && s <= |sockets|
    ensures var factor := Factor(typeSize);
            var units := fileSize / factor;
            Tiles(AllParts(typeSize, fileSize, align, sockets, s), 0,
                  Times(Min(Times(PartSize(units, align, |sockets|), s), units), factor))
    decreases s
  {
    hide Tiles, CpuParts, PartSize, ServerParts, Times;
    var factor := Factor(typeSize);
    var units := fileSize / factor;
    var part := PartSize(units, align, |sockets|);
    if s == 0 {
      NoTiles(0);
      TimesZero(part);
      TimesZero(factor);
    } else {
      var before := AllParts(typeSize, fileSize, align, sockets, s - 1);
      var mine := ServerParts(typeSize, fileSize, align, |sockets|, sockets[s - 1], s - 1);
      ServersTile(typeSize, fileSize, align, sockets, s - 1);
      ServerTiles(typeSize, fileSize, align, |sockets|, sockets[s - 1], s - 1);
      var at := Times(part, s - 1);
      TimesNext(part, s);
      if at < units {
        TilesConcat(before, mine, 0, Times(at, factor), Times(Min(Times(part, s), units), factor));
      } else {
        EmptyTiles(mine, Times(at, factor));
        assert before + mine == before;
      }
    }
  }

  lemma EmptyTiles(rs: seq<Range>, lo: nat)
    requires Tiles(rs, lo, lo)
    ensures rs == []
  {
    if rs != [] {
      TilesOrdered(rs[..|rs| - 1], lo, rs[|rs| - 1].offset);
    }
  }

  lemma {:induction false} TilesOrdered(rs: seq<Range>, lo: nat, hi: nat)
    requires Tiles(rs, lo, hi)
    ensures lo <= hi
    decreases |rs|
  {
    if rs != [] {
      TilesOrdered(rs[..|rs| - 1], lo, rs[|rs| - 1].offset);
    }
  }

  /** Over all servers and all their sockets the ranges tile the file, up to the bytes beyond the
      last whole unit. */
  lemma DistributedTiles(typeSize: nat, fileSize: nat, align: nat, sockets: seq<nat>)
    requires typeSize >= 4 && align > 0 && Cluster(sockets)
    ensures var factor := Factor(typeSize);
            Tiles(AllParts(typeSize, fileSize, align, sockets, |sockets|), 0, Times(fileSize / factor, factor))
  {
    hide Tiles, AllParts, PartSize, Times;
    var units := fileSize / Factor(typeSize);
    ServersTile(typeSize, fileSize, align, sockets, |sockets|);
    PartsCover(units, align, |sockets|);
  }
}
