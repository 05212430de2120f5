/** How evenly a file is shared out: no device and no server gets more than one alignment unit above the even
    share, and all parts but the last are equally long. */
module FairShares {
  import opened Arithmetic
  import opened Partitioning
  import opened Sequences

  lemma CeilDivIff(a: nat, b: nat, k: nat)
    requires b > 0
    ensures CeilDiv(a, b) <= k <==> a <= Times(k, b)
  {
    var q := (a + b - 1) / b;
    assert a + b - 1 == q * b + (a + b - 1) % b;
    if q <= k {
      MulMonotone(q, k, b);
    } else {
      MulMonotone(k + 1, q, b);
    }
  }

  lemma TimesCommutes(a: nat, b: nat, c: nat)
    ensures Times(Times(a, b), c) == Times(Times(a, c), b)
  {
  }

  lemma TimesIff(a: nat, b: nat, c: nat)
    requires c > 0
    ensures Times(a, c) <= Times(b, c) <==> a <= b
  {
    if a <= b {
      MulMonotone(a, b, c);
    } else {
      MulMonotone(b + 1, a, c);
    }
  }

  /** The part size is the least multiple of the alignment of which all devices together hold the file. */
  lemma PartSizeIsLeast(filesize: nat, align: nat, devices: nat, k: nat)
    requires align > 0 && devices > 0
    ensures PartSize(filesize, align, devices) % align == 0
    ensures PartSize(filesize, align, devices) <= Times(k, align) <==> filesize <= Times(Times(k, align), devices)
  {
    var blocks := CeilDiv(filesize, align);
    var each := CeilDiv(blocks, devices);
    hide CeilDiv;
    ModOf(each, 0, align);
    TimesIff(each, k, align);
    CeilDivIff(blocks, devices, k);
    CeilDivIff(filesize, align, Times(k, devices));
    TimesCommutes(k, align, devices);
    hide Times;
  }

  /** One alignment unit less would not do. */
  lemma PartSizeFair(filesize: nat, align: nat, devices: nat)
    requires align > 0 && devices > 0
    ensures PartSize(filesize, align, devices) > 0 ==>
              Times(PartSize(filesize, align, devices), devices) < filesize + Times(align, devices)
  {
    var part := PartSize(filesize, align, devices);
    if part > 0 {
      var each := CeilDiv(CeilDiv(filesize, align), devices);
      assert part == each * align;
      PartSizeIsLeast(filesize, align, devices, each - 1);
      hide PartSize;
      assert (each - 1) * align + align == part;
      var less := Times(each - 1, align);
      assert less * devices + align * devices == part * devices;
    }
  }

  lemma {:induction false} PartsCount(filesize: nat, part: nat, d: nat)
    requires d > 0 && Times(part, d - 1) < filesize
    ensures |Parts(filesize, part, d)| == d
    decreases d
  {
    if d > 1 {
      MulMonotone(d - 2, d - 1, part);
      PartsCount(filesize, part, d - 1);
    }
  }

  lemma {:induction false} PartsAt(filesize: nat, part: nat, d: nat, i: nat)
    requires i < |Parts(filesize, part, d)|
    ensures var at := Times(part, i); at < filesize && Parts(filesize, part, d)[i] == Range(at, Min(part, filesize - at))
    decreases d
  {
    hide Times, Min;
    if d > 0 {
      if i < |Parts(filesize, part, d - 1)| {
        PartsAt(filesize, part, d - 1, i);
      } else {
        PartsCount(filesize, part, d);
      }
    }
  }

  lemma TimesBounds(a: nat, i: nat)
    ensures Times(a, 0) == 0 && Times(a, i + 1) == Times(a, i) + a
    ensures i > 0 ==> a <= Times(a, i)
  {
    if i > 0 {
      MulMonotone(1, i, a);
    }
  }

  /** A part that is followed by another one is whole. */
  lemma PartsEven(filesize: nat, part: nat, d: nat, i: nat)
    requires i < |Parts(filesize, part, d)|
    ensures var parts := Parts(filesize, part, d);
            && parts[i].bytes <= parts[0].bytes && parts[i].offset == Times(parts[0].bytes, i) && parts[i].bytes <= part
            && (i + 1 < |parts| ==> parts[i].bytes == parts[0].bytes)
  {
    hide Parts, Times;
    PartsAt(filesize, part, d, i);
    PartsAt(filesize, part, d, 0);
    TimesBounds(part, i);
    if i > 0 {
      assert part <= filesize;
    } else {
      TimesBounds(Parts(filesize, part, d)[0].bytes, 0);
    }
    if i + 1 < |Parts(filesize, part, d)| {
      PartsAt(filesize, part, d, i + 1);
    }
  }

  /** Part `i` begins behind `i` whole parts, all parts but the last are equally long, and none is more than
      one alignment unit above the even share. */
  lemma EvenShares(filesize: nat, align: nat, devices: nat, i: nat)
    requires align > 0 && devices > 0 && i < |DeviceParts(filesize, align, devices)|
    ensures var parts := DeviceParts(filesize, align, devices);
            && Times(parts[i].bytes, devices) < filesize + Times(align, devices)
            && parts[i].bytes <= parts[0].bytes && parts[i].offset == Times(parts[0].bytes, i)
            && (i + 1 < |parts| ==> parts[i].bytes == parts[0].bytes)
  {
    var part := PartSize(filesize, align, devices);
    hide PartSize, Parts, Times;
    PartsEven(filesize, part, devices, i);
    PartsAt(filesize, part, devices, i);
    PartSizePositive(filesize, align, devices);
    PartSizeFair(filesize, align, devices);
    TimesIff(Parts(filesize, part, devices)[i].bytes, part, devices);
  }

  lemma ServerUnitsFair(units: nat, align: nat, servers: nat, s: nat)
    requires align > 0 && servers > 0
    ensures Times(ServerUnits(units, PartSize(units, align, servers), s), servers) < units + Times(align, servers)
  {
    var part := PartSize(units, align, servers);
    PartSizeFair(units, align, servers);
    MulMonotone(ServerUnits(units, part, s), part, servers);
    MulMonotone(1, align, servers);
  }

  /** What a server loads in all is at most one alignment unit above the even share of the file, and what one
      of its sockets loads at most one above the even share of the server. */
  lemma EvenServers(typeSize: nat, fileSize: nat, align: nat, servers: nat, sockets: nat, s: nat, i: nat)
    requires typeSize >= 4 && align > 0 && servers > 0 && sockets > 0
    requires i < |ServerParts(typeSize, fileSize, align, servers, sockets, s)|
    ensures var factor := Factor(typeSize);
            var units := fileSize / factor;
            var mine := ServerUnits(units, PartSize(units, align, servers), s);
            var r := ServerParts(typeSize, fileSize, align, servers, sockets, s)[i];
            && Times(Times(mine, factor), servers) < fileSize + Times(Times(align, factor), servers)
            && Times(r.bytes, sockets) < Times(mine, factor) + Times(Times(align, factor), sockets)
  {
    var factor := Factor(typeSize);
    var units := fileSize / factor;
    var part := PartSize(units, align, servers);
    var mine := ServerUnits(units, part, s);
    ServerUnitsFair(units, align, servers, s);
    ScaleBound(mine, servers, units, align, factor);
    assert Times(units, factor) <= fileSize by { assert fileSize == units * factor + fileSize % factor; }
    hide PartSize, ServerUnits, Times;
    DivOfProduct(mine, factor);
    EvenShares(mine, align, sockets, i);
    var share := DeviceParts(mine, align, sockets)[i].bytes;
    ScaleBound(share, sockets, mine, align, factor);
    ScaledFields(DeviceParts(mine, align, sockets)[i], factor, Times(Times(part, s), factor));
  }

  /** A bound in units is a bound in bytes. */
  lemma ScaleBound(share: nat, n: nat, all: nat, align: nat, factor: nat)
    requires factor > 0 && Times(share, n) < all + Times(align, n)
    ensures Times(Times(share, factor), n) < Times(all, factor) + Times(Times(align, factor), n)
  {
    MulMonotone(share * n + 1, all + align * n, factor);
    TimesCommutes(share, factor, n);
    TimesCommutes(align, factor, n);
    assert (all + align * n) * factor == all * factor + align * n * factor;
    assert (share * n + 1) * factor == share * n * factor + factor;
  }
}
