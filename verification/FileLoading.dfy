/** What ends up in memory: every range is read by a loop that survives short reads, and the ranges of
    all servers and sockets together hold the file. */
module FileLoading {
  import opened Arithmetic
  import opened Partitioning
  import opened Sequences

  datatype Outcome = Done | ReadFailed | UnexpectedEof

  /** What one `pread` of up to `size` bytes delivers when the kernel chooses `wish`: an error, or no
      more than was asked for and than the file has. */
  function Pread(fileSize: nat, size: nat, offs: nat, wish: int): int {
    if wish < 0 then -1
    else if offs >= fileSize then 0
    else Min(wish, Min(size, fileSize - offs))
  }

  /** The loop `readall` of the ranged constructor.  `wishes` is the kernel's choice at every call. */
  method ReadAll<T>(file: seq<T>, buff: array<T>, size: nat, offs: nat, wishes: nat -> int)
    returns (r: Outcome)
    requires size <= buff.Length
    modifies buff
    ensures r == Done && size > 0 ==> offs + size <= |file| && buff[..size] == file[offs..offs + size]
    ensures buff[size..] == old(buff[size..])
    ensures (forall i :: wishes(i) > 0) ==>
              r == if size == 0 || offs + size <= |file| then Done else UnexpectedEof
  {
    var done, call := 0, 0;
    while done < size
      invariant 0 <= done <= size && (done > 0 ==> offs + done <= |file|)
      invariant forall k :: 0 <= k < done ==> buff[k] == file[offs + k]
      invariant forall k :: size <= k < buff.Length ==> buff[k] == old(buff[k])
      decreases size - done
    {
      var rdsize := Pread(|file|, size - done, offs + done, wishes(call));
      if rdsize < 0 {
        return ReadFailed;
      }
      if rdsize == 0 {
        return UnexpectedEof;
      }
      forall i | 0 <= i < rdsize {
        buff[done + i] := file[offs + done + i];
      }
      done, call := done + rdsize, call + 1;
    }
    r := Done;
  }

  ghost predicate InFile<T>(file: seq<T>, rs: seq<Range>) {
    forall i :: 0 <= i < |rs| ==> rs[i].offset + rs[i].bytes <= |file|
  }

  /** The contents of the ranges, one after the other. */
  ghost function Contents<T>(file: seq<T>, rs: seq<Range>): seq<T>
    requires InFile(file, rs)
  {
    if rs == [] then []
    else
      var last := rs[|rs| - 1];
      Contents(file, rs[..|rs| - 1]) + file[last.offset..last.offset + last.bytes]
  }

  lemma {:induction false} TiledContents<T>(file: seq<T>, rs: seq<Range>, lo: nat, hi: nat)
    requires Tiles(rs, lo, hi) && hi <= |file|
    ensures lo <= hi && InFile(file, rs) && Contents(file, rs) == file[lo..hi]
    decreases |rs|
  {
    if rs != [] {
      var n := |rs| - 1;
      TiledContents(file, rs[..n], lo, rs[n].offset);
      InFileLast(file, rs);
      assert file[lo..hi] == file[lo..rs[n].offset] + file[rs[n].offset..hi];
    }
  }

  lemma InFileLast<T>(file: seq<T>, rs: seq<Range>)
    requires rs != [] && InFile(file, rs[..|rs| - 1])
    requires rs[|rs| - 1].offset + rs[|rs| - 1].bytes <= |file|
    ensures InFile(file, rs)
  {
    forall i | 0 <= i < |rs| - 1 ensures rs[i].offset + rs[i].bytes <= |file| {
      assert rs[..|rs| - 1][i] == rs[i];
    }
  }

  /** Loading all ranges, each with its own pattern of short reads. */
  method LoadAll<T(0)>(file: seq<T>, rs: seq<Range>, wishes: nat -> nat -> int)
    returns (data: seq<T>, ok: bool)
    requires InFile(file, rs)
    ensures ok ==> data == Contents(file, rs)
    ensures (forall k, i :: wishes(k)(i) > 0) ==> ok
  {
    data := [];
    assert rs[..0] == [];
    for k := 0 to |rs|
      invariant InFile(file, rs[..k]) && data == Contents(file, rs[..k])
    {
      var buff := new T[rs[k].bytes];
      var r := ReadAll(file, buff, rs[k].bytes, rs[k].offset, wishes(k));
      if r != Done {
        return data, false;
      }
      data := data + buff[..];
      assert rs[..k + 1][..k] == rs[..k];
      assert buff[..] == buff[..rs[k].bytes];
    }
    assert rs[..|rs|] == rs;
    ok := true;
  }

  /** The bytes of the whole units of a file. */
  function WholeUnits<T>(file: seq<T>, factor: nat): seq<T>
    requires factor > 0
  {
    file[..|file| - |file| % factor]
  }

  lemma UnitsOf(size: nat, factor: nat)
    requires factor > 0
    ensures Times(size / factor, factor) == size - size % factor
  {
  }

  lemma UnitsLoad<T>(file: seq<T>, rs: seq<Range>, factor: nat)
    requires factor > 0 && Tiles(rs, 0, Times(|file| / factor, factor))
    ensures InFile(file, rs) && Contents(file, rs) == WholeUnits(file, factor)
  {
    hide Times, Tiles, Contents, InFile;
    UnitsOf(|file|, factor);
    TiledContents(file, rs, 0, Times(|file| / factor, factor));
  }

  /** The distributed load puts exactly the file's whole units into memory, in order. */
  lemma DistributedLoad<T>(file: seq<T>, typeSize: nat, align: nat, sockets: seq<nat>)
    requires typeSize >= 4 && align > 0 && Cluster(sockets)
    ensures var rs := AllParts(typeSize, |file|, align, sockets, |sockets|);
            InFile(file, rs) && Contents(file, rs) == WholeUnits(file, Factor(typeSize))
  {
    hide AllParts, Tiles, Times, Contents, InFile;
    DistributedTiles(typeSize, |file|, align, sockets);
    UnitsLoad(file, AllParts(typeSize, |file|, align, sockets, |sockets|), Factor(typeSize));
  }

  /** Loading on all servers: each works out its share, its sockets their ranges, and all ranges are read.
      Under short reads of any size the whole units of the file are in memory. */
  method LoadDistributed<T(0)>(file: seq<T>, typeSize: nat, align: nat, sockets: seq<nat>, wishes: nat -> nat -> int)
    returns (data: seq<T>, ok: bool)
    requires typeSize >= 4 && align > 0 && Cluster(sockets)
    ensures ok ==> data == WholeUnits(file, Factor(typeSize))
    ensures (forall k, i :: wishes(k)(i) > 0) ==> ok
  {
    hide Times, PartSize, CpuParts;
    var factor := Factor(typeSize);
    var units := |file| / factor;
    var part := PartSize(units, align, |sockets|);
    var rs := [];
    for d := 0 to |sockets|
      invariant rs == AllParts(typeSize, |file|, align, sockets, d)
    {
      var at := Times(part, d);
      var rem := if at < units then units - at else 0;
      var mine := LoadToDevices(typeSize, Times(Min(part, rem), factor), Times(at, factor), align, sockets[d]);
      rs := rs + mine;
    }
    DistributedLoad(file, typeSize, align, sockets);
    data, ok := LoadAll(file, rs, wishes);
  }

  /** The whole file is in memory exactly when the column's width in 4-byte units divides its size. */
  lemma WholeFileIff<T>(file: seq<T>, typeSize: nat, align: nat, sockets: seq<nat>)
    requires typeSize >= 4 && align > 0 && Cluster(sockets)
    ensures var rs := AllParts(typeSize, |file|, align, sockets, |sockets|);
            InFile(file, rs)
            && (Contents(file, rs) == file <==> |file| % Factor(typeSize) == 0)
  {
    hide AllParts, Contents, InFile;
    DistributedLoad(file, typeSize, align, sockets);
    UnitsAll(file, Factor(typeSize));
  }

  lemma UnitsAll<T>(file: seq<T>, factor: nat)
    requires factor > 0
    ensures WholeUnits(file, factor) == file <==> |file| % factor == 0
  {
    if |file| % factor != 0 {
      assert |WholeUnits(file, factor)| < |file|;
    }
  }

  /** The ranges of `loadEverywhere`, which divides the file size itself into parts and only then
      scales by the width of a value. */
  function EverywhereParts(fileSize: nat, typeSize: nat, align: nat, devices: nat): seq<Range>
    requires typeSize >= 4 && align > 0 && devices > 0
  {
    ScaledAll(DeviceParts(fileSize, align, devices), Factor(typeSize), 0)
  }

  /** They lie inside the file exactly when a value is one unit wide or the file is empty.  `devices`
      counts sockets and GPUs with their weights. */
  lemma EverywhereFits<T>(file: seq<T>, typeSize: nat, align: nat, devices: nat)
    requires typeSize >= 4 && align > 0 && devices > 0
    ensures var rs := EverywhereParts(|file|, typeSize, align, devices);
            && (InFile(file, rs) <==> Factor(typeSize) == 1 || file == [])
            && (InFile(file, rs) ==> Contents(file, rs) == file)
  {
    hide Tiles, Contents, InFile;
    EverywhereTiles(|file|, typeSize, align, devices);
    hide EverywhereParts, Factor, Times;
    ScaledFits(file, EverywhereParts(|file|, typeSize, align, devices), Factor(typeSize));
  }

  lemma EverywhereTiles(fileSize: nat, typeSize: nat, align: nat, devices: nat)
    requires typeSize >= 4 && align > 0 && devices > 0
    ensures Factor(typeSize) > 0
    ensures Tiles(EverywhereParts(fileSize, typeSize, align, devices), 0,
                  Times(fileSize, Factor(typeSize)))
  {
    hide Times, Tiles, DeviceParts, ScaledAll;
    var factor := Factor(typeSize);
    DevicePartsTile(fileSize, align, devices);
    ScaledTiles(DeviceParts(fileSize, align, devices), 0, fileSize, factor, 0);
    TimesZero(factor);
  }

  lemma ScaledFits<T>(file: seq<T>, rs: seq<Range>, factor: nat)
    requires factor > 0 && Tiles(rs, 0, Times(|file|, factor))
    ensures InFile(file, rs) <==> factor == 1 || file == []
    ensures InFile(file, rs) ==> Contents(file, rs) == file
  {
    hide Times, Tiles, Contents, InFile;
    if factor == 1 || file == [] {
      TimesUnit(|file|, factor);
      TiledContents(file, rs, 0, |file|);
      assert file[0..|file|] == file;
    } else {
      ScaleGrows(|file|, factor);
      LastOutside(file, rs, 0, Times(|file|, factor));
    }
  }

  lemma TimesUnit(n: nat, factor: nat)
    requires factor == 1 || n == 0
    ensures Times(n, factor) == n
  {
  }

  lemma ScaleGrows(n: nat, factor: nat)
    requires n > 0 && factor >= 2
    ensures Times(n, factor) > n
  {
    MulMonotone(2, factor, n);
  }

  lemma LastOutside<T>(file: seq<T>, rs: seq<Range>, lo: nat, hi: nat)
    requires Tiles(rs, lo, hi) && lo < hi && hi > |file|
    ensures !InFile(file, rs)
  {
    assert rs != [];
    assert rs[|rs| - 1].offset + rs[|rs| - 1].bytes == hi;
  }
}
