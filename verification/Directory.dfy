/**
  The directories of the FAT16 volume (dir_find and find_slots of user/bin/lorica-update/main.c): which entry a name
  stands for, in the root directory and along the cluster chain of another one, and with it the update of the kernel
  slots from nothing but the disk.
 */
module Directory {
  import opened Common
  import opened BlockDevice
  import opened Fat16
  import opened KernelSwap

  // ---------------------------------------------------------------------------------------------
  // Entries
  // ---------------------------------------------------------------------------------------------

  /** What a directory, or the first part of one, says of a name; Unfinished if it does not end there. */
  datatype Found = Missing | Unfinished | At(f: File)

  /** An entry that is deleted or part of a long name. */
  predicate Ignored(e: Image)
    requires |e| == 32
  {
    e[0] == 0xe5 || e[11] == 0x0f
  }

  function FileOf(e: Image): File
    requires |e| == 32
  {
    File(Le16(e, 26), Le32(e, 28))
  }

  /** The first entry of that name, before the entry that ends the directory. */
  function Scan(d: Image, name: Image): Found
    requires |d| % 32 == 0
    decreases |d|
  {
    if d == [] then Unfinished
    else
      var e := d[..32];
      if e[0] == 0 then Missing
      else if !Ignored(e) && e[..11] == name then At(FileOf(e))
      else Scan(d[32..], name)
  }

  function EntryAt(d: Image, k: nat): (e: Image)
    requires 32 * k + 32 <= |d|
    ensures |e| == 32
  {
    d[32 * k..32 * k + 32]
  }

  /** Entry `k` neither ends the directory nor has the name. */
  ghost predicate Other(d: Image, name: Image, k: nat)
    requires 32 * k + 32 <= |d|
  {
    var e := EntryAt(d, k);
    e[0] != 0 && (e[0] == 0xe5 || e[11] == 0x0f || e[..11] != name)
  }

  /** Entry `k` has the name and says where the file is. */
  ghost predicate Names(d: Image, name: Image, k: nat, f: File)
    requires 32 * k + 32 <= |d|
  {
    var e := EntryAt(d, k);
    e[0] != 0 && e[0] != 0xe5 && e[11] != 0x0f && e[..11] == name && f == File(Le16(e, 26), Le32(e, 28))
  }

  /** It is the first that is not another one. */
  ghost predicate FirstNames(d: Image, name: Image, k: nat, f: File) {
    32 * k + 32 <= |d| && Names(d, name, k, f) && forall j: nat | j < k :: Other(d, name, j)
  }

  lemma Later(d: Image, name: Image, k: nat, f: File)
    requires |d| >= 32 && 32 * k + 32 <= |d| - 32
    ensures Other(d[32..], name, k) == Other(d, name, k + 1) && Names(d[32..], name, k, f) == Names(d, name, k + 1, f)
  {
    assert EntryAt(d[32..], k) == EntryAt(d, k + 1);
  }

  /** A name is found if and only if an entry has it and all before that are others. */
  lemma {:induction false} ScanExactly(d: Image, name: Image, f: File)
    requires |d| % 32 == 0
    ensures Scan(d, name) == At(f) <==> exists k: nat :: FirstNames(d, name, k, f)
    ensures Scan(d, name) == Unfinished <==> forall k: nat | 32 * k + 32 <= |d| :: Other(d, name, k)
    decreases |d|
  {
    if d != [] {
      hide Le16, Le32;
      var rest := d[32..];
      assert EntryAt(d, 0) == d[..32];
      ScanExactly(rest, name, f);
      forall k: nat | 32 * k + 32 <= |rest|
        ensures Other(rest, name, k) == Other(d, name, k + 1) && Names(rest, name, k, f) == Names(d, name, k + 1, f)
      {
        Later(d, name, k, f);
      }
      hide Names, EntryAt;
      if Other(d, name, 0) {
        ScanOther(d, name);
        AllLater(d, name);
        if k: nat :| FirstNames(rest, name, k, f) {
          forall j: nat | j < k + 1 ensures Other(d, name, j) {
            if j > 0 { assert Other(rest, name, j - 1); }
          }
          assert FirstNames(d, name, k + 1, f);
        }
        if k: nat :| FirstNames(d, name, k, f) {
          assert k > 0 by { NotBoth(d, name, f); }
          forall j: nat | j < k - 1 ensures Other(rest, name, j) { assert Other(d, name, j + 1); }
          assert FirstNames(rest, name, k - 1, f);
        }
      } else {
        ScanFirst(d, name, f);
        if k: nat :| FirstNames(d, name, k, f) {
          assert k == 0;
        }
        if Names(d, name, 0, f) {
          assert FirstNames(d, name, 0, f);
        }
      }
    }
  }

  lemma ScanOther(d: Image, name: Image)
    requires |d| % 32 == 0 && d != [] && Other(d, name, 0)
    ensures Scan(d, name) == Scan(d[32..], name)
  {
    assert EntryAt(d, 0) == d[..32];
  }

  lemma ScanFirst(d: Image, name: Image, f: File)
    requires |d| % 32 == 0 && d != [] && !Other(d, name, 0)
    ensures Scan(d, name) == At(f) <==> Names(d, name, 0, f)
    ensures !Scan(d, name).Unfinished?
  {
    assert EntryAt(d, 0) == d[..32];
  }

  lemma NotBoth(d: Image, name: Image, f: File)
    requires |d| >= 32 && Other(d, name, 0)
    ensures !Names(d, name, 0, f)
  {
  }

  lemma AllLater(d: Image, name: Image)
    requires |d| % 32 == 0 && d != [] && Other(d, name, 0)
    ensures (forall k: nat | 32 * k + 32 <= |d| :: Other(d, name, k)) <==>
            forall k: nat | 32 * k + 32 <= |d[32..]| :: Other(d[32..], name, k)
  {
    var rest := d[32..];
    forall k: nat | 32 * k + 32 <= |rest| ensures Other(rest, name, k) == Other(d, name, k + 1) {
      Later(d, name, k, File(0, 0));
    }
    hide Other;
    if forall k: nat | 32 * k + 32 <= |rest| :: Other(rest, name, k) {
      forall k: nat | 32 * k + 32 <= |d| ensures Other(d, name, k) {
        if k > 0 { assert Other(rest, name, k - 1); }
      }
    }
    if forall k: nat | 32 * k + 32 <= |d| :: Other(d, name, k) {
      forall k: nat | 32 * k + 32 <= |rest| ensures Other(rest, name, k) { assert Other(d, name, k + 1); }
    }
  }

  /** The parts of a directory are scanned one after the other. */
  lemma {:induction false} ScanJoined(a: Image, b: Image, name: Image)
    requires |a| % 32 == 0 && |b| % 32 == 0
    ensures Scan(a + b, name) == if Scan(a, name).Unfinished? then Scan(b, name) else Scan(a, name)
    decreases |a|
  {
    if a == [] {
      assert a + b == b;
    } else {
      assert (a + b)[..32] == a[..32] && (a + b)[32..] == a[32..] + b;
      ScanJoined(a[32..], b, name);
    }
  }

  /** One block of a directory. */
  method ScanBlock(block: Image, name: Image) returns (r: Found)
    requires |block| == 512
    ensures r == Scan(block, name)
  {
    hide FileOf;
    var j := 0;
    while j < 512
      invariant 0 <= j <= 512 && j % 32 == 0
      invariant Scan(block[j..], name) == Scan(block, name)
    {
      var e := block[j..j + 32];
      assert block[j..][..32] == e && block[j..][32..] == block[j + 32..];
      if e[0] == 0 {
        return Missing;
      }
      if !Ignored(e) && e[..11] == name {
        return At(FileOf(e));
      }
      j := j + 32;
    }
    return Unfinished;
  }

  lemma WholeBlocks(n: nat)
    ensures 512 * n % 32 == 0
  {
  }

  /** What `n` blocks that follow one another on the disk say. */
  ghost function ScanStretch(d: Image, off: nat, n: nat, name: Image): Found
    requires off + 512 * n <= |d|
  {
    WholeBlocks(n);
    Scan(d[off..off + 512 * n], name)
  }

  /** Those blocks, up to where the directory ends or has the name. */
  method ScanSectors(dev: Device, off: nat, n: nat, name: Image) returns (ok: bool, r: Found)
    requires dev.Valid() && off + 512 * n <= |dev.disk|
    modifies dev
    ensures dev.Valid() && dev.disk == old(dev.disk) && dev.history == old(dev.history)
    ensures dev.failures == old(dev.failures) + if ok then 0 else 1
    ensures ok ==> r == ScanStretch(dev.disk, off, n, name)
  {
    hide Scan, ScanStretch;
    r := Unfinished;
    NoStretch(dev.disk, off, name);
    for i := 0 to n
      invariant dev.Valid() && dev.disk == old(dev.disk) && dev.history == old(dev.history)
      invariant dev.failures == old(dev.failures) && r == Unfinished
      invariant ScanStretch(dev.disk, off, i, name) == Unfinished
    {
      var block;
      ok, block := dev.RawIo(off + 512 * i, seq(512, _ => 0), false);
      if !ok { return; }
      r := ScanBlock(block, name);
      OneBlock(dev.disk, off, i, n, name);
      if r != Unfinished { return; }
    }
    ok := true;
  }

  lemma NoStretch(d: Image, off: nat, name: Image)
    requires off <= |d|
    ensures ScanStretch(d, off, 0, name) == Unfinished
  {
    assert d[off..off + 512 * 0] == [];
  }

  /** Behind blocks that say nothing, the next one decides. */
  lemma OneBlock(d: Image, off: nat, i: nat, n: nat, name: Image)
    requires i < n && off + 512 * n <= |d| && ScanStretch(d, off, i, name) == Unfinished
    ensures var here := Scan(d[off + 512 * i..off + 512 * i + 512], name);
      && ScanStretch(d, off, i + 1, name) == here
      && (!here.Unfinished? ==> ScanStretch(d, off, n, name) == here)
  {
    hide Scan;
    WholeBlocks(i);
    WholeBlocks(i + 1);
    WholeBlocks(n);
    var a, b, c := d[off..off + 512 * i], d[off + 512 * i..off + 512 * i + 512], d[off + 512 * (i + 1)..off + 512 * n];
    assert d[off..off + 512 * (i + 1)] == a + b;
    assert d[off..off + 512 * n] == d[off..off + 512 * (i + 1)] + c;
    WholeBlocks(n - (i + 1));
    assert |c| == 512 * (n - (i + 1));
    ScanJoined(a, b, name);
    ScanJoined(d[off..off + 512 * (i + 1)], c, name);
  }

  // ---------------------------------------------------------------------------------------------
  // Directories
  // ---------------------------------------------------------------------------------------------

  /** A chain of clusters from `first` on, as far as it may have been followed; it may come back to itself. */
  ghost predicate Follows(d: Image, fs: Fat, first: nat, chain: seq<nat>) {
    chain != [] && chain[0] == first && IsChain(d, fs, chain)
  }

  lemma {:induction false} WholeEntries(fs: Fat, n: nat)
    ensures Bytes(fs, n) % 32 == 0
  {
    if n > 0 {
      WholeEntries(fs, n - 1);
    }
  }

  ghost function ScanChain(d: Image, fs: Fat, chain: seq<nat>, name: Image): Found
    requires Sound(fs) && AllLegal(fs, chain) && |d| >= ESP_END
  {
    WholeEntries(fs, |chain|);
    Scan(Flat(d, fs, chain), name)
  }

  /** What one cluster by itself says. */
  ghost function ScanOne(d: Image, fs: Fat, c: nat, name: Image): Found
    requires Sound(fs) && Legal(fs, c) && |d| >= ESP_END
  {
    ClusterInside(fs, c);
    ClusterEntries(fs);
    Scan(d[ClusterOff(fs, c)..ClusterOff(fs, c) + ClusterBytes(fs)], name)
  }

  /** The next cluster of a directory, behind those that do not have the name. */
  lemma ScanCluster(d: Image, fs: Fat, chain: seq<nat>, c: nat, name: Image)
    requires Sound(fs) && AllLegal(fs, chain) && Legal(fs, c) && |d| >= ESP_END
    requires chain == [] || ScanChain(d, fs, chain, name) == Unfinished
    ensures AllLegal(fs, chain + [c]) && ScanChain(d, fs, chain + [c], name) == ScanOne(d, fs, c, name)
  {
    hide Scan, Bytes, Flat, ClusterOff;
    ClusterInside(fs, c);
    WholeEntries(fs, |chain|);
    WholeEntries(fs, |chain| + 1);
    FlatMore(d, fs, chain, c);
    if chain == [] { EmptyChain(d, fs, name); }
    ClusterEntries(fs);
    var bytes := d[ClusterOff(fs, c)..ClusterOff(fs, c) + ClusterBytes(fs)];
    hide ClusterBytes;
    ScanJoined(Flat(d, fs, chain), bytes, name);
  }

  lemma ClusterEntries(fs: Fat)
    ensures ClusterBytes(fs) % 32 == 0 && ClusterBytes(fs) == 512 * fs.perCluster
  {
  }

  lemma FlatMore(d: Image, fs: Fat, chain: seq<nat>, c: nat)
    requires Sound(fs) && AllLegal(fs, chain) && Legal(fs, c) && |d| >= ESP_END
    ensures AllLegal(fs, chain + [c]) && ClusterOff(fs, c) + ClusterBytes(fs) <= |d|
    ensures Flat(d, fs, chain + [c]) == Flat(d, fs, chain) + d[ClusterOff(fs, c)..ClusterOff(fs, c) + ClusterBytes(fs)]
  {
    hide Bytes, ClusterOff;
    ClusterInside(fs, c);
    assert (chain + [c])[..|chain|] == chain;
  }

  /** What the root directory says; it fills the sectors up to the data area. */
  ghost function ScanRoot(d: Image, fs: Fat, name: Image): Found
    requires Sound(fs) && fs.rootSector <= fs.dataSector && |d| >= ESP_END
  {
    Scan(d[ESP_OFFSET + fs.rootSector * 512..ESP_OFFSET + fs.dataSector * 512], name)
  }

  /** The directory that starts at `dir`, 0 for the root, has that file under that name. */
  ghost predicate Lists(d: Image, fs: Fat, dir: nat, name: Image, f: File)
    requires Sound(fs) && fs.rootSector <= fs.dataSector && |d| >= ESP_END
  {
    if dir == 0 then ScanRoot(d, fs, name) == At(f)
    else exists chain :: Follows(d, fs, dir, chain) && ScanChain(d, fs, chain, name) == At(f)
  }

  /** A directory followed along `chain` ends there as it should, without the name. */
  ghost predicate Closes(d: Image, fs: Fat, chain: seq<nat>, name: Image)
    requires Sound(fs) && chain != [] && AllLegal(fs, chain) && |d| >= ESP_END
  {
    || ScanChain(d, fs, chain, name) == Missing
    || (&& ScanChain(d, fs, chain, name) == Unfinished && |chain| <= fs.clusters
        && (EntryInside(fs, chain[|chain| - 1]); Entry(d, fs, chain[|chain| - 1]) >= END_OF_CHAIN))
  }

  /** It is broken there: it has come back to itself, or goes on to a cluster that there is not. */
  ghost predicate Breaks(d: Image, fs: Fat, chain: seq<nat>, name: Image)
    requires Sound(fs) && chain != [] && AllLegal(fs, chain) && |d| >= ESP_END
  {
    && ScanChain(d, fs, chain, name) == Unfinished
    && (|chain| > fs.clusters
        || (EntryInside(fs, chain[|chain| - 1]);
            var next := Entry(d, fs, chain[|chain| - 1]);
            next < END_OF_CHAIN && !Legal(fs, next)))
  }

  ghost predicate Stops(d: Image, fs: Fat, chain: seq<nat>, name: Image)
    requires Sound(fs) && chain != [] && AllLegal(fs, chain) && |d| >= ESP_END
  {
    Closes(d, fs, chain, name) || Breaks(d, fs, chain, name)
  }

  /** The answer to a search that does not find the name: 0 where the directory ends, -1 where it is broken. */
  ghost predicate Answers(d: Image, fs: Fat, dir: nat, name: Image, r: int)
    requires Sound(fs) && fs.rootSector <= fs.dataSector && |d| >= ESP_END
  {
    if dir == 0 then r == 0
    else if r == 0 then exists chain :: Follows(d, fs, dir, chain) && Closes(d, fs, chain, name)
    else !Legal(fs, dir) || exists chain :: Follows(d, fs, dir, chain) && Breaks(d, fs, chain, name)
  }

  /** dir_find: 1 with the file, 0 if the directory does not have the name, -1 if it or the device is broken. */
  method DirFind(dev: Device, fs: Fat, dir: nat, name: Image) returns (r: int, out: File)
    requires Present(dev, fs) && fs.rootSector <= fs.dataSector
    modifies dev
    ensures Present(dev, fs) && dev.disk == old(dev.disk) && dev.history == old(dev.history)
    ensures -1 <= r <= 1 && old(dev.failures) <= dev.failures && (r != -1 ==> dev.failures == old(dev.failures))
    ensures r == 1 ==> Lists(dev.disk, fs, dir, name, out)
    ensures r != 1 && dev.failures == old(dev.failures) ==>
      Answers(dev.disk, fs, dir, name, r) && forall f :: !Lists(dev.disk, fs, dir, name, f)
  {
    hide Scan, Bytes, IsChain, Lists, ScanStretch;
    out := File(0, 0);
    if dir == 0 {
      RootLists(dev.disk, fs, name);
      var ok, found := ScanSectors(dev, ESP_OFFSET + fs.rootSector * 512, fs.dataSector - fs.rootSector, name);
      if !ok { return -1, out; }
      if found.At? { return 1, found.f; }
      return 0, out;
    }
    if dir < 2 || dir >= fs.clusters + 2 {
      NotFollowed(dev.disk, fs, dir, name);
      return -1, out;
    }
    r, out := WalkDirectory(dev, fs, dir, name);
  }

  /** The loop over the clusters of a directory other than the root. */
  method WalkDirectory(dev: Device, fs: Fat, dir: nat, name: Image) returns (r: int, out: File)
    requires Present(dev, fs) && fs.rootSector <= fs.dataSector && Legal(fs, dir)
    modifies dev
    ensures Present(dev, fs) && dev.disk == old(dev.disk) && dev.history == old(dev.history)
    ensures -1 <= r <= 1 && old(dev.failures) <= dev.failures && (r != -1 ==> dev.failures == old(dev.failures))
    ensures r == 1 ==> Lists(dev.disk, fs, dir, name, out)
    ensures r != 1 && dev.failures == old(dev.failures) ==>
      Answers(dev.disk, fs, dir, name, r) && forall f :: !Lists(dev.disk, fs, dir, name, f)
  {
    hide Scan, Bytes, Flat, IsChain, Lists, Closes, Breaks, ScanStretch, ScanOne, ScanChain;
    out := File(0, 0);
    var cluster: nat, seen := dir, 0;
    ghost var chain: seq<nat> := [];
    FollowStart(dev.disk, fs, dir);
    while true
      invariant Present(dev, fs) && dev.disk == old(dev.disk) && dev.history == old(dev.history)
      invariant dev.failures == old(dev.failures) && |chain| == seen <= fs.clusters
      invariant Legal(fs, cluster) && Follows(dev.disk, fs, dir, chain + [cluster])
      invariant AllLegal(fs, chain) && (chain == [] || ScanChain(dev.disk, fs, chain, name) == Unfinished)
      decreases fs.clusters - seen
    {
      ScanCluster(dev.disk, fs, chain, cluster, name);
      ClusterInside(fs, cluster);
      ClusterEntries(fs);
      chain := chain + [cluster];
      var ok, found := ScanSectors(dev, ClusterOff(fs, cluster), fs.perCluster, name);
      if !ok { return -1, out; }
      StopLists(dev.disk, fs, dir, chain, name);
      assert found == ScanOne(dev.disk, fs, cluster, name) by { SameStretch(dev.disk, fs, cluster, name); }
      if found.At? {
        ListsThere(dev.disk, fs, dir, chain, name, found.f);
        return 1, found.f;
      }
      StopReasons(dev.disk, fs, chain, name);
      if found == Missing { return 0, out; }
      seen := seen + 1;
      if seen > fs.clusters { return -1, out; }
      var next;
      ok, next := FatNext(dev, fs, cluster);
      if !ok { return -1, out; }
      if next >= END_OF_CHAIN { return 0, out; }
      if next < 2 || next >= fs.clusters + 2 { return -1, out; }
      FollowOn(dev.disk, fs, dir, chain, next);
      cluster := next;
    }
  }

  lemma SameStretch(d: Image, fs: Fat, c: nat, name: Image)
    requires Sound(fs) && Legal(fs, c) && |d| >= ESP_END
    ensures ClusterOff(fs, c) + 512 * fs.perCluster <= |d|
    ensures ScanStretch(d, ClusterOff(fs, c), fs.perCluster, name) == ScanOne(d, fs, c, name)
  {
    hide Scan;
    ClusterInside(fs, c);
    ClusterEntries(fs);
  }

  lemma RootLists(d: Image, fs: Fat, name: Image)
    requires Sound(fs) && fs.rootSector <= fs.dataSector && |d| >= ESP_END
    ensures var off, n := ESP_OFFSET + fs.rootSector * 512, fs.dataSector - fs.rootSector;
      off + 512 * n <= |d| && ScanStretch(d, off, n, name) == ScanRoot(d, fs, name)
    ensures forall f :: Lists(d, fs, 0, name, f) <==> ScanRoot(d, fs, name) == At(f)
  {
  }

  lemma NotFollowed(d: Image, fs: Fat, dir: nat, name: Image)
    requires Sound(fs) && fs.rootSector <= fs.dataSector && |d| >= ESP_END && dir != 0 && !Legal(fs, dir)
    ensures forall f :: !Lists(d, fs, dir, name, f)
  {
    forall chain ensures !Follows(d, fs, dir, chain) {
      if chain != [] && chain[0] == dir { assert !Legal(fs, chain[0]); }
    }
  }

  lemma FollowStart(d: Image, fs: Fat, dir: nat)
    requires Legal(fs, dir)
    ensures Follows(d, fs, dir, [] + [dir])
  {
    assert [] + [dir] == [dir];
  }

  lemma FollowOn(d: Image, fs: Fat, dir: nat, chain: seq<nat>, next: nat)
    requires Sound(fs) && |d| >= ESP_END && Follows(d, fs, dir, chain) && Legal(fs, next) && AllLegal(fs, chain)
    requires var last := chain[|chain| - 1];
      EntryOff(fs, last) + 2 <= |d| && next == Entry(d, fs, last) < END_OF_CHAIN
    ensures Follows(d, fs, dir, chain + [next])
  {
    var more := chain + [next];
    forall k: nat | k + 1 < |more| ensures Links(d, fs, more, k) {
      if k + 1 < |chain| { assert Links(d, fs, chain, k); }
    }
  }

  lemma ListsThere(d: Image, fs: Fat, dir: nat, chain: seq<nat>, name: Image, f: File)
    requires Sound(fs) && fs.rootSector <= fs.dataSector && |d| >= ESP_END && dir != 0 && AllLegal(fs, chain)
    requires Follows(d, fs, dir, chain) && ScanChain(d, fs, chain, name) == At(f)
    ensures Lists(d, fs, dir, name, f)
  {
  }

  /** The ways to stop, one by one. */
  lemma StopReasons(d: Image, fs: Fat, chain: seq<nat>, name: Image)
    requires Sound(fs) && chain != [] && AllLegal(fs, chain) && |d| >= ESP_END
    ensures EntryOff(fs, chain[|chain| - 1]) + 2 <= |d|
    ensures ScanChain(d, fs, chain, name) == Missing ==> Closes(d, fs, chain, name)
    ensures ScanChain(d, fs, chain, name) == Unfinished && |chain| > fs.clusters ==> Breaks(d, fs, chain, name)
    ensures var next := Entry(d, fs, chain[|chain| - 1]);
      ScanChain(d, fs, chain, name) == Unfinished && |chain| <= fs.clusters ==>
        && (next >= END_OF_CHAIN ==> Closes(d, fs, chain, name))
        && (next < END_OF_CHAIN && !Legal(fs, next) ==> Breaks(d, fs, chain, name))
  {
    EntryInside(fs, chain[|chain| - 1]);
  }

  // ---------------------------------------------------------------------------------------------
  // Nothing is missed
  // ---------------------------------------------------------------------------------------------

  lemma {:induction false} FlatPrefix(d: Image, fs: Fat, chain: seq<nat>, n: nat)
    requires Sound(fs) && AllLegal(fs, chain) && |d| >= ESP_END && n <= |chain|
    ensures Bytes(fs, n) <= Bytes(fs, |chain|) && Flat(d, fs, chain)[..Bytes(fs, n)] == Flat(d, fs, chain[..n])
    decreases |chain|
  {
    if n == |chain| {
      assert chain[..n] == chain;
    } else {
      hide Flat, ClusterOff;
      var front, last := chain[..|chain| - 1], chain[|chain| - 1];
      FlatPrefix(d, fs, front, n);
      assert front[..n] == chain[..n] && chain == front + [last];
      FlatMore(d, fs, front, last);
    }
  }

  /** What the first clusters of a chain say stands, unless they say nothing. */
  lemma PrefixDecides(d: Image, fs: Fat, chain: seq<nat>, n: nat, name: Image)
    requires Sound(fs) && AllLegal(fs, chain) && |d| >= ESP_END && n <= |chain|
    ensures AllLegal(fs, chain[..n])
    ensures !ScanChain(d, fs, chain[..n], name).Unfinished? ==>
      ScanChain(d, fs, chain, name) == ScanChain(d, fs, chain[..n], name)
  {
    hide Scan, Flat, Bytes;
    WholeEntries(fs, n);
    WholeEntries(fs, |chain|);
    FlatPrefix(d, fs, chain, n);
    var whole := Flat(d, fs, chain);
    assert whole == whole[..Bytes(fs, n)] + whole[Bytes(fs, n)..];
    ScanJoined(whole[..Bytes(fs, n)], whole[Bytes(fs, n)..], name);
  }

  /** Two chains from the same cluster: the shorter one begins the longer one. */
  lemma OnePrefix(d: Image, fs: Fat, first: nat, a: seq<nat>, b: seq<nat>)
    requires Follows(d, fs, first, a) && Follows(d, fs, first, b) && |a| <= |b|
    ensures a == b[..|a|]
  {
    forall k | 0 <= k < |a| ensures a[k] == b[k] {
      Determined(d, fs, a, b, k);
    }
  }

  ghost predicate Silent(d: Image, fs: Fat, c: nat, name: Image)
    requires Sound(fs) && Legal(fs, c) && |d| >= ESP_END
  {
    ScanChain(d, fs, [c], name) == Unfinished
  }

  /** A chain says nothing exactly if none of its clusters does. */
  lemma {:induction false} AllSilent(d: Image, fs: Fat, chain: seq<nat>, name: Image)
    requires Sound(fs) && AllLegal(fs, chain) && |d| >= ESP_END
    ensures ScanChain(d, fs, chain, name) == Unfinished <==>
      forall k | 0 <= k < |chain| :: Silent(d, fs, chain[k], name)
    decreases |chain|
  {
    hide Flat, Bytes, Scan;
    if chain == [] {
      assert ScanChain(d, fs, [], name) == Unfinished by { EmptyChain(d, fs, name); }
    } else {
      var n := |chain| - 1;
      var front, c := chain[..n], chain[n];
      assert chain == front + [c];
      AllSilent(d, fs, front, name);
      if ScanChain(d, fs, front, name) == Unfinished {
        ScanCluster(d, fs, front, c, name);
        ScanCluster(d, fs, [], c, name);
        assert [] + [c] == [c];
      } else {
        PrefixDecides(d, fs, chain, n, name);
      }
      forall k | 0 <= k < n ensures front[k] == chain[k] {
      }
    }
  }

  lemma EmptyChain(d: Image, fs: Fat, name: Image)
    requires Sound(fs) && |d| >= ESP_END
    ensures ScanChain(d, fs, [], name) == Unfinished
  {
  }

  /** A chain with more clusters than there are comes back to itself, and then has been seen in full. */
  lemma Repeats(fs: Fat, chain: seq<nat>) returns (i: nat, j: nat)
    requires AllLegal(fs, chain) && |chain| > fs.clusters
    ensures i < j < |chain| && chain[i] == chain[j]
  {
    if Distinct(chain) {
      ChainLength(fs, chain);
    }
    i, j :| 0 <= i < j < |chain| && chain[i] == chain[j];
  }

  lemma {:induction false} SeenBefore(d: Image, fs: Fat, a: seq<nat>, b: seq<nat>, i: nat, j: nat, k: nat)
    returns (m: nat)
    requires IsChain(d, fs, a) && IsChain(d, fs, b) && a <= b && i < j < |a| && a[i] == a[j] && i <= k < |b|
    ensures i <= m < j && b[k] == a[m]
    decreases k
  {
    if k == i {
      m := i;
    } else {
      var p := SeenBefore(d, fs, a, b, i, j, k - 1);
      assert Links(d, fs, b, k - 1) && Links(d, fs, a, p);
      m := if p + 1 == j then i else p + 1;
    }
  }

  lemma SilentForever(d: Image, fs: Fat, a: seq<nat>, b: seq<nat>, name: Image)
    requires Sound(fs) && |d| >= ESP_END && IsChain(d, fs, a) && IsChain(d, fs, b) && a <= b && |a| > fs.clusters
    requires ScanChain(d, fs, a, name) == Unfinished
    ensures ScanChain(d, fs, b, name) == Unfinished
  {
    hide ScanChain, Links;
    var i, j := Repeats(fs, a);
    AllSilent(d, fs, a, name);
    forall k | 0 <= k < |b| ensures Silent(d, fs, b[k], name) {
      if k < |a| {
        assert b[k] == a[k];
      } else {
        var m := SeenBefore(d, fs, a, b, i, j, k);
      }
    }
    AllSilent(d, fs, b, name);
  }

  /** Where a directory stops, it does not have the name. */
  lemma StopLists(d: Image, fs: Fat, dir: nat, chain: seq<nat>, name: Image)
    requires Sound(fs) && fs.rootSector <= fs.dataSector && |d| >= ESP_END && dir != 0
    requires Follows(d, fs, dir, chain) && AllLegal(fs, chain)
    ensures Stops(d, fs, chain, name) ==> forall f :: !Lists(d, fs, dir, name, f)
  {
    hide ScanChain, IsChain;
    if Stops(d, fs, chain, name) {
      forall other | Follows(d, fs, dir, other) && AllLegal(fs, other) ensures !ScanChain(d, fs, other, name).At? {
        StopsFirst(d, fs, dir, chain, other, name);
      }
      forall other | Follows(d, fs, dir, other) ensures AllLegal(fs, other) {
        ChainLegal(d, fs, dir, other);
      }
    }
  }

  lemma StopsFirst(d: Image, fs: Fat, dir: nat, chain: seq<nat>, other: seq<nat>, name: Image)
    requires Sound(fs) && |d| >= ESP_END && AllLegal(fs, chain) && AllLegal(fs, other)
    requires Follows(d, fs, dir, chain) && Follows(d, fs, dir, other) && Stops(d, fs, chain, name)
    ensures !ScanChain(d, fs, other, name).At?
  {
    hide ScanChain, IsChain;
    if |other| <= |chain| {
      OnePrefix(d, fs, dir, other, chain);
      PrefixDecides(d, fs, chain, |other|, name);
    } else {
      OnePrefix(d, fs, dir, chain, other);
      PrefixDecides(d, fs, other, |chain|, name);
      if ScanChain(d, fs, chain, name) == Unfinished {
        if |chain| > fs.clusters {
          SilentForever(d, fs, chain, other, name);
        } else {
          GoesOn(d, fs, dir, other, |chain| - 1);
        }
      }
    }
  }

  lemma ChainLegal(d: Image, fs: Fat, dir: nat, chain: seq<nat>)
    requires Follows(d, fs, dir, chain)
    ensures AllLegal(fs, chain)
  {
  }

  lemma GoesOn(d: Image, fs: Fat, dir: nat, chain: seq<nat>, k: nat)
    requires Follows(d, fs, dir, chain) && k + 1 < |chain|
    ensures EntryOff(fs, chain[k]) + 2 <= |d|
    ensures Entry(d, fs, chain[k]) < END_OF_CHAIN && Legal(fs, Entry(d, fs, chain[k]))
  {
    assert Links(d, fs, chain, k);
  }

  // ---------------------------------------------------------------------------------------------
  // The kernel slots
  // ---------------------------------------------------------------------------------------------

  /** A name as the entries have it, eight characters and three. */
  function Short(s: string): Image
    requires forall i | 0 <= i < |s| :: s[i] < '\U{80}'
  {
    seq(|s|, i requires 0 <= i < |s| => s[i] as int)
  }

  function BootName(): Image { Short("BOOT       ") }
  function KernelName(): Image { Short("AEGIS   ELF") }
  function OldName(): Image { Short("AEGIS   OLD") }

  /** The two files, in the directory BOOT of the root directory. */
  ghost predicate Placed(d: Image, fs: Fat, cur: File, prev: File)
    requires Sound(fs) && fs.rootSector <= fs.dataSector && |d| >= ESP_END
  {
    exists boot: File ::
      && Lists(d, fs, 0, BootName(), boot)
      && Lists(d, fs, boot.first, KernelName(), cur) && Lists(d, fs, boot.first, OldName(), prev)
  }

  /** A directory has at most one file under a name. */
  lemma ListsOnce(d: Image, fs: Fat, dir: nat, name: Image, f: File, g: File)
    requires Sound(fs) && fs.rootSector <= fs.dataSector && |d| >= ESP_END
    requires Lists(d, fs, dir, name, f) && Lists(d, fs, dir, name, g)
    ensures f == g
  {
    hide ScanChain, ScanRoot, Links;
    if dir != 0 {
      var a :| Follows(d, fs, dir, a) && ScanChain(d, fs, a, name) == At(f);
      var b :| Follows(d, fs, dir, b) && ScanChain(d, fs, b, name) == At(g);
      ChainLegal(d, fs, dir, a);
      ChainLegal(d, fs, dir, b);
      if |a| <= |b| {
        OnePrefix(d, fs, dir, a, b);
        PrefixDecides(d, fs, b, |a|, name);
      } else {
        OnePrefix(d, fs, dir, b, a);
        PrefixDecides(d, fs, a, |b|, name);
      }
    }
  }

  /** The three searches of find_slots: both files if they are there; refused only if not, or if the device fails. */
  method FindFiles(dev: Device, fs: Fat) returns (ok: bool, cur: File, prev: File)
    requires Present(dev, fs) && fs.rootSector <= fs.dataSector
    modifies dev
    ensures Present(dev, fs) && dev.disk == old(dev.disk) && dev.history == old(dev.history)
    ensures old(dev.failures) <= dev.failures && (ok ==> dev.failures == old(dev.failures))
    ensures ok ==> Placed(dev.disk, fs, cur, prev)
    ensures !ok && dev.failures == old(dev.failures) ==> forall c, p :: !Placed(dev.disk, fs, c, p)
  {
    hide Lists, Answers, Short;
    cur, prev := File(0, 0), File(0, 0);
    var r, boot := DirFind(dev, fs, 0, BootName());
    if r != 1 { return false, cur, prev; }
    OneBoot(dev.disk, fs, boot);
    r, cur := DirFind(dev, fs, boot.first, KernelName());
    if r != 1 { return false, cur, prev; }
    r, prev := DirFind(dev, fs, boot.first, OldName());
    ok := r == 1;
  }

  lemma OneBoot(d: Image, fs: Fat, boot: File)
    requires Sound(fs) && fs.rootSector <= fs.dataSector && |d| >= ESP_END && Lists(d, fs, 0, BootName(), boot)
    ensures forall c, p :: Placed(d, fs, c, p) ==>
      Lists(d, fs, boot.first, KernelName(), c) && Lists(d, fs, boot.first, OldName(), p)
  {
    hide Lists, Short;
    forall c, p | Placed(d, fs, c, p)
      ensures Lists(d, fs, boot.first, KernelName(), c) && Lists(d, fs, boot.first, OldName(), p)
    {
      var other: File :| && Lists(d, fs, 0, BootName(), other)
        && Lists(d, fs, other.first, KernelName(), c) && Lists(d, fs, other.first, OldName(), p);
      ListsOnce(d, fs, 0, BootName(), boot, other);
    }
  }

  /** The boot sector of the partition. */
  function BootSector(d: Image): (b: Image)
    requires |d| >= ESP_END
    ensures |b| == 512
  {
    d[ESP_OFFSET..ESP_OFFSET + 512]
  }

  /** The disk is one that the update can work on: its geometry, its two slots and their clusters. */
  ghost predicate Installed(d: Image, fs: Fat, cur: File, prev: File, cc: seq<nat>, pc: seq<nat>) {
    && |d| >= ESP_END && FatOpen(BootSector(d)) == Some(fs)
    && Sound(fs) && fs.rootSector <= fs.dataSector && Placed(d, fs, cur, prev) && Slots(d, fs, cur, prev, cc, pc)
  }

  /**
    lorica-update from the boot sector to the verified kernel. It works on exactly the disks that are installed, unless
    the device fails, writes nothing on any other, and on those keeps the promises of the swap.
   */
  method UpdateDisk(dev: Device, staged: Image)
    returns (ok: bool, ghost found: bool, ghost fs: Fat, ghost cur: File, ghost prev: File,
             ghost cc: seq<nat>, ghost pc: seq<nat>)
    requires dev.Valid() && |dev.disk| >= ESP_END && |staged| == KERNEL_SLOT
    requires FatOpen(BootSector(dev.disk)).Some? ==> Covers(FatOpen(BootSector(dev.disk)).value)
    modifies dev
    ensures dev.Valid() && (found ==> Installed(old(dev.disk), fs, cur, prev, cc, pc))
    ensures !found ==> !ok && dev.disk == old(dev.disk) && dev.history == old(dev.history)
    ensures !found && dev.failures == old(dev.failures) ==> forall f, c, p, a, b :: !Installed(dev.disk, f, c, p, a, b)
    ensures found && !ok ==> dev.failures > old(dev.failures)
    ensures found ==>
      var original := Content(old(dev.disk), fs, cc, KERNEL_SLOT);
      && |dev.disk| >= ESP_END && Slots(dev.disk, fs, cur, prev, cc, pc)
      && AllBootable(dev.history, |old(dev.history)|, fs, cc, pc, original, staged)
      && (ok ==> Content(dev.disk, fs, cc, KERNEL_SLOT) == staged)
      && (ok && original != staged ==> Content(dev.disk, fs, pc, KERNEL_SLOT) == original)
  {
    hide FatOpen, Covers, Placed, Slots, Content, AllBootable, Sound;
    found, fs, cur, prev, cc, pc := false, Fat(0, 0, 0, 0, 0), File(0, 0), File(0, 0), [], [];
    var b;
    ok, b := dev.RawIo(ESP_OFFSET, seq(512, _ => 0), false);
    if !ok { return; }
    assert b == BootSector(dev.disk);
    var opened' := FatOpen(b);
    if opened'.None? {
      ok := false;
      return;
    }
    var volume := opened'.value;
    fs := volume;
    FatOpenSound(b);
    var kernel, old';
    ok, kernel, old' := FindFiles(dev, volume);
    cur, prev := kernel, old';
    if !ok { return; }
    ghost var disk := dev.disk;
    ok, found, cc, pc := Update(dev, volume, kernel, old', staged);
    OneInstalled(disk, volume, kernel, old');
  }

  lemma OneInstalled(d: Image, fs: Fat, cur: File, prev: File)
    requires |d| >= ESP_END && FatOpen(BootSector(d)) == Some(fs)
    requires Sound(fs) && fs.rootSector <= fs.dataSector && Placed(d, fs, cur, prev)
    ensures forall f, c, p, a, b :: Installed(d, f, c, p, a, b) ==>
      f == fs && c == cur && p == prev && Slots(d, fs, cur, prev, a, b)
  {
    hide FatOpen, Lists, Short, Sound;
    var boot: File :| && Lists(d, fs, 0, BootName(), boot)
      && Lists(d, fs, boot.first, KernelName(), cur) && Lists(d, fs, boot.first, OldName(), prev);
    OneBoot(d, fs, boot);
    forall f, c, p, a, b | Installed(d, f, c, p, a, b)
      ensures f == fs && c == cur && p == prev && Slots(d, fs, cur, prev, a, b)
    {
      ListsOnce(d, fs, boot.first, KernelName(), c, cur);
      ListsOnce(d, fs, boot.first, OldName(), p, prev);
    }
  }
}
