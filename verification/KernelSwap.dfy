/**
  The power-safe kernel swap of lorica-update (user/bin/lorica-update/main.c): both slots are checked
  to be disjoint cluster chains, the running kernel is copied to the old slot and verified, and only
  then is the new one written over it.
 */
module KernelSwap {
  import opened Common
  import opened BlockDevice
  import opened Fat16

  const KERNEL_SLOT: nat := 3_145_728

  // ---------------------------------------------------------------------------------------------
  // Frames along a chain
  // ---------------------------------------------------------------------------------------------

  /** Every content logged from index `from` on is `base` outside the chain. */
  ghost predicate Within(log: seq<Image>, from: nat, base: Image, fs: Fat, chain: seq<nat>)
    requires AllLegal(fs, chain)
  {
    forall k | from <= k < |log| :: SameBut(log[k], base, fs, chain)
  }

  lemma OneCluster(after: Image, before: Image, fs: Fat, chain: seq<nat>, j: nat, n: nat)
    requires AllLegal(fs, chain) && j < |chain| && n <= ClusterBytes(fs)
    requires SameOutside(after, before, ClusterOff(fs, chain[j]), ClusterOff(fs, chain[j]) + n)
    ensures SameBut(after, before, fs, [chain[j]]) && SameBut(after, before, fs, chain)
  {
    forall p | 0 <= p < |after| && after[p] != before[p]
      ensures Owns(fs, [chain[j]], p) && Owns(fs, chain, p)
    {
      assert InCluster(fs, chain[j], p);
      assert [chain[j]][0] == chain[j];
    }
  }

  lemma SameButTransitive(a: Image, b: Image, c: Image, fs: Fat, chain: seq<nat>)
    requires AllLegal(fs, chain) && SameBut(a, b, fs, chain) && SameBut(b, c, fs, chain)
    ensures SameBut(a, c, fs, chain)
  {
  }

  /** After one more cluster was written, the frame holds of the disk and of every content logged. */
  lemma Advance(log: seq<Image>, was: seq<Image>, from: nat, after: Image, before: Image, base: Image,
                fs: Fat, chain: seq<nat>, j: nat, n: nat)
    requires AllLegal(fs, chain) && j < |chain| && n <= ClusterBytes(fs) && was <= log && from <= |was|
    requires SameBut(before, base, fs, chain) && Within(was, from, base, fs, chain)
    requires SameOutside(after, before, ClusterOff(fs, chain[j]), ClusterOff(fs, chain[j]) + n)
    requires Confined(log, |was|, before, ClusterOff(fs, chain[j]), ClusterOff(fs, chain[j]) + n)
    ensures SameBut(after, base, fs, chain) && SameBut(after, before, fs, [chain[j]])
    ensures Within(log, from, base, fs, chain)
  {
    OneCluster(after, before, fs, chain, j, n);
    SameButTransitive(after, before, base, fs, chain);
    forall k | from <= k < |log| ensures SameBut(log[k], base, fs, chain) {
      if k < |was| {
        assert log[k] == was[k];
      } else {
        OneCluster(log[k], before, fs, chain, j, n);
        SameButTransitive(log[k], before, base, fs, chain);
      }
    }
  }

  /** What the first clusters hold once the next one is complete. */
  lemma FlatGrows(after: Image, before: Image, fs: Fat, chain: seq<nat>, j: nat)
    requires Sound(fs) && AllLegal(fs, chain) && Distinct(chain) && j < |chain|
    requires SameBut(after, before, fs, [chain[j]]) && |before| >= ESP_END
    ensures ClusterOff(fs, chain[j]) + ClusterBytes(fs) <= ESP_END
    ensures Flat(after, fs, chain[..j + 1]) == Flat(before, fs, chain[..j])
              + after[ClusterOff(fs, chain[j])..ClusterOff(fs, chain[j]) + ClusterBytes(fs)]
  {
    ClusterInside(fs, chain[j]);
    var upTo := chain[..j + 1];
    assert upTo[..|upTo| - 1] == chain[..j];
    FlatKept(after, before, fs, [chain[j]], chain[..j]);
  }

  /** The links of a chain survive writes through it. */
  lemma ChainKept(a: Image, b: Image, fs: Fat, written: seq<nat>, chain: seq<nat>)
    requires Sound(fs) && Covers(fs) && AllLegal(fs, written) && SameBut(a, b, fs, written) && |b| >= ESP_END
    requires IsChain(b, fs, chain)
    ensures IsChain(a, fs, chain)
  {
    forall k: nat | k + 1 < |chain| ensures Links(a, fs, chain, k) {
      assert Links(b, fs, chain, k) && Legal(fs, chain[k]);
      FatKept(a, b, fs, written, chain[k]);
    }
  }

  // ---------------------------------------------------------------------------------------------
  // Chain length
  // ---------------------------------------------------------------------------------------------

  function Need(fs: Fat, size: nat): nat
    requires fs.perCluster > 0
  {
    (size + ClusterBytes(fs) - 1) / ClusterBytes(fs)
  }

  lemma NeedFits(fs: Fat, chain: seq<nat>, size: nat)
    requires fs.perCluster > 0 && size > 0 && |chain| == Need(fs, size)
    ensures Fits(fs, chain, size)
  {
    var cb := ClusterBytes(fs);
    DivideBack(size + cb - 1, cb);
    BytesProduct(fs, |chain|);
    if chain != [] { BytesProduct(fs, |chain| - 1); assert (|chain| - 1) * cb == |chain| * cb - cb; }
  }

  function Range(n: nat): (r: set<nat>)
    ensures forall c: nat :: c in r <==> 2 <= c < n + 2
    ensures |r| == n
  {
    if n == 0 then {} else Range(n - 1) + {n + 1}
  }

  lemma {:induction false} DistinctFit(fs: Fat, chain: seq<nat>, room: set<nat>)
    requires Distinct(chain) && forall k | 0 <= k < |chain| :: chain[k] in room
    ensures |chain| <= |room|
    decreases |chain|
  {
    if chain != [] {
      var c := chain[0];
      forall k | 0 <= k < |chain[1..]| ensures chain[1..][k] in room - {c} {
        assert chain[1..][k] == chain[k + 1];
      }
      DistinctFit(fs, chain[1..], room - {c});
      assert |room - {c}| == |room| - 1;
    }
  }

  /** A chain without repetition is no longer than the volume has clusters. */
  lemma ChainLength(fs: Fat, chain: seq<nat>)
    requires AllLegal(fs, chain) && Distinct(chain)
    ensures |chain| <= fs.clusters
  {
    DistinctFit(fs, chain, Range(fs.clusters));
  }

  // ---------------------------------------------------------------------------------------------
  // The operations
  // ---------------------------------------------------------------------------------------------

  /** A volume that fat_open accepted, on a device that holds the partition. */
  ghost predicate Present(dev: Device, fs: Fat)
    reads dev
  {
    dev.Valid() && |dev.disk| >= ESP_END && Sound(fs)
  }

  /** The same with a FAT that file data cannot hit. */
  ghost predicate Mounted(dev: Device, fs: Fat)
    reads dev
  {
    Present(dev, fs) && Covers(fs)
  }

  /** Even in a short FAT, the entry of a legal cluster lies inside the partition. */
  lemma EntryInside(fs: Fat, c: nat)
    requires Sound(fs) && Legal(fs, c)
    ensures EntryOff(fs, c) + 2 <= ESP_END
  {
    BytesProduct(fs, fs.clusters);
    assert fs.clusters * ClusterBytes(fs) >= fs.clusters * 512;
  }

  method FatNext(dev: Device, fs: Fat, c: nat) returns (ok: bool, next: nat)
    requires Present(dev, fs) && Legal(fs, c)
    modifies dev
    ensures Present(dev, fs) && dev.disk == old(dev.disk) && dev.history == old(dev.history)
    ensures EntryOff(fs, c) + 2 <= |dev.disk| && (ok ==> next == Entry(dev.disk, fs, c))
    ensures dev.failures == old(dev.failures) + if ok then 0 else 1
  {
    EntryInside(fs, c);
    var e;
    ok, e := dev.RawIo(EntryOff(fs, c), [0, 0], false);
    next := if ok then Le16(e, 0) else 0;
  }

  /** A chain that mark_chain can mark: as long as the file needs, without repetition and without marked clusters. */
  ghost predicate Marks(d: Image, fs: Fat, f: File, used: seq<bool>, chain: seq<nat>)
    requires fs.perCluster > 0 && |used| == fs.clusters + 2
  {
    && IsChain(d, fs, chain) && Distinct(chain) && |chain| == Need(fs, f.size) && (chain != [] ==> chain[0] == f.first)
    && (forall k | 0 <= k < |chain| :: !used[chain[k]])
  }

  /** The FAT leaves no choice: two chains from the same cluster agree as far as both go. */
  lemma {:induction false} Determined(d: Image, fs: Fat, a: seq<nat>, b: seq<nat>, k: nat)
    requires IsChain(d, fs, a) && IsChain(d, fs, b) && k < |a| && k < |b| && a[0] == b[0]
    ensures a[k] == b[k]
    decreases k
  {
    if k > 0 {
      Determined(d, fs, a, b, k - 1);
      assert Links(d, fs, a, k - 1) && Links(d, fs, b, k - 1);
    }
  }

  lemma SameChain(d: Image, fs: Fat, a: seq<nat>, b: seq<nat>)
    requires IsChain(d, fs, a) && IsChain(d, fs, b) && |a| == |b| && (a != [] ==> a[0] == b[0])
    ensures a == b
  {
    forall k | 0 <= k < |a| ensures a[k] == b[k] {
      Determined(d, fs, a, b, k);
    }
  }

  /** Where mark_chain stands, every chain that it could mark goes through the same cluster. */
  lemma MustPass(d: Image, fs: Fat, f: File, used: seq<bool>, seen: seq<nat>, cluster: nat, chain: seq<nat>)
    requires fs.perCluster > 0 && |used| == fs.clusters + 2 && Marks(d, fs, f, used, chain)
    requires IsChain(d, fs, seen) && |seen| < Need(fs, f.size)
    requires if seen == [] then cluster == f.first
             else && seen[0] == f.first && EntryOff(fs, seen[|seen| - 1]) + 2 <= |d|
                  && cluster == Entry(d, fs, seen[|seen| - 1])
    ensures chain[|seen|] == cluster && Legal(fs, cluster) && !used[cluster] && cluster !in seen
    ensures |seen| + 1 < Need(fs, f.size) ==> EntryOff(fs, cluster) + 2 <= |d| && Entry(d, fs, cluster) < END_OF_CHAIN
  {
    var i := |seen|;
    if i > 0 {
      Determined(d, fs, seen, chain, i - 1);
      assert Links(d, fs, chain, i - 1);
    }
    forall k | 0 <= k < i ensures seen[k] != cluster {
      Determined(d, fs, seen, chain, k);
    }
    if i + 1 < |chain| {
      assert Links(d, fs, chain, i);
    }
  }

  /**
    mark_chain: follows the FAT for as many clusters as the file needs and marks each, refusing a
    cluster that is illegal or already marked. It accepts exactly the files with a chain to mark,
    unless the device fails.
   */
  method MarkChain(dev: Device, fs: Fat, f: File, used: array<bool>)
    returns (ok: bool, ghost chain: seq<nat>)
    requires Present(dev, fs) && used.Length == fs.clusters + 2
    modifies dev, used
    ensures Present(dev, fs) && dev.disk == old(dev.disk) && dev.history == old(dev.history)
    ensures dev.failures >= old(dev.failures) && (ok ==> dev.failures == old(dev.failures))
    ensures ok ==> Marks(dev.disk, fs, f, old(used[..]), chain)
    ensures ok ==> forall c | 0 <= c < used.Length :: used[c] == (old(used[c]) || c in chain)
    ensures !ok && dev.failures == old(dev.failures) ==> forall c :: !Marks(dev.disk, fs, f, old(used[..]), c)
  {
    hide Entry, Links;
    var need := Need(fs, f.size);
    var cluster := f.first;
    chain := [];
    ok := false;
    ghost var was := used[..];
    for i := 0 to need
      invariant Present(dev, fs) && dev.disk == old(dev.disk) && dev.history == old(dev.history)
      invariant dev.failures == old(dev.failures)
      invariant |chain| == i && IsChain(dev.disk, fs, chain) && Distinct(chain)
      invariant i == 0 ==> cluster == f.first
      invariant 0 < i ==> chain[0] == f.first
      invariant 0 < i < need ==> && EntryOff(fs, chain[i - 1]) + 2 <= |dev.disk|
                                 && cluster == Entry(dev.disk, fs, chain[i - 1]) < END_OF_CHAIN
      invariant forall k | 0 <= k < i :: !was[chain[k]]
      invariant forall c | 0 <= c < used.Length :: used[c] == (was[c] || c in chain)
    {
      ghost var disk, seen, at := dev.disk, chain, cluster;
      forall c | Marks(disk, fs, f, was, c)
        ensures Legal(fs, at) && !was[at] && at !in seen
        ensures i + 1 < need ==> EntryOff(fs, at) + 2 <= |disk| && Entry(disk, fs, at) < END_OF_CHAIN
      {
        MustPass(disk, fs, f, was, seen, at, c);
      }
      if cluster < 2 || cluster >= fs.clusters + 2 || used[cluster] { return; }
      used[cluster] := true;
      ChainPush(dev.disk, fs, chain, cluster);
      chain := chain + [cluster];
      if i + 1 < need {
        var read, next := FatNext(dev, fs, cluster);
        if !read || next >= END_OF_CHAIN { return; }
        cluster := next;
      }
    }
    ok := true;
  }

  lemma ChainPush(d: Image, fs: Fat, chain: seq<nat>, c: nat)
    requires IsChain(d, fs, chain) && Distinct(chain) && Legal(fs, c) && c !in chain
    requires chain != [] ==> && EntryOff(fs, chain[|chain| - 1]) + 2 <= |d|
                             && c == Entry(d, fs, chain[|chain| - 1]) < END_OF_CHAIN
    ensures IsChain(d, fs, chain + [c]) && Distinct(chain + [c])
  {
    forall k: nat | k + 1 < |chain + [c]| ensures Links(d, fs, chain + [c], k) {
      if k + 1 < |chain| { assert Links(d, fs, chain, k); }
    }
  }

  /** A file that mark_chain accepted, together with the clusters it marked. */
  ghost predicate Accepted(d: Image, fs: Fat, f: File, chain: seq<nat>) {
    && IsChain(d, fs, chain) && Distinct(chain) && Fits(fs, chain, f.size) && chain[0] == f.first
  }

  /** One cluster of a file, or its first bytes. */
  method ClusterIo(dev: Device, fs: Fat, cluster: nat, piece: Image, write: bool,
                   ghost chain: seq<nat>, ghost j: nat, ghost from: nat, ghost base: Image)
    returns (ok: bool, out: Image)
    requires Mounted(dev, fs) && AllLegal(fs, chain) && j < |chain| && chain[j] == cluster
    requires |piece| <= ClusterBytes(fs)
    requires SameBut(dev.disk, base, fs, chain) && Within(dev.history, from, base, fs, chain)
    requires from <= |dev.history|
    modifies dev
    ensures Mounted(dev, fs) && old(dev.history) <= dev.history && |dev.disk| == |old(dev.disk)|
    ensures SameBut(dev.disk, base, fs, chain) && Within(dev.history, from, base, fs, chain)
    ensures SameBut(dev.disk, old(dev.disk), fs, [cluster])
    ensures !write ==> dev.disk == old(dev.disk) && dev.history == old(dev.history)
    ensures ClusterOff(fs, cluster) + ClusterBytes(fs) <= ESP_END
    ensures var at := ClusterOff(fs, cluster);
            ok ==> dev.disk[at..at + |piece|] == if write then piece else out
    ensures dev.failures == old(dev.failures) + if ok then 0 else 1
  {
    hide SameBut, Within;
    ClusterInside(fs, cluster);
    ok, out := dev.RawIo(ClusterOff(fs, cluster), piece, write);
    Advance(dev.history, old(dev.history), from, dev.disk, old(dev.disk), base, fs, chain, j, |piece|);
  }

  /** The file so far, with the next cluster or its first `n` bytes. */
  lemma Gather(after: Image, before: Image, fs: Fat, chain: seq<nat>, j: nat,
               buf: Image, out: Image, piece: Image, done: nat, n: nat, write: bool)
    requires Sound(fs) && AllLegal(fs, chain) && Distinct(chain) && j < |chain|
    requires n <= ClusterBytes(fs) && done + n <= |buf| && done == Bytes(fs, j)
    requires SameBut(after, before, fs, [chain[j]]) && |before| >= ESP_END
    requires Flat(before, fs, chain[..j]) == if write then buf[..done] else out
    requires ClusterOff(fs, chain[j]) + n <= |after|
    requires after[ClusterOff(fs, chain[j])..ClusterOff(fs, chain[j]) + n]
             == if write then buf[done..done + n] else piece
    ensures var all := if write then buf[..done + n] else out + piece;
            && |Flat(after, fs, chain[..j + 1])| >= done + n
            && Flat(after, fs, chain[..j + 1])[..done + n] == all
            && (n == ClusterBytes(fs) ==> Flat(after, fs, chain[..j + 1]) == all)
  {
    hide Distinct, Bytes;
    FlatGrows(after, before, fs, chain, j);
    JoinSlices(Flat(before, fs, chain[..j]), after, ClusterOff(fs, chain[j]), ClusterBytes(fs), n);
    assert buf[..done + n] == buf[..done] + buf[done..done + n];
  }

  lemma JoinSlices(head: Image, d: Image, at: nat, len: nat, n: nat)
    requires n <= len && at + len <= |d|
    ensures (head + d[at..at + len])[..|head| + n] == head + d[at..at + n]
  {
  }

  /** The `n` bytes of a file at `done`, which is where its cluster number `seen` starts. */
  method MoveCluster(dev: Device, fs: Fat, f: File, cluster: nat, buf: Image, got: Image, write: bool,
                     done: nat, n: nat,
                     ghost chain: seq<nat>, ghost seen: nat, ghost from: nat, ghost base: Image)
    returns (ok: bool, out: Image)
    requires Mounted(dev, fs) && Accepted(base, fs, f, chain) && |buf| == f.size
    requires seen < |chain| && cluster == chain[seen] && done == Bytes(fs, seen)
    requires n <= ClusterBytes(fs) && done + n <= f.size
    requires Flat(dev.disk, fs, chain[..seen]) == if write then buf[..done] else got
    requires SameBut(dev.disk, base, fs, chain) && Within(dev.history, from, base, fs, chain)
    requires from <= |dev.history| && |base| == |dev.disk|
    modifies dev
    ensures Mounted(dev, fs) && Accepted(dev.disk, fs, f, chain)
    ensures old(dev.history) <= dev.history && |dev.disk| == |old(dev.disk)|
    ensures SameBut(dev.disk, base, fs, chain) && Within(dev.history, from, base, fs, chain)
    ensures !write ==> dev.disk == old(dev.disk) && dev.history == old(dev.history)
    ensures var all := if write then buf[..done + n] else out;
            ok ==> && Flat(dev.disk, fs, chain[..seen + 1])[..done + n] == all
                   && (n == ClusterBytes(fs) ==> Flat(dev.disk, fs, chain[..seen + 1]) == all)
    ensures dev.failures == old(dev.failures) + if ok then 0 else 1
  {
    hide SameBut, Within, Flat, Distinct, Links;
    out := got;
    var piece;
    ok, piece := ClusterIo(dev, fs, cluster, buf[done..done + n], write, chain, seen, from, base);
    ChainKept(dev.disk, base, fs, chain, chain);
    if ok {
      Gather(dev.disk, old(dev.disk), fs, chain, seen, buf, got, piece, done, n, write);
      if !write { out := got + piece; }
    }
  }

  /**
    file_io: reads a file into the result, or writes `buf` over it, cluster by cluster. It visits
    exactly the marked clusters: nothing outside them changes at any block write, the bytes come back
    in order, and only a failing device stops it.
   */
  method FileIo(dev: Device, fs: Fat, f: File, buf: Image, write: bool, ghost chain: seq<nat>)
    returns (ok: bool, out: Image)
    requires Mounted(dev, fs) && Accepted(dev.disk, fs, f, chain) && |buf| == f.size
    modifies dev
    ensures Mounted(dev, fs) && Accepted(dev.disk, fs, f, chain)
    ensures old(dev.history) <= dev.history && |dev.disk| == |old(dev.disk)|
    ensures SameBut(dev.disk, old(dev.disk), fs, chain)
    ensures Within(dev.history, |old(dev.history)|, old(dev.disk), fs, chain)
    ensures !write ==> dev.disk == old(dev.disk) && dev.history == old(dev.history)
    ensures ok ==> Content(dev.disk, fs, chain, f.size) == if write then buf else out
    ensures dev.failures == old(dev.failures) + if ok then 0 else 1
  {
    hide SameBut, Within, Flat, Distinct, Entry;
    NothingWritten(dev.disk, dev.history, fs, chain);
    ChainLength(fs, chain);
    var cluster, done, seen := f.first, 0, 0;
    out, ok := [], false;
    while true
      invariant 0 <= seen < |chain| && cluster == chain[seen] && done == Bytes(fs, seen) < f.size
      invariant Mounted(dev, fs) && Accepted(dev.disk, fs, f, chain)
      invariant old(dev.history) <= dev.history && |dev.disk| == |old(dev.disk)|
      invariant SameBut(dev.disk, old(dev.disk), fs, chain)
      invariant Within(dev.history, |old(dev.history)|, old(dev.disk), fs, chain)
      invariant !write ==> dev.disk == old(dev.disk) && dev.history == old(dev.history)
      invariant Flat(dev.disk, fs, chain[..seen]) == if write then buf[..done] else out
      invariant dev.failures == old(dev.failures)
      decreases |chain| - seen
    {
      assert Legal(fs, cluster) && seen + 1 <= fs.clusters;   // the source's own checks never fire
      var n := Min(f.size - done, ClusterBytes(fs));
      ok, out := MoveCluster(dev, fs, f, cluster, buf, out, write, done, n,
                             chain, seen, |old(dev.history)|, old(dev.disk));
      if !ok { return; }
      done := done + n;
      if done == f.size {
        LastCluster(fs, chain, f.size, seen);
        assert chain[..seen + 1] == chain && buf[..done] == buf;
        return;
      }
      var next;
      ok, next := FatNext(dev, fs, cluster);
      if !ok { return; }
      assert Links(dev.disk, fs, chain, seen);
      cluster, seen := next, seen + 1;
    }
  }

  lemma LastCluster(fs: Fat, chain: seq<nat>, size: nat, seen: nat)
    requires Fits(fs, chain, size) && seen < |chain| && size <= Bytes(fs, seen) + ClusterBytes(fs)
    ensures seen + 1 == |chain|
  {
    if seen + 1 < |chain| { BytesGrow(fs, seen, |chain| - 1); }
  }

  lemma NothingWritten(disk: Image, log: seq<Image>, fs: Fat, chain: seq<nat>)
    requires AllLegal(fs, chain) && Sound(fs) && |disk| >= ESP_END
    ensures SameBut(disk, disk, fs, chain) && Within(log, |log|, disk, fs, chain)
    ensures Flat(disk, fs, []) == []
  {
  }

  // ---------------------------------------------------------------------------------------------
  // The swap
  // ---------------------------------------------------------------------------------------------

  /** Both slots as find_slots accepts them: full size, and no cluster in common. */
  ghost predicate Slots(d: Image, fs: Fat, cur: File, prev: File, cc: seq<nat>, pc: seq<nat>) {
    && cur.size == KERNEL_SLOT && prev.size == KERNEL_SLOT
    && Accepted(d, fs, cur, cc) && Accepted(d, fs, prev, pc) && Apart(cc, pc)
  }

  lemma FitsNeed(fs: Fat, chain: seq<nat>, size: nat)
    requires fs.perCluster > 0 && Fits(fs, chain, size)
    ensures |chain| == Need(fs, size)
  {
    var cb, n := ClusterBytes(fs), |chain|;
    BytesProduct(fs, n);
    BytesProduct(fs, n - 1);
    assert (n - 1) * cb == n * cb - cb;
    Quotient(size + cb - 1, cb, n);
  }

  lemma Quotient(a: nat, b: nat, q: nat)
    requires b > 0 && q * b <= a < q * b + b
    ensures a / b == q
  {
    DivideBack(a, b);
    NextMultiple(a / b, q, b);
    NextMultiple(q, a / b, b);
  }

  lemma {:induction false} NextMultiple(m: nat, n: nat, b: nat)
    ensures m < n ==> m * b + b <= n * b
    decreases n
  {
    if m < n {
      assert n * b == (n - 1) * b + b;
      NextMultiple(m, n - 1, b);
    }
  }

  lemma FirstMarks(d: Image, fs: Fat, cur: File, prev: File, cc: seq<nat>, pc: seq<nat>, none: seq<bool>)
    requires Sound(fs) && Slots(d, fs, cur, prev, cc, pc)
    requires |none| == fs.clusters + 2 && forall c | 0 <= c < |none| :: !none[c]
    ensures Marks(d, fs, cur, none, cc)
  {
    FitsNeed(fs, cc, KERNEL_SLOT);
  }

  /** After the first slot, whose chain is the only one it can have, the second one is still free. */
  lemma SecondMarks(d: Image, fs: Fat, cur: File, prev: File, cc: seq<nat>, pc: seq<nat>, none: seq<bool>,
                    got: seq<nat>, used: seq<bool>)
    requires Sound(fs) && Slots(d, fs, cur, prev, cc, pc)
    requires |none| == |used| == fs.clusters + 2 && Marks(d, fs, cur, none, got)
    requires forall c | 0 <= c < |used| :: used[c] == (c in got)
    ensures Marks(d, fs, prev, used, pc)
  {
    FitsNeed(fs, cc, KERNEL_SLOT);
    FitsNeed(fs, pc, KERNEL_SLOT);
    SameChain(d, fs, got, cc);
  }

  /** find_slots, given the two directory entries of dir_find: exactly proper slots, unless the device fails. */
  method FindSlots(dev: Device, fs: Fat, cur: File, prev: File)
    returns (ok: bool, ghost cc: seq<nat>, ghost pc: seq<nat>)
    requires Present(dev, fs)
    modifies dev
    ensures Present(dev, fs) && dev.disk == old(dev.disk) && dev.history == old(dev.history)
    ensures dev.failures >= old(dev.failures) && (ok ==> dev.failures == old(dev.failures))
    ensures ok ==> Slots(dev.disk, fs, cur, prev, cc, pc)
    ensures !ok && dev.failures == old(dev.failures) ==> forall a, b :: !Slots(dev.disk, fs, cur, prev, a, b)
  {
    hide IsChain, Fits, Marks, Accepted, Apart;
    cc, pc := [], [];
    ok := cur.size == KERNEL_SLOT && prev.size == KERNEL_SLOT;
    if !ok { return; }
    var used := new bool[fs.clusters + 2](_ => false);
    ghost var disk, none := dev.disk, used[..];
    forall a, b | Slots(disk, fs, cur, prev, a, b) ensures Marks(disk, fs, cur, none, a) {
      FirstMarks(disk, fs, cur, prev, a, b, none);
    }
    ok, cc := MarkChain(dev, fs, cur, used);
    if !ok { return; }
    ghost var marked := used[..];
    forall a, b | Slots(disk, fs, cur, prev, a, b) ensures Marks(disk, fs, prev, marked, b) {
      SecondMarks(disk, fs, cur, prev, a, b, none, cc, marked);
    }
    ok, pc := MarkChain(dev, fs, prev, used);
    if !ok { return; }
    FoundSlots(disk, fs, cur, prev, none, cc, marked, pc);
  }

  lemma FoundSlots(d: Image, fs: Fat, cur: File, prev: File, none: seq<bool>, cc: seq<nat>, used: seq<bool>,
                   pc: seq<nat>)
    requires fs.perCluster > 0 && |none| == |used| == fs.clusters + 2
    requires cur.size == KERNEL_SLOT && prev.size == KERNEL_SLOT
    requires Marks(d, fs, cur, none, cc) && Marks(d, fs, prev, used, pc)
    requires forall c | 0 <= c < |used| :: used[c] == (none[c] || c in cc)
    ensures Slots(d, fs, cur, prev, cc, pc)
  {
    NeedFits(fs, cc, KERNEL_SLOT);
    NeedFits(fs, pc, KERNEL_SLOT);
  }

  /** At least one slot holds, byte for byte, one of the two complete kernels. */
  ghost predicate Bootable(d: Image, fs: Fat, cc: seq<nat>, pc: seq<nat>, original: Image, staged: Image)
    requires Sound(fs) && AllLegal(fs, cc) && AllLegal(fs, pc) && |d| >= ESP_END
    requires Fits(fs, cc, KERNEL_SLOT) && Fits(fs, pc, KERNEL_SLOT)
  {
    || Content(d, fs, cc, KERNEL_SLOT) == original || Content(d, fs, pc, KERNEL_SLOT) == original
    || Content(d, fs, cc, KERNEL_SLOT) == staged || Content(d, fs, pc, KERNEL_SLOT) == staged
  }

  /** While one slot is written, the other keeps its kernel at every block write. */
  lemma OtherSlotKept(log: seq<Image>, from: nat, base: Image, fs: Fat,
                      written: seq<nat>, other: seq<nat>, k: nat)
    requires Sound(fs) && AllLegal(fs, written) && AllLegal(fs, other) && |base| >= ESP_END
    requires Within(log, from, base, fs, written) && Apart(other, written) && from <= k < |log|
    requires Fits(fs, other, KERNEL_SLOT)
    ensures |log[k]| == |base| && Content(log[k], fs, other, KERNEL_SLOT) == Content(base, fs, other, KERNEL_SLOT)
  {
    FlatKept(log[k], base, fs, written, other);
  }

  /** Every content logged from index `from` on is bootable. */
  ghost predicate AllBootable(log: seq<Image>, from: nat, fs: Fat, cc: seq<nat>, pc: seq<nat>,
                              original: Image, staged: Image)
    requires Sound(fs) && AllLegal(fs, cc) && AllLegal(fs, pc)
    requires Fits(fs, cc, KERNEL_SLOT) && Fits(fs, pc, KERNEL_SLOT)
  {
    forall k | from <= k < |log| :: |log[k]| >= ESP_END && Bootable(log[k], fs, cc, pc, original, staged)
  }

  /** At some point both slots held the same. */
  ghost predicate Doubled(log: seq<Image>, from: nat, fs: Fat, cc: seq<nat>, pc: seq<nat>, kernel: Image)
    requires Sound(fs) && AllLegal(fs, cc) && AllLegal(fs, pc)
    requires Fits(fs, cc, KERNEL_SLOT) && Fits(fs, pc, KERNEL_SLOT)
  {
    exists k | from <= k < |log| ::
      && |log[k]| >= ESP_END
      && Content(log[k], fs, cc, KERNEL_SLOT) == kernel && Content(log[k], fs, pc, KERNEL_SLOT) == kernel
  }

  /** Writing one slot while the other one holds the original kernel. */
  lemma WritingIsSafe(log: seq<Image>, was: seq<Image>, from: nat, base: Image, fs: Fat,
                      cc: seq<nat>, pc: seq<nat>, overCurrent: bool, original: Image, staged: Image)
    requires Sound(fs) && AllLegal(fs, cc) && AllLegal(fs, pc) && Apart(cc, pc) && |base| >= ESP_END
    requires Fits(fs, cc, KERNEL_SLOT) && Fits(fs, pc, KERNEL_SLOT)
    requires was <= log && from <= |was| && AllBootable(was, from, fs, cc, pc, original, staged)
    requires Within(log, |was|, base, fs, if overCurrent then cc else pc)
    requires Content(base, fs, if overCurrent then pc else cc, KERNEL_SLOT) == original
    ensures AllBootable(log, from, fs, cc, pc, original, staged)
  {
    hide Content;
    forall k | from <= k < |log|
      ensures |log[k]| >= ESP_END && Bootable(log[k], fs, cc, pc, original, staged)
    {
      if k < |was| {
        assert log[k] == was[k];
      } else if overCurrent {
        OtherSlotKept(log, |was|, base, fs, cc, pc, k);
      } else {
        OtherSlotKept(log, |was|, base, fs, pc, cc, k);
      }
    }
  }

  lemma SlotsKept(a: Image, b: Image, fs: Fat, cur: File, prev: File, cc: seq<nat>, pc: seq<nat>, written: seq<nat>)
    requires Sound(fs) && Covers(fs) && |b| >= ESP_END && Slots(b, fs, cur, prev, cc, pc)
    requires AllLegal(fs, written) && SameBut(a, b, fs, written)
    ensures Slots(a, fs, cur, prev, cc, pc)
  {
    ChainKept(a, b, fs, written, cc);
    ChainKept(a, b, fs, written, pc);
  }

  /**
    The swap, from reading the running kernel to verifying the new one. After every block write, the
    last one before a power loss included, one of the slots holds what the primary held at the start or the
    complete staged kernel; and success means both are in place. On the way, both hold what the primary held.
   */
  method Swap(dev: Device, fs: Fat, cur: File, prev: File, staged: Image,
              ghost cc: seq<nat>, ghost pc: seq<nat>)
    returns (ok: bool)
    requires Mounted(dev, fs) && Slots(dev.disk, fs, cur, prev, cc, pc) && |staged| == KERNEL_SLOT
    modifies dev
    ensures Mounted(dev, fs) && Slots(dev.disk, fs, cur, prev, cc, pc) && old(dev.history) <= dev.history
    ensures var original := Content(old(dev.disk), fs, cc, KERNEL_SLOT);
            && AllBootable(dev.history, |old(dev.history)|, fs, cc, pc, original, staged)
            && (ok ==> Content(dev.disk, fs, cc, KERNEL_SLOT) == staged)
            && (ok && original != staged ==> Content(dev.disk, fs, pc, KERNEL_SLOT) == original)
            && (ok && original != staged ==> Doubled(dev.history, |old(dev.history)| - 1, fs, cc, pc, original))
            && (original == staged ==> dev.disk == old(dev.disk) && dev.history == old(dev.history))
    ensures dev.failures == old(dev.failures) + if ok then 0 else 1
  {
    hide Content, SameBut, Within, AllLegal, Apart, Bootable, Links, Distinct, Fits;
    var current, verify;
    ghost var original := Content(dev.disk, fs, cc, KERNEL_SLOT);
    ok, current := FileIo(dev, fs, cur, seq(KERNEL_SLOT, _ => 0), false, cc);
    if !ok || current == staged { return; }
    ok := SaveOld(dev, fs, cur, prev, current, cc, pc, staged);
    if !ok { return; }
    ghost var base, was := dev.disk, dev.history;
    assert was[|was| - 1] == base;
    ok, verify := FileIo(dev, fs, cur, staged, true, cc);
    assert dev.history[|was| - 1] == base;
    SlotsKept(dev.disk, base, fs, cur, prev, cc, pc, cc);
    WritingIsSafe(dev.history, was, |old(dev.history)|, base, fs, cc, pc, true, original, staged);
    ContentKept(dev.disk, base, fs, cc, pc);
    if !ok { return; }
    ok, verify := FileIo(dev, fs, cur, seq(KERNEL_SLOT, _ => 0), false, cc);
    ok := ok && verify == staged;
  }

  /** The running kernel to the old slot, read back and compared. */
  method SaveOld(dev: Device, fs: Fat, cur: File, prev: File, current: Image,
                 ghost cc: seq<nat>, ghost pc: seq<nat>, ghost staged: Image)
    returns (ok: bool)
    requires Mounted(dev, fs) && Slots(dev.disk, fs, cur, prev, cc, pc)
    requires Content(dev.disk, fs, cc, KERNEL_SLOT) == current
    modifies dev
    ensures Mounted(dev, fs) && Slots(dev.disk, fs, cur, prev, cc, pc) && old(dev.history) <= dev.history
    ensures AllBootable(dev.history, |old(dev.history)|, fs, cc, pc, current, staged)
    ensures ok ==> Content(dev.disk, fs, pc, KERNEL_SLOT) == current
    ensures Content(dev.disk, fs, cc, KERNEL_SLOT) == current
    ensures dev.failures == old(dev.failures) + if ok then 0 else 1
  {
    hide Content, SameBut, Within, AllLegal, Apart, Bootable, Links, Distinct, Fits;
    var verify;
    ok, verify := FileIo(dev, fs, prev, current, true, pc);
    SlotsKept(dev.disk, old(dev.disk), fs, cur, prev, cc, pc, pc);
    WritingIsSafe(dev.history, old(dev.history), |old(dev.history)|, old(dev.disk), fs, cc, pc, false, current, staged);
    ContentKept(dev.disk, old(dev.disk), fs, pc, cc);
    if !ok { return; }
    ok, verify := FileIo(dev, fs, prev, seq(KERNEL_SLOT, _ => 0), false, pc);
    ok := ok && verify == current;
  }

  lemma ContentKept(a: Image, b: Image, fs: Fat, written: seq<nat>, other: seq<nat>)
    requires Sound(fs) && AllLegal(fs, written) && AllLegal(fs, other) && |b| >= ESP_END
    requires SameBut(a, b, fs, written) && Fits(fs, other, KERNEL_SLOT)
    requires Apart(other, written) || Apart(written, other)
    ensures |a| == |b| && Content(a, fs, other, KERNEL_SLOT) == Content(b, fs, other, KERNEL_SLOT)
  {
    FlatKept(a, b, fs, written, other);
  }

  /** One of the slots holds a whole kernel. */
  ghost predicate Boots(d: Image, fs: Fat, cc: seq<nat>, pc: seq<nat>, whole: set<Image>)
    requires Sound(fs) && AllLegal(fs, cc) && AllLegal(fs, pc)
    requires Fits(fs, cc, KERNEL_SLOT) && Fits(fs, pc, KERNEL_SLOT)
  {
    |d| >= ESP_END && (Content(d, fs, cc, KERNEL_SLOT) in whole || Content(d, fs, pc, KERNEL_SLOT) in whole)
  }

  ghost predicate AllBoot(log: seq<Image>, from: nat, fs: Fat, cc: seq<nat>, pc: seq<nat>, whole: set<Image>)
    requires Sound(fs) && AllLegal(fs, cc) && AllLegal(fs, pc)
    requires Fits(fs, cc, KERNEL_SLOT) && Fits(fs, pc, KERNEL_SLOT)
  {
    forall k | from <= k < |log| :: Boots(log[k], fs, cc, pc, whole)
  }

  /** What one run does for whole kernels: all on the way if the primary was whole, and not all if it was torn. */
  lemma OneRun(log: seq<Image>, was: seq<Image>, from: nat, fs: Fat, cc: seq<nat>, pc: seq<nat>, original: Image,
               staged: Image, whole: set<Image>)
    requires Sound(fs) && AllLegal(fs, cc) && AllLegal(fs, pc)
    requires Fits(fs, cc, KERNEL_SLOT) && Fits(fs, pc, KERNEL_SLOT) && was <= log && from < |was|
    requires AllBootable(log, |was|, fs, cc, pc, original, staged)
    ensures original in whole && staged in whole && AllBoot(was, from, fs, cc, pc, whole) ==>
      AllBoot(log, from, fs, cc, pc, whole)
    ensures original !in whole && Doubled(log, |was| - 1, fs, cc, pc, original) ==>
      !AllBoot(log, from, fs, cc, pc, whole)
  {
    hide Content;
    if original in whole && staged in whole && AllBoot(was, from, fs, cc, pc, whole) {
      forall k | from <= k < |log| ensures Boots(log[k], fs, cc, pc, whole) {
        if k < |was| { assert log[k] == was[k]; } else { assert Bootable(log[k], fs, cc, pc, original, staged); }
      }
    }
  }

  /**
    Runs one after the other, each perhaps cut short by a power loss, which is a device that fails from there on. If
    every run starts with a whole kernel in the primary slot, one slot holds a whole kernel after every block write;
    a run that starts with a torn one and goes through leaves none on the way.
   */
  method Rerun(dev: Device, fs: Fat, cur: File, prev: File, staged: seq<Image>, ghost cc: seq<nat>, ghost pc: seq<nat>,
               ghost whole: set<Image>)
    returns (oks: seq<bool>, ghost starts: seq<Image>)
    requires Mounted(dev, fs) && Slots(dev.disk, fs, cur, prev, cc, pc)
    requires forall i | 0 <= i < |staged| :: |staged[i]| == KERNEL_SLOT && staged[i] in whole
    requires Boots(dev.disk, fs, cc, pc, whole)
    modifies dev
    ensures Mounted(dev, fs) && Slots(dev.disk, fs, cur, prev, cc, pc) && old(dev.history) <= dev.history
    ensures |oks| == |starts| == |staged|
    ensures (forall i | 0 <= i < |starts| :: starts[i] in whole) ==>
      AllBoot(dev.history, |old(dev.history)| - 1, fs, cc, pc, whole)
    ensures (exists i | 0 <= i < |starts| :: oks[i] && starts[i] !in whole) ==>
      !AllBoot(dev.history, |old(dev.history)| - 1, fs, cc, pc, whole)
  {
    hide Content, Bootable, SameBut, Within, Links, Distinct, AllBootable, Doubled, Boots, AllBoot;
    oks, starts := [], [];
    ghost var from := |dev.history| - 1;
    FirstBoots(dev.history, fs, cc, pc, whole);
    for i := 0 to |staged|
      invariant Mounted(dev, fs) && Slots(dev.disk, fs, cur, prev, cc, pc) && old(dev.history) <= dev.history
      invariant |oks| == |starts| == i
      invariant (forall j | 0 <= j < i :: starts[j] in whole) ==> AllBoot(dev.history, from, fs, cc, pc, whole)
      invariant (exists j | 0 <= j < i :: oks[j] && starts[j] !in whole) ==>
        !AllBoot(dev.history, from, fs, cc, pc, whole)
    {
      ghost var was, original := dev.history, Content(dev.disk, fs, cc, KERNEL_SLOT);
      var ok := Swap(dev, fs, cur, prev, staged[i], cc, pc);
      OneRun(dev.history, was, from, fs, cc, pc, original, staged[i], whole);
      StaysTorn(was, dev.history, from, fs, cc, pc, whole);
      ghost var before := starts;
      oks, starts := oks + [ok], starts + [original];
      assert starts[i] == original && forall j | 0 <= j < i :: starts[j] == before[j];
    }
  }

  lemma FirstBoots(log: seq<Image>, fs: Fat, cc: seq<nat>, pc: seq<nat>, whole: set<Image>)
    requires Sound(fs) && AllLegal(fs, cc) && AllLegal(fs, pc) && log != []
    requires Fits(fs, cc, KERNEL_SLOT) && Fits(fs, pc, KERNEL_SLOT) && Boots(log[|log| - 1], fs, cc, pc, whole)
    ensures AllBoot(log, |log| - 1, fs, cc, pc, whole)
  {
  }

  lemma StaysTorn(was: seq<Image>, log: seq<Image>, from: nat, fs: Fat, cc: seq<nat>, pc: seq<nat>, whole: set<Image>)
    requires Sound(fs) && AllLegal(fs, cc) && AllLegal(fs, pc) && was <= log
    requires Fits(fs, cc, KERNEL_SLOT) && Fits(fs, pc, KERNEL_SLOT)
    ensures AllBoot(log, from, fs, cc, pc, whole) ==> AllBoot(was, from, fs, cc, pc, whole)
  {
    hide Boots;
    if AllBoot(log, from, fs, cc, pc, whole) {
      forall k | from <= k < |was| ensures Boots(was[k], fs, cc, pc, whole) { assert was[k] == log[k]; }
    }
  }

  /** The whole update: nothing is written unless both slots are accepted, and then the swap's promises hold. */
  method Update(dev: Device, fs: Fat, cur: File, prev: File, staged: Image)
    returns (ok: bool, ghost found: bool, ghost cc: seq<nat>, ghost pc: seq<nat>)
    requires Mounted(dev, fs) && |staged| == KERNEL_SLOT
    modifies dev
    ensures Mounted(dev, fs) && (found ==> Slots(old(dev.disk), fs, cur, prev, cc, pc))
    ensures !found ==> !ok && dev.disk == old(dev.disk) && dev.history == old(dev.history)
    ensures !found && dev.failures == old(dev.failures) ==> forall a, b :: !Slots(dev.disk, fs, cur, prev, a, b)
    ensures found && !ok ==> dev.failures > old(dev.failures)
    ensures found ==>
      var original := Content(old(dev.disk), fs, cc, KERNEL_SLOT);
      && Slots(dev.disk, fs, cur, prev, cc, pc)
      && AllBootable(dev.history, |old(dev.history)|, fs, cc, pc, original, staged)
      && (ok ==> Content(dev.disk, fs, cc, KERNEL_SLOT) == staged)
      && (ok && original != staged ==> Content(dev.disk, fs, pc, KERNEL_SLOT) == original)
      && (original == staged ==> dev.disk == old(dev.disk) && dev.history == old(dev.history))
  {
    hide Content, Bootable, AllBootable, SameBut, Within, Links, Distinct;
    ok, cc, pc := FindSlots(dev, fs, cur, prev);
    found := ok;
    if ok {
      ok := Swap(dev, fs, cur, prev, staged, cc, pc);
    }
  }
}
