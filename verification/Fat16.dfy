/**
  The FAT16 walker of lorica-update (user/bin/lorica-update/main.c): the volume's geometry, following
  and marking cluster chains, and reading or writing a file through its chain.
 */
module Fat16 {
  import opened Common
  import opened BlockDevice

  const ESP_OFFSET: nat := 1_048_576
  const ESP_SECTORS: nat := 16_384
  const ESP_END: nat := 9_437_184
  /** First of the end-of-chain marks. */
  const END_OF_CHAIN: nat := 0xfff8

  datatype Fat = Fat(perCluster: nat, fatSector: nat, rootSector: nat, dataSector: nat, clusters: nat)

  /** The first cluster and the size found in a directory entry. */
  datatype File = File(first: nat, size: nat)

  function Le16(b: Image, at: nat): nat
    requires at + 2 <= |b|
  {
    (b[at] as int) + 256 * (b[at + 1] as int)
  }

  function Le32(b: Image, at: nat): nat
    requires at + 4 <= |b|
  {
    Le16(b, at) + 65536 * Le16(b, at + 2)
  }

  function FatArea(fats: nat, sectors: nat): nat {
    fats * sectors
  }

  /** The layout that the fields of the boot sector describe. */
  function Layout(perCluster: nat, reserved: nat, fatArea: nat, rootEntries: nat): Option<Fat>
    requires perCluster > 0
  {
    var root := reserved + fatArea;
    var data := root + (rootEntries * 32 + 511) / 512;
    if data >= ESP_SECTORS then
      None
    else
      var clusters := (ESP_SECTORS - data) / perCluster;
      if 4085 <= clusters < 65525 then Some(Fat(perCluster, reserved, root, data, clusters)) else None
  }

  /** fat_open: the geometry in the boot sector, if it is one that the installer makes. */
  function FatOpen(b: Image): Option<Fat>
    requires |b| == 512
  {
    var total := if Le16(b, 19) != 0 then Le16(b, 19) else Le32(b, 32);
    if b[510] != 0x55 || b[511] != 0xaa || Le16(b, 11) != 512 || b[13] == 0
       || b[16] == 0 || Le16(b, 22) == 0 || total != ESP_SECTORS then
      None
    else
      Layout(b[13], Le16(b, 14), FatArea(b[16], Le16(b, 22)), Le16(b, 17))
  }

  function ClusterBytes(fs: Fat): nat {
    fs.perCluster * 512
  }

  /** The bytes of `n` whole clusters. */
  function Bytes(fs: Fat, n: nat): nat {
    if n == 0 then 0 else ClusterBytes(fs) + Bytes(fs, n - 1)
  }

  lemma {:induction false} BytesProduct(fs: Fat, n: nat)
    ensures Bytes(fs, n) == n * ClusterBytes(fs)
  {
    if n > 0 {
      BytesProduct(fs, n - 1);
      assert n * ClusterBytes(fs) == (n - 1) * ClusterBytes(fs) + ClusterBytes(fs);
    }
  }

  lemma {:induction false} BytesGrow(fs: Fat, m: nat, n: nat)
    requires m < n
    ensures Bytes(fs, m) + ClusterBytes(fs) <= Bytes(fs, n)
    decreases n
  {
    if m < n - 1 { BytesGrow(fs, m, n - 1); }
  }

  /** Where the data of a cluster starts; clusters are numbered from 2. */
  function ClusterOff(fs: Fat, c: nat): nat
    requires c >= 2
  {
    ESP_OFFSET + fs.dataSector * 512 + Bytes(fs, c - 2)
  }

  function EntryOff(fs: Fat, c: nat): nat {
    ESP_OFFSET + fs.fatSector * 512 + 2 * c
  }

  /** cluster_off as the source computes it. */
  lemma ClusterOffFormula(fs: Fat, c: nat)
    requires c >= 2
    ensures ClusterOff(fs, c) == ESP_OFFSET + (fs.dataSector + (c - 2) * fs.perCluster) * 512
  {
    BytesProduct(fs, c - 2);
    assert (c - 2) * (fs.perCluster * 512) == ((c - 2) * fs.perCluster) * 512;
  }

  /** The entries of the FAT follow one another from its first sector on, two bytes each, and so do the clusters. */
  lemma InARow(fs: Fat, c: nat)
    ensures EntryOff(fs, 0) == ESP_OFFSET + fs.fatSector * 512 && EntryOff(fs, c + 1) == EntryOff(fs, c) + 2
    ensures ClusterOff(fs, 2) == ESP_OFFSET + fs.dataSector * 512
    ensures c >= 2 ==> ClusterOff(fs, c + 1) == ClusterOff(fs, c) + fs.perCluster * 512
  {
  }

  predicate Legal(fs: Fat, c: nat) {
    2 <= c < fs.clusters + 2
  }

  /** The data clusters lie behind the start of the FAT and inside the partition. */
  ghost predicate Sound(fs: Fat) {
    && fs.perCluster > 0 && fs.fatSector <= fs.dataSector
    && fs.dataSector * 512 + Bytes(fs, fs.clusters) <= ESP_SECTORS * 512
  }

  /** A field of two bytes is read low byte first. */
  lemma Le16Reads(b: Image, at: nat, v: nat)
    requires at + 2 <= |b| && v < 0x1_0000
    ensures Le16(b, at) == v <==> b[at] as int == v % 256 && b[at + 1] as int == v / 256
  {
  }

  /** And one of four. */
  lemma Le32Reads(b: Image, at: nat, v: nat)
    requires at + 4 <= |b| && v < 0x1_0000_0000
    ensures Le32(b, at) == v <==>
      && b[at] as int == v % 256 && b[at + 1] as int == v / 256 % 256
      && b[at + 2] as int == v / 65536 % 256 && b[at + 3] as int == v / 65536 / 256
  {
    Le16Reads(b, at, v % 65536);
    Le16Reads(b, at + 2, v / 65536);
    hide Le16;
    LowHalf(v);
  }

  lemma LowHalf(v: nat)
    ensures v % 65536 % 256 == v % 256 && v % 65536 / 256 == v / 256 % 256
  {
    var q, r := v / 65536, v % 65536;
    assert v / 256 == 256 * q + r / 256;
    assert r / 256 < 256;
  }

  /** The sector behind the first `n` of the FATs. */
  function FatEnd(b: Image, n: nat): nat
    requires |b| == 512
  {
    if n == 0 then Le16(b, 14) else FatEnd(b, n - 1) + Le16(b, 22)
  }

  lemma {:induction false} FatEndArea(b: Image, n: nat)
    requires |b| == 512
    ensures FatEnd(b, n) == Le16(b, 14) + FatArea(n, Le16(b, 22))
  {
    hide Le16;
    if n > 0 {
      FatEndArea(b, n - 1);
      assert n * Le16(b, 22) == (n - 1) * Le16(b, 22) + Le16(b, 22);
    }
  }

  /** The fields of the boot sector are those of a volume of the installer's size. */
  predicate Proper(b: Image)
    requires |b| == 512
  {
    && b[510] == 0x55 && b[511] == 0xaa && Le16(b, 11) == 512 && b[13] > 0 && b[16] > 0 && Le16(b, 22) > 0
    && (Le16(b, 19) == ESP_SECTORS || (Le16(b, 19) == 0 && Le32(b, 32) == ESP_SECTORS))
  }

  /** The first byte behind the root directory, which follows the last FAT. */
  function RootEnd(b: Image): nat
    requires |b| == 512
  {
    FatEnd(b, b[16]) * 512 + 32 * Le16(b, 17)
  }

  /**
    fat_open accepts a boot sector if and only if its fields are proper and 4085 clusters find room behind the root
    directory. It then takes the FAT to start behind the reserved sectors, the root directory behind the last FAT and
    the clusters in the first sector behind the root directory, and counts all that fit and no more.
   */
  lemma FatOpenExactly(b: Image)
    requires |b| == 512
    ensures FatOpen(b).Some? <==> Proper(b) && RootEnd(b) + 4085 * (b[13] as int * 512) <= ESP_SECTORS * 512
    ensures FatOpen(b).Some? ==>
      var fs := FatOpen(b).value;
      && fs.perCluster == b[13] as int && fs.fatSector == Le16(b, 14) && fs.rootSector == FatEnd(b, b[16])
      && RootEnd(b) <= fs.dataSector * 512 < RootEnd(b) + 512
      && fs.dataSector * 512 + Bytes(fs, fs.clusters) <= ESP_SECTORS * 512
                                                      < fs.dataSector * 512 + Bytes(fs, fs.clusters + 1)
  {
    hide Le16, Le32, Layout, FatArea, Bytes;
    FatEndArea(b, b[16]);
    if Proper(b) {
      LayoutExactly(b[13], Le16(b, 14), FatArea(b[16], Le16(b, 22)), Le16(b, 17));
    }
  }

  lemma LayoutExactly(perCluster: nat, reserved: nat, fatArea: nat, rootEntries: nat)
    requires 0 < perCluster
    ensures var end := (reserved + fatArea) * 512 + 32 * rootEntries;
      var fs := Layout(perCluster, reserved, fatArea, rootEntries);
      && (fs.Some? <==> end + 4085 * (perCluster * 512) <= ESP_SECTORS * 512)
      && (fs.Some? ==>
            && fs.value.perCluster == perCluster && fs.value.fatSector == reserved
            && fs.value.rootSector == reserved + fatArea
            && end <= fs.value.dataSector * 512 < end + 512
            && fs.value.dataSector * 512 + Bytes(fs.value, fs.value.clusters) <= ESP_SECTORS * 512
            && ESP_SECTORS * 512 < fs.value.dataSector * 512 + Bytes(fs.value, fs.value.clusters + 1))
  {
    var data := reserved + fatArea + (rootEntries * 32 + 511) / 512;
    if data < ESP_SECTORS {
      var clusters := (ESP_SECTORS - data) / perCluster;
      AtLeast(ESP_SECTORS - data, perCluster, 4085);
      AtMostWhole(ESP_SECTORS - data, perCluster);
      AllThatFit(Fat(perCluster, reserved, reserved + fatArea, data, clusters));
    }
  }

  lemma AllThatFit(fs: Fat)
    requires fs.perCluster > 0 && fs.dataSector < ESP_SECTORS
    requires fs.clusters == (ESP_SECTORS - fs.dataSector) / fs.perCluster
    ensures fs.dataSector * 512 + Bytes(fs, fs.clusters) <= ESP_SECTORS * 512
                                                         < fs.dataSector * 512 + Bytes(fs, fs.clusters + 1)
  {
    DivideBack(ESP_SECTORS - fs.dataSector, fs.perCluster);
    BytesProduct(fs, fs.clusters);
    Rescaled(fs.clusters, fs.perCluster);
  }

  lemma Rescaled(n: nat, m: nat)
    ensures n * (m * 512) == (n * m) * 512
  {
  }

  lemma AtLeast(a: nat, b: nat, n: nat)
    requires b > 0
    ensures a / b >= n <==> n * b <= a
  {
    DivideBack(a, b);
    var q := a / b;
    if q < n {
      Scaled(q + 1, n, b);
      assert (q + 1) * b == q * b + b;
    } else {
      Scaled(n, q, b);
    }
  }

  lemma Scaled(m: nat, n: nat, b: nat)
    requires m <= n
    ensures m * b <= n * b
  {
  }

  lemma AtMostWhole(a: nat, b: nat)
    requires b > 0
    ensures a / b <= a
  {
    DivideBack(a, b);
    Scaled(1, b, a / b);
  }

  /** Every geometry that fat_open accepts keeps all clusters inside the partition and behind the root directory. */
  lemma FatOpenSound(b: Image)
    requires |b| == 512 && FatOpen(b).Some?
    ensures Sound(FatOpen(b).value)
    ensures FatOpen(b).value.rootSector <= FatOpen(b).value.dataSector
  {
    hide Le16, Le32, FatOpen, Bytes, FatEnd;
    FatOpenExactly(b);
    FatEndArea(b, b[16]);
  }

  /** A boot sector with one FAT of one sector, for 16381 clusters of one sector. */
  function ShortBoot(): Image {
    seq(512, (i: nat) => match i
                  case 12 => 2     // bytes per sector
                  case 13 => 1     // sectors per cluster
                  case 14 => 1     // reserved sectors
                  case 16 => 1     // FATs
                  case 17 => 16    // root entries
                  case 20 => 64    // sectors in all
                  case 22 => 1     // sectors per FAT
                  case 510 => 0x55
                  case 511 => 0xaa
                  case _ => 0)
  }

  /**
    fat_open does not compare the FAT with the cluster count: it accepts this boot sector, and then
    the entry of cluster 1024 lies in the data area.
   */
  lemma ShortFatAccepted()
    ensures var fs := FatOpen(ShortBoot());
            fs.Some? && !Covers(fs.value) && Legal(fs.value, 1024)
            && EntryOff(fs.value, 1024) >= ESP_OFFSET + fs.value.dataSector * 512
  {
    var b := ShortBoot();
    assert Le16(b, 11) == 512 && Le16(b, 14) == 1 && Le16(b, 17) == 16;
    assert Le16(b, 19) == ESP_SECTORS && Le16(b, 22) == 1;
    assert b[13] == 1 && b[16] == 1 && FatArea(1, 1) == 1;
    hide Le16, Le32, ShortBoot;
    assert FatOpen(b) == Layout(1, 1, 1, 16);
  }

  /** Exactly a covering FAT keeps the entries of all legal clusters out of the data area. */
  lemma CoversExactly(fs: Fat)
    requires fs.clusters > 0
    ensures Covers(fs) <==>
            forall c: nat | Legal(fs, c) :: EntryOff(fs, c) + 2 <= ESP_OFFSET + fs.dataSector * 512
  {
    var last := fs.clusters + 1;
    assert Legal(fs, last);
  }

  lemma DivideBack(a: nat, b: nat)
    requires b > 0
    ensures (a / b) * b <= a < (a / b) * b + b
  {
  }

  /** A legal cluster lies inside the partition's data area. */
  lemma ClusterInside(fs: Fat, c: nat)
    requires Sound(fs) && Legal(fs, c)
    ensures ESP_OFFSET + fs.dataSector * 512 <= ClusterOff(fs, c)
    ensures ClusterOff(fs, c) + ClusterBytes(fs) <= ESP_END
  {
    BytesGrow(fs, c - 2, fs.clusters);
  }

  // ---------------------------------------------------------------------------------------------
  // Chains
  // ---------------------------------------------------------------------------------------------

  /** The FAT ends before the data area, so that no file data can change it. */
  ghost predicate Covers(fs: Fat) {
    fs.fatSector * 512 + 2 * (fs.clusters + 2) <= fs.dataSector * 512
  }

  function Entry(d: Image, fs: Fat, c: nat): nat
    requires EntryOff(fs, c) + 2 <= |d|
  {
    Le16(d, EntryOff(fs, c))
  }

  ghost predicate AllLegal(fs: Fat, chain: seq<nat>) {
    forall k | 0 <= k < |chain| :: Legal(fs, chain[k])
  }

  ghost predicate Distinct(chain: seq<nat>) {
    forall j, k | 0 <= j < k < |chain| :: chain[j] != chain[k]
  }

  ghost predicate Apart(a: seq<nat>, b: seq<nat>) {
    forall j, k | 0 <= j < |a| && 0 <= k < |b| :: a[j] != b[k]
  }

  ghost predicate Links(d: Image, fs: Fat, chain: seq<nat>, k: nat)
    requires k + 1 < |chain|
  {
    EntryOff(fs, chain[k]) + 2 <= |d| && chain[k + 1] == Entry(d, fs, chain[k]) < END_OF_CHAIN
  }

  /** The clusters of a file in order, as its FAT entries link them. */
  ghost predicate IsChain(d: Image, fs: Fat, chain: seq<nat>) {
    AllLegal(fs, chain) && forall k: nat | k + 1 < |chain| :: Links(d, fs, chain, k)
  }

  /** The contents of whole clusters, in chain order. */
  function Flat(d: Image, fs: Fat, chain: seq<nat>): (s: Image)
    requires Sound(fs) && AllLegal(fs, chain) && |d| >= ESP_END
    ensures |s| == Bytes(fs, |chain|)
  {
    if chain == [] then [] else
    var last := chain[|chain| - 1];
    ClusterInside(fs, last);
    Flat(d, fs, chain[..|chain| - 1]) + d[ClusterOff(fs, last)..ClusterOff(fs, last) + ClusterBytes(fs)]
  }

  /** The chain is exactly as long as `size` bytes need. */
  ghost predicate Fits(fs: Fat, chain: seq<nat>, size: nat) {
    chain != [] && Bytes(fs, |chain| - 1) < size <= Bytes(fs, |chain|)
  }

  /** The first `size` bytes of a file. */
  function Content(d: Image, fs: Fat, chain: seq<nat>, size: nat): (s: Image)
    requires Sound(fs) && AllLegal(fs, chain) && |d| >= ESP_END && Fits(fs, chain, size)
    ensures |s| == size
  {
    Flat(d, fs, chain)[..size]
  }

  /** The byte at `p` belongs to a cluster of the chain. */
  ghost predicate Owns(fs: Fat, chain: seq<nat>, p: int)
    requires AllLegal(fs, chain)
  {
    exists j :: 0 <= j < |chain| && InCluster(fs, chain[j], p)
  }

  predicate InCluster(fs: Fat, c: nat, p: int) {
    c >= 2 && ClusterOff(fs, c) <= p < ClusterOff(fs, c) + ClusterBytes(fs)
  }

  /** The two contents agree on every byte that the chain does not own. */
  ghost predicate SameBut(a: Image, b: Image, fs: Fat, chain: seq<nat>)
    requires AllLegal(fs, chain)
  {
    |a| == |b| && forall p | 0 <= p < |a| :: a[p] == b[p] || Owns(fs, chain, p)
  }

  /** Writing through a chain leaves the FAT alone. */
  lemma FatKept(a: Image, b: Image, fs: Fat, chain: seq<nat>, c: nat)
    requires Sound(fs) && Covers(fs) && AllLegal(fs, chain) && SameBut(a, b, fs, chain)
    requires |b| >= ESP_END && c < fs.clusters + 2
    ensures EntryOff(fs, c) + 2 <= |b| && Entry(a, fs, c) == Entry(b, fs, c)
  {
    forall p | EntryOff(fs, c) <= p < EntryOff(fs, c) + 2 ensures !Owns(fs, chain, p) {
      forall j | 0 <= j < |chain| ensures !InCluster(fs, chain[j], p) {
        ClusterInside(fs, chain[j]);
      }
    }
  }

  /** No byte lies in two clusters. */
  lemma ClustersApart(fs: Fat, c: nat, d: nat, p: int)
    requires c != d && InCluster(fs, c, p)
    ensures !InCluster(fs, d, p)
  {
    if d >= 2 {
      if c < d { BytesGrow(fs, c - 2, d - 2); } else { BytesGrow(fs, d - 2, c - 2); }
    }
  }

  /** Writing through one chain leaves whole clusters outside it alone. */
  lemma {:induction false} FlatKept(x: Image, y: Image, fs: Fat, written: seq<nat>, other: seq<nat>)
    requires Sound(fs) && AllLegal(fs, written) && AllLegal(fs, other) && |y| >= ESP_END
    requires Apart(other, written) && SameBut(x, y, fs, written)
    ensures Flat(x, fs, other) == Flat(y, fs, other)
    decreases |other|
  {
    if other != [] {
      FlatKept(x, y, fs, written, other[..|other| - 1]);
      var c := other[|other| - 1];
      ClusterInside(fs, c);
      forall p | ClusterOff(fs, c) <= p < ClusterOff(fs, c) + ClusterBytes(fs) ensures x[p] == y[p] {
        forall j | 0 <= j < |written| ensures !InCluster(fs, written[j], p) {
          ClustersApart(fs, c, written[j], p);
        }
      }
    }
  }
}
