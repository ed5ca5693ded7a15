/** What every archive walk keeps to, and that it reads back what was archived. */
module TarLaws {
  import opened Common
  import opened Tar

  // ---------------------------------------------------------------------------------------------
  // Containment
  // ---------------------------------------------------------------------------------------------

  /** What is created lies below the destination and within the footprint; file data lies in the buffer. */
  ghost predicate Contained(op: Op, len: nat, want: Want) {
    && Safe(op.path) && Safe(Trimmed(op.path)) && Permitted(op.path, want.prefixes) && op.path != MANIFEST
    && (op.WriteFile? ==> op.at + op.size <= len)
  }

  /** A later file's data starts after the whole of an earlier one's, with its header between. */
  ghost predicate InOrder(ops: seq<Op>, from: nat) {
    && (forall k | 0 <= k < |ops| && ops[k].WriteFile? :: from + BLOCK <= ops[k].at)
    && (forall j, k | 0 <= j < k < |ops| && ops[j].WriteFile? && ops[k].WriteFile? ::
          ops[j].at + ops[j].size + BLOCK <= ops[k].at)
  }

  lemma EntryContained(len: nat, off: nat, h: Header, want: Want)
    requires off + BLOCK <= len
    ensures var s := EntryStep(len, off, h, want);
      s.Make? ==>
        && Contained(s.op, len, want)
        && (s.op.WriteFile? ==> s.op.at == off + BLOCK && s.op.at + s.op.size <= s.next)
  {
    if h.Entry? && Safe(h.path) {
      TrimmedSafe(h.path);
    }
  }

  /** On any buffer, everything made is contained and the slices are disjoint and in order. */
  lemma {:induction false} WalkContained(buf: seq<Byte>, off: nat, zeros: nat, want: Want)
    ensures var ops := Walk(buf, off, zeros, want).ops;
      InOrder(ops, off) && forall k | 0 <= k < |ops| :: Contained(ops[k], |buf|, want)
    decreases |buf| - off
  {
    hide EntryStep, ReadHeader, AllZero, Contained;
    if off + BLOCK <= |buf| {
      var h := buf[off..off + BLOCK];
      if AllZero(h) {
        WalkContained(buf, off + BLOCK, zeros + 1, want);
      } else {
        var s := EntryStep(|buf|, off, ReadHeader(h), want);
        EntryContained(|buf|, off, ReadHeader(h), want);
        if s.Skip? || s.Make? {
          WalkContained(buf, s.next, 0, want);
        }
      }
    }
  }

  // ---------------------------------------------------------------------------------------------
  // Fields and paths
  // ---------------------------------------------------------------------------------------------

  /** Spaces up to `a`, octal digits from there up to `i`. */
  predicate Numeric(f: seq<Byte>, a: nat, i: nat) {
    a <= i <= |f| && (forall k | 0 <= k < a :: f[k] == SPACE) && (forall k | a <= k < i :: OctalDigit(f[k]))
  }

  /** Behind the spaces and digits at its front there is something that neither is nor ends a number. */
  ghost predicate Unreadable(f: seq<Byte>) {
    exists a: nat, i: nat :: Numeric(f, a, i) && i < |f| && !OctalDigit(f[i]) && f[i] != SPACE && f[i] != 0
  }

  lemma {:induction false} DigitsUnreadable(f: seq<Byte>, v: nat)
    ensures OctDigits(f, v).None? <==>
      exists i: nat :: Numeric(f, 0, i) && i < |f| && !OctalDigit(f[i]) && f[i] != SPACE && f[i] != 0
    decreases |f|
  {
    if f != [] && f[0] != SPACE && f[0] != 0 {
      if !OctalDigit(f[0]) {
        assert Numeric(f, 0, 0);
      } else {
        DigitsUnreadable(f[1..], v * 8 + (f[0] - 0x30));
        forall i: nat | Numeric(f[1..], 0, i) ensures Numeric(f, 0, i + 1) {
        }
        forall i: nat | Numeric(f, 0, i) && i > 0 ensures Numeric(f[1..], 0, i - 1) {
        }
        if i: nat :| Numeric(f, 0, i) && i < |f| && !OctalDigit(f[i]) && f[i] != SPACE && f[i] != 0 {
          assert Numeric(f[1..], 0, i - 1) && f[1..][i - 1] == f[i];
        }
      }
    } else if f != [] {
      forall i: nat | Numeric(f, 0, i) ensures i == 0 {
      }
    }
  }

  lemma {:induction false} SpacesSkipped(f: seq<Byte>) returns (a: nat)
    ensures a <= |f| && SkipSpaces(f) == f[a..] && (forall k | 0 <= k < a :: f[k] == SPACE)
    ensures a < |f| ==> f[a] != SPACE
  {
    a := 0;
    if f != [] && f[0] == SPACE {
      var b := SpacesSkipped(f[1..]);
      a := b + 1;
      assert forall k | 0 < k < a :: f[k] == f[1..][k - 1];
    }
  }

  lemma SpacesAgree(f: seq<Byte>, a: nat, b: nat, i: nat)
    requires a <= |f| && (forall k | 0 <= k < a :: f[k] == SPACE) && (a < |f| ==> f[a] != SPACE)
    requires Numeric(f, b, i) && i < |f| && f[i] != SPACE
    ensures a == b
  {
    var x, y := ByteAt(f, a), ByteAt(f, b);
  }

  /** A number field is refused if and only if it is unreadable. */
  lemma FieldUnreadable(f: seq<Byte>)
    ensures OctDigits(SkipSpaces(f), 0).None? <==> Unreadable(f)
  {
    var a := SpacesSkipped(f);
    var g := f[a..];
    DigitsUnreadable(g, 0);
    if i: nat :| Numeric(g, 0, i) && i < |g| && !OctalDigit(g[i]) && g[i] != SPACE && g[i] != 0 {
      assert forall k | a <= k < a + i :: f[k] == g[k - a];
      assert Numeric(f, a, a + i) && f[a + i] == g[i];
    }
    if b: nat, i: nat :| Numeric(f, b, i) && i < |f| && !OctalDigit(f[i]) && f[i] != SPACE && f[i] != 0 {
      SpacesAgree(f, a, b, i);
      assert Numeric(g, 0, i - a) && g[i - a] == f[i];
    }
  }

  /** Any of the three bits that let the owner, the group or others execute a file makes it executable. */
  lemma ExecutableExactly(high: nat, owner: nat, group: nat, others: nat)
    requires owner < 8 && group < 8 && others < 8
    ensures Executable(high * 512 + owner * 64 + group * 8 + others) <==>
      owner % 2 == 1 || group % 2 == 1 || others % 2 == 1
  {
    var mode := high * 512 + owner * 64 + group * 8 + others;
    Digit(high * 64 + owner * 8 + group, others);
    Digit(high * 8 + owner, group);
    Digit(high, owner);
    assert mode / 64 == mode / 8 / 8;
  }

  lemma Digit(rest: nat, d: nat)
    requires d < 8
    ensures (rest * 8 + d) / 8 == rest && (rest * 8 + d) % 2 == d % 2
  {
  }

  /** The prefix restriction: the manifest, a path that continues a prefix, or a directory that a prefix continues. */
  lemma PermittedExactly(path: Path, prefixes: seq<Path>)
    ensures Permitted(path, None)
    ensures Permitted(path, Some(prefixes)) <==>
      || path == seq(8, i requires 0 <= i < 8 => "manifest"[i] as int)
      || (exists k, rest :: 0 <= k < |prefixes| && path == prefixes[k] + rest)
      || (&& path != [] && path[|path| - 1] == SLASH
          && exists k, rest :: 0 <= k < |prefixes| && prefixes[k] == path + rest)
  {
    assert MANIFEST == seq(8, i requires 0 <= i < 8 => "manifest"[i] as int);
    if k :| 0 <= k < |prefixes| && Covered(path, prefixes[k]) {
      if StartsWith(path, prefixes[k]) {
        assert path == prefixes[k] + path[|prefixes[k]|..];
      } else {
        assert prefixes[k] == path + prefixes[k][|path|..];
      }
    }
    if k, rest :| 0 <= k < |prefixes| && path == prefixes[k] + rest {
      assert Covered(path, prefixes[k]);
    }
    if k, rest :| path != [] && path[|path| - 1] == SLASH && 0 <= k < |prefixes| && prefixes[k] == path + rest {
      assert Covered(path, prefixes[k]);
    }
  }

  /** The prefix and the name are joined by a slash, if there is a prefix, and one "./" in front is dropped. */
  lemma PathsJoined(prefix: Path, name: Path)
    ensures JoinPath([], name) == name
    ensures prefix != [] ==> JoinPath(prefix, name) == prefix + [SLASH] + name
    ensures StripDot([DOT, SLASH] + name) == name
    ensures (forall rest :: name != [DOT, SLASH] + rest) ==> StripDot(name) == name
  {
    if StripDot(name) != name {
      assert name == [DOT, SLASH] + name[2..];
    }
  }

  /** The owner list names the files written, in order, and nothing else. */
  lemma {:induction false} OwnedInOrder(a: seq<Op>, b: seq<Op>, op: Op)
    ensures Owned([]) == [] && Owned([op]) == if op.WriteFile? then [op.path] else []
    ensures Owned(a + b) == Owned(a) + Owned(b)
    decreases |b|
  {
    assert [op][..0] == [];
    if b == [] {
      assert a + b == a;
    } else {
      var last := |b| - 1;
      OwnedInOrder(a, b[..last], op);
      assert (a + b)[..|a + b| - 1] == a + b[..last];
    }
  }

  // ---------------------------------------------------------------------------------------------
  // Archives
  // ---------------------------------------------------------------------------------------------

  /** A member as its header describes it. */
  datatype Item = Item(prefix: Path, name: Path, data: seq<Byte>, mode: nat, flag: Byte)

  function PathOf(f: Item): Path {
    StripDot(JoinPath(f.prefix, f.name))
  }

  predicate NoZero(s: seq<Byte>) {
    forall i | 0 <= i < |s| :: s[i] != 0
  }

  /** It fits the header's fields. */
  predicate Fits(f: Item) {
    && f.name != [] && NoZero(f.name) && |f.name| <= NAME && NoZero(f.prefix) && |f.prefix| <= PREFIX
    && |f.data| < Pow8(11) && f.mode < Pow8(7)
  }

  /** What becomes of a member. */
  datatype Fate = Made | Passed | Refused(error: Error)

  /** Only files and directories are made, and of those neither the manifest nor what does not belong here. */
  ghost function FateOf(f: Item, want: Want): Fate {
    var path := PathOf(f);
    if f.flag != '0' as int && f.flag != 0 && f.flag != '5' as int then Passed
    else if !Safe(path) then Refused(UnsafePath)
    else if !Permitted(path, want.prefixes) then Refused(Outside)
    else if path == MANIFEST then Passed
    else if want.destination + 1 + |path| + 1 > FULL_MAX then Refused(TooLong)
    else Made
  }

  function Pow8(k: nat): nat {
    if k == 0 then 1 else 8 * Pow8(k - 1)
  }

  /** The last `k` octal digits. */
  function Octal(n: nat, k: nat): (s: seq<Byte>)
    ensures |s| == k && forall i | 0 <= i < k :: OctalDigit(s[i])
  {
    if k == 0 then [] else Octal(n / 8, k - 1) + [0x30 + n % 8]
  }

  lemma {:induction false} OctalRead(n: nat, k: nat, rest: seq<Byte>)
    requires n < Pow8(k)
    ensures OctDigits(Octal(n, k) + rest, 0) == OctDigits(rest, n)
    decreases k
  {
    if k == 0 {
      assert Octal(n, k) + rest == rest;
    } else {
      var d: Byte := 0x30 + n % 8;
      assert Octal(n, k) + rest == Octal(n / 8, k - 1) + ([d] + rest);
      OctalRead(n / 8, k - 1, [d] + rest);
      assert ([d] + rest)[1..] == rest;
    }
  }

  /** A number field of `k` digits and a zero. */
  lemma FieldRead(n: nat, k: nat)
    requires n < Pow8(k)
    ensures OctDigits(SkipSpaces(Octal(n, k) + [0]), 0) == Some(n)
  {
    var f := Octal(n, k) + [0];
    assert f[0] != SPACE by {
      if k > 0 { assert OctalDigit(Octal(n, k)[0]); }
    }
    OctalRead(n, k, [0]);
  }

  lemma {:induction false} TextRead(s: seq<Byte>, f: seq<Byte>)
    requires NoZero(s) && |s| <= |f| && f[..|s|] == s && (|s| < |f| ==> f[|s|] == 0)
    ensures Text(f) == s
    decreases |s|
  {
    if s != [] {
      assert f[0] == f[..|s|][0] == s[0];
      assert f[1..][..|s| - 1] == f[..|s|][1..] == s[1..];
      TextRead(s[1..], f[1..]);
    }
  }

  function ByteAt(s: seq<Byte>, i: int): Byte {
    if 0 <= i < |s| then s[i] else 0
  }

  /** The header block: name, mode, size, type, magic and prefix at their places, zeros elsewhere. */
  function HeadByte(f: Item, i: int): Byte {
    if i < 100 then ByteAt(f.name, i)
    else if i < 108 then ByteAt(Octal(f.mode, 7), i - 100)
    else if i < 124 then 0
    else if i < 136 then ByteAt(Octal(|f.data|, 11), i - 124)
    else if i < 156 then 0
    else if i == 156 then f.flag
    else if i < 257 then 0
    else if i < 262 then "ustar"[i - 257] as int
    else if i < 345 then 0
    else if i < 500 then ByteAt(f.prefix, i - 345)
    else 0
  }

  function Head(f: Item): (h: seq<Byte>)
    ensures |h| == BLOCK && forall i | 0 <= i < BLOCK :: h[i] == HeadByte(f, i)
  {
    seq(BLOCK, i => HeadByte(f, i))
  }

  function Zeros(n: nat): (z: seq<Byte>)
    ensures |z| == n && AllZero(z)
  {
    seq(n, _ => 0)
  }

  /** One member after the other, then two blocks of zeros. */
  function Archive(fs: seq<Item>): seq<Byte> {
    if fs == [] then Zeros(2 * BLOCK)
    else Head(fs[0]) + fs[0].data + Zeros(Padded(|fs[0].data|) - |fs[0].data|) + Archive(fs[1..])
  }

  function OpOf(f: Item, off: nat): Op {
    if f.flag == '5' as int then MakeDir(PathOf(f))
    else WriteFile(PathOf(f), off + BLOCK, |f.data|, Executable(f.mode))
  }

  lemma HeadFields(f: Item)
    requires |f.name| <= NAME && |f.prefix| <= PREFIX
    ensures var h := Head(f);
      && h[100..108] == Octal(f.mode, 7) + [0] && h[124..136] == Octal(|f.data|, 11) + [0]
      && h[257..262] == USTAR && h[156] == f.flag
  {
  }

  lemma HeadTexts(f: Item)
    requires |f.name| <= NAME && |f.prefix| <= PREFIX && NoZero(f.name) && NoZero(f.prefix)
    ensures Text(Head(f)[..NAME]) == f.name && Text(Head(f)[345..500]) == f.prefix
  {
    var h := Head(f);
    assert h[..NAME][..|f.name|] == f.name;
    TextRead(f.name, h[..NAME]);
    assert h[345..500][..|f.prefix|] == f.prefix;
    TextRead(f.prefix, h[345..500]);
  }

  /** The header of every member that fits is read back. */
  lemma HeadReads(f: Item)
    requires Fits(f)
    ensures !AllZero(Head(f))
    ensures ReadHeader(Head(f)) == Entry(PathOf(f), KindOf(f.flag), f.mode, |f.data|)
  {
    hide Octal, OctDigits, SkipSpaces, Text, Pow8;
    var h := Head(f);
    assert h[0] == f.name[0] && h[..NAME][0] == h[0];
    HeadFields(f);
    HeadTexts(f);
    FieldRead(|f.data|, 11);
    FieldRead(f.mode, 7);
  }

  lemma EntryReads(f: Item, len: nat, off: nat, want: Want)
    requires Fits(f) && off + BLOCK + Padded(|f.data|) <= len
    ensures EntryStep(len, off, ReadHeader(Head(f)), want) ==
      match FateOf(f, want)
      case Made => Make(OpOf(f, off), off + BLOCK + Padded(|f.data|))
      case Passed => Skip(off + BLOCK + Padded(|f.data|))
      case Refused(e) => Fail(e)
  {
    hide ReadHeader, Head, Padded, Safe, Permitted, StripDot, Executable;
    HeadReads(f);
  }

  /** Where the parts of an archive lie in a buffer that holds it from `off` on. */
  lemma ArchiveParts(buf: seq<Byte>, off: nat, fs: seq<Item>)
    requires off <= |buf| && buf[off..] == Archive(fs) && fs != []
    ensures var n := |fs[0].data|; var next := off + BLOCK + Padded(n);
      && next <= |buf| && buf[off..off + BLOCK] == Head(fs[0])
      && buf[off + BLOCK..off + BLOCK + n] == fs[0].data && buf[next..] == Archive(fs[1..])
  {
    hide Head, Padded;
    var n := |fs[0].data|;
    var a := Archive(fs);
    assert a[..BLOCK] == Head(fs[0]);
    assert a[BLOCK..BLOCK + n] == fs[0].data;
    assert a[BLOCK + Padded(n)..] == Archive(fs[1..]);
    assert buf[off..off + BLOCK] == buf[off..][..BLOCK];
    assert buf[off + BLOCK..off + BLOCK + n] == buf[off..][BLOCK..BLOCK + n];
    assert buf[off + BLOCK + Padded(n)..] == buf[off..][BLOCK + Padded(n)..];
  }

  /** The operation is the member's, with the member's data in its slice. */
  ghost predicate Matches(buf: seq<Byte>, f: Item, op: Op) {
    if f.flag == '5' as int then op == MakeDir(PathOf(f))
    else
      && op.WriteFile? && op.path == PathOf(f) && op.executable == Executable(f.mode)
      && op.at + op.size <= |buf| && buf[op.at..op.at + op.size] == f.data
  }

  ghost predicate Faithful(buf: seq<Byte>, fs: seq<Item>, ops: seq<Op>) {
    |ops| == |fs| && forall k | 0 <= k < |fs| :: Matches(buf, fs[k], ops[k])
  }

  lemma FaithfulMore(buf: seq<Byte>, f: Item, fs: seq<Item>, op: Op, ops: seq<Op>)
    requires Matches(buf, f, op) && Faithful(buf, fs, ops)
    ensures Faithful(buf, [f] + fs, [op] + ops)
  {
    hide Matches;
  }

  /** The members that are made. */
  ghost function Chosen(fs: seq<Item>, want: Want): seq<Item> {
    if fs == [] then [] else (if FateOf(fs[0], want) == Made then [fs[0]] else []) + Chosen(fs[1..], want)
  }

  lemma WalkStep(buf: seq<Byte>, off: nat, f: Item, want: Want)
    requires Fits(f) && off + BLOCK + Padded(|f.data|) <= |buf| && buf[off..off + BLOCK] == Head(f)
    ensures var rest := Walk(buf, off + BLOCK + Padded(|f.data|), 0, want);
      Walk(buf, off, 0, want) ==
        match FateOf(f, want)
        case Made => Plan([OpOf(f, off)] + rest.ops, rest.error)
        case Passed => rest
        case Refused(e) => Plan([], Some(e))
  {
    hide EntryStep, ReadHeader, Fits, Head, AllZero, Padded, FateOf;
    HeadReads(f);
    EntryReads(f, |buf|, off, want);
  }

  lemma {:induction false} WalkReads(buf: seq<Byte>, off: nat, fs: seq<Item>, want: Want) returns (n: nat)
    requires off <= |buf| && buf[off..] == Archive(fs) && forall k | 0 <= k < |fs| :: Fits(fs[k])
    ensures n <= |fs| && (forall k | 0 <= k < n :: !FateOf(fs[k], want).Refused?)
    ensures n < |fs| ==> FateOf(fs[n], want).Refused?
    ensures var plan := Walk(buf, off, 0, want);
      && plan.error == (if n < |fs| then Some(FateOf(fs[n], want).error) else None)
      && Faithful(buf, Chosen(fs[..n], want), plan.ops)
    decreases |fs|
  {
    hide Walk, Fits, Archive, Head, Padded, PathOf, FateOf;
    n := 0;
    if fs == [] {
      EndRead(buf, off, want);
    } else {
      hide Faithful, Matches;
      var next := off + BLOCK + Padded(|fs[0].data|);
      ArchiveParts(buf, off, fs);
      WalkStep(buf, off, fs[0], want);
      if FateOf(fs[0], want).Refused? {
        NothingMade(buf);
      } else {
        var m := WalkReads(buf, next, fs[1..], want);
        n := m + 1;
        forall k | 0 < k < n ensures !FateOf(fs[k], want).Refused? { assert fs[k] == fs[1..][k - 1]; }
        assert fs[..n][1..] == fs[1..][..m];
        if FateOf(fs[0], want) == Made {
          OpMatches(buf, fs[0], off);
          FaithfulMore(buf, fs[0], Chosen(fs[1..][..m], want), OpOf(fs[0], off), Walk(buf, next, 0, want).ops);
        }
      }
    }
  }

  lemma NothingMade(buf: seq<Byte>)
    ensures Faithful(buf, [], [])
  {
  }

  lemma OpMatches(buf: seq<Byte>, f: Item, off: nat)
    requires off + BLOCK + |f.data| <= |buf| && buf[off + BLOCK..off + BLOCK + |f.data|] == f.data
    ensures Matches(buf, f, OpOf(f, off))
  {
  }

  lemma EndRead(buf: seq<Byte>, off: nat, want: Want)
    requires off <= |buf| && buf[off..] == Archive([])
    ensures Walk(buf, off, 0, want) == Plan([], None)
  {
    assert buf[off..off + BLOCK] == buf[off..][..BLOCK];
    assert buf[off + BLOCK..off + 2 * BLOCK] == buf[off..][BLOCK..2 * BLOCK];
  }

  /**
    Extracting an archive of any members makes, in order and with their data, exactly the files and directories up to
    the first that is refused, and reports that one; when none is refused it makes them all and succeeds.
   */
  lemma ArchiveExtracts(fs: seq<Item>, want: Want) returns (n: nat)
    requires forall k | 0 <= k < |fs| :: Fits(fs[k])
    ensures n <= |fs| && (forall k | 0 <= k < n :: !FateOf(fs[k], want).Refused?)
    ensures n < |fs| ==> FateOf(fs[n], want).Refused?
    ensures var plan := Walk(Archive(fs), 0, 0, want);
      && plan.error == (if n < |fs| then Some(FateOf(fs[n], want).error) else None)
      && Faithful(Archive(fs), Chosen(fs[..n], want), plan.ops)
  {
    assert Archive(fs)[0..] == Archive(fs);
    n := WalkReads(Archive(fs), 0, fs, want);
  }

  // ---------------------------------------------------------------------------------------------
  // What is no member
  // ---------------------------------------------------------------------------------------------

  /** A block that has a name but no magic, or no readable size or mode, ends the walk with that error. */
  lemma BrokenHeaders(buf: seq<Byte>, off: nat, zeros: nat, want: Want)
    requires off + BLOCK <= |buf| && exists i :: off <= i < off + NAME && buf[i] != 0
    ensures var plan := Walk(buf, off, zeros, want);
      var magic := forall i | 0 <= i < 5 :: buf[off + 257 + i] == "ustar"[i] as int;
      var size, mode := buf[off + 124..off + 136], buf[off + 100..off + 108];
      && (!magic ==> plan == Plan([], Some(BadMagic)))
      && (magic && Unreadable(size) ==> plan == Plan([], Some(BadSize)))
      && (magic && !Unreadable(size) && Unreadable(mode) ==> plan == Plan([], Some(BadMode)))
  {
    hide OctDigits, SkipSpaces, Unreadable, EntryStep, ReadHeader;
    var h := buf[off..off + BLOCK];
    var i :| off <= i < off + NAME && buf[i] != 0;
    assert h[i - off] == buf[i] && h[..NAME][i - off] == buf[i];
    Within(buf, off, 124, 136);
    Within(buf, off, 100, 108);
    Magic(buf, off);
    BrokenHeader(h);
    if ReadHeader(h).Broken? {
      FailStep(|buf|, off, ReadHeader(h), want);
    }
  }

  lemma BrokenHeader(h: seq<Byte>)
    requires |h| == BLOCK && !AllZero(h[..NAME])
    ensures var magic := h[257..262] == USTAR;
      && (!magic ==> ReadHeader(h) == Broken(BadMagic))
      && (magic && Unreadable(h[124..136]) ==> ReadHeader(h) == Broken(BadSize))
      && (magic && !Unreadable(h[124..136]) && Unreadable(h[100..108]) ==> ReadHeader(h) == Broken(BadMode))
  {
    hide OctDigits, SkipSpaces, Unreadable, AllZero;
    FieldUnreadable(h[124..136]);
    FieldUnreadable(h[100..108]);
  }

  lemma Within(buf: seq<Byte>, off: nat, a: nat, b: nat)
    requires off + BLOCK <= |buf| && a <= b <= BLOCK
    ensures buf[off..off + BLOCK][a..b] == buf[off + a..off + b]
  {
    var x, y := buf[off..off + BLOCK][a..b], buf[off + a..off + b];
    assert |x| == |y| && forall k | 0 <= k < |x| :: x[k] == buf[off + a + k] == y[k];
  }

  lemma Magic(buf: seq<Byte>, off: nat)
    requires off + BLOCK <= |buf|
    ensures buf[off..off + BLOCK][257..262] == USTAR <==>
      forall i | 0 <= i < 5 :: buf[off + 257 + i] == "ustar"[i] as int
  {
    var m := buf[off..off + BLOCK][257..262];
    assert forall i | 0 <= i < 5 :: m[i] == buf[off + 257 + i];
    assert forall i | 0 <= i < 5 :: USTAR[i] == "ustar"[i] as int;
  }

  lemma FailStep(len: nat, off: nat, h: Header, want: Want)
    requires off + BLOCK <= len && h.Broken?
    ensures EntryStep(len, off, h, want) == Fail(h.error)
  {
  }

  /** A member whose data the buffer does not hold in full is refused, whatever it is. */
  lemma CutOff(buf: seq<Byte>, off: nat, f: Item, want: Want)
    requires Fits(f) && off + BLOCK <= |buf| < off + BLOCK + Padded(|f.data|) && buf[off..off + BLOCK] == Head(f)
    ensures Walk(buf, off, 0, want) == Plan([], Some(Truncated))
  {
    hide ReadHeader, Fits, Head, AllZero, Padded;
    HeadReads(f);
  }

  /** One block of zeros is passed over; two in a row, a header without a name and a short rest end the walk. */
  lemma WalkEnds(buf: seq<Byte>, off: nat, want: Want)
    ensures off + BLOCK > |buf| ==> Walk(buf, off, 0, want) == Plan([], None)
    ensures off + BLOCK <= |buf| && AllZero(buf[off..off + BLOCK]) ==>
      && Walk(buf, off, 0, want) == Walk(buf, off + BLOCK, 1, want)
      && Walk(buf, off, 1, want) == Plan([], None)
    ensures off + BLOCK <= |buf| && !AllZero(buf[off..off + BLOCK]) ==>
      Walk(buf, off, 1, want) == Walk(buf, off, 0, want)
    ensures off + BLOCK <= |buf| && !AllZero(buf[off..off + BLOCK]) && AllZero(buf[off..off + BLOCK][..NAME]) ==>
      Walk(buf, off, 0, want) == Plan([], None)
  {
    hide AllZero;
  }
}
