/**
  The archive walker of user/bin/herald/tar.c for uncompressed archives in the ustar interchange format of
  POSIX.1-2017 (XCU, pax): what extracting a buffer creates below the destination.
 */
module Tar {
  import opened Common

  type Path = seq<Byte>

  const SLASH: Byte := 0x2f
  const DOT: Byte := 0x2e
  const SPACE: Byte := 0x20
  const BLOCK: nat := 512
  const NAME: nat := 100
  const PREFIX: nat := 155
  const FULL_MAX: nat := PREFIX + 1 + NAME + 1 + 256

  // ---------------------------------------------------------------------------------------------
  // Paths
  // ---------------------------------------------------------------------------------------------

  /** A path component ".." starts at `i`. */
  predicate Climbs(p: Path, i: nat) {
    && i + 2 <= |p| && p[i] == DOT && p[i + 1] == DOT
    && (i == 0 || p[i - 1] == SLASH) && (i + 2 == |p| || p[i + 2] == SLASH)
  }

  /** Relative, not empty, and no component is "..". */
  ghost predicate Safe(p: Path) {
    p != [] && p[0] != SLASH && forall i: nat | i < |p| :: !Climbs(p, i)
  }

  /** Component by component, over runs of slashes. */
  method PathIsSafe(p: Path) returns (safe: bool)
    ensures safe <==> Safe(p)
  {
    if p == [] || p[0] == SLASH {
      return false;
    }
    var i := 0;
    while i < |p|
      invariant 0 <= i <= |p|
      invariant i == |p| || (p[i] != SLASH && (i == 0 || p[i - 1] == SLASH))
      invariant forall k: nat | k < i :: !Climbs(p, k)
    {
      if i + 2 <= |p| && p[i] == DOT && p[i + 1] == DOT && (i + 2 == |p| || p[i + 2] == SLASH) {
        assert Climbs(p, i);
        return false;
      }
      assert !Climbs(p, i);
      var start := i;
      while i < |p| && p[i] != SLASH
        invariant start <= i <= |p|
        invariant forall k | start <= k < i :: p[k] != SLASH
        invariant forall k: nat | k < i :: !Climbs(p, k)
      {
        i := i + 1;
      }
      while i < |p| && p[i] == SLASH
        invariant start <= i <= |p|
        invariant start < i
        invariant i == |p| || p[i] == SLASH || p[i - 1] == SLASH
        invariant forall k: nat | k < i :: !Climbs(p, k)
      {
        i := i + 1;
      }
    }
    return true;
  }

  /** Without one trailing slash, as the destination is opened. */
  function Trimmed(p: Path): Path {
    if p != [] && p[|p| - 1] == SLASH then p[..|p| - 1] else p
  }

  lemma TrimmedSafe(p: Path)
    requires Safe(p)
    ensures Safe(Trimmed(p))
  {
    var t := Trimmed(p);
    forall i: nat | i < |t| ensures !Climbs(t, i) {
      assert !Climbs(p, i);
    }
  }

  predicate StartsWith(s: Path, pre: Path) {
    |pre| <= |s| && s[..|pre|] == pre
  }

  const MANIFEST: Path := [0x6d, 0x61, 0x6e, 0x69, 0x66, 0x65, 0x73, 0x74]

  /** Under a prefix, or a directory above one. */
  predicate Covered(path: Path, prefix: Path) {
    StartsWith(path, prefix) || (path != [] && path[|path| - 1] == SLASH && StartsWith(prefix, path))
  }

  predicate Permitted(path: Path, prefixes: Option<seq<Path>>) {
    prefixes.Some? ==> path == MANIFEST || exists k | 0 <= k < |prefixes.value| :: Covered(path, prefixes.value[k])
  }

  // ---------------------------------------------------------------------------------------------
  // Headers
  // ---------------------------------------------------------------------------------------------

  predicate AllZero(b: seq<Byte>) {
    forall i | 0 <= i < |b| :: b[i] == 0
  }

  predicate OctalDigit(c: Byte) {
    0x30 <= c <= 0x37
  }

  function SkipSpaces(f: seq<Byte>): seq<Byte> {
    if f != [] && f[0] == SPACE then SkipSpaces(f[1..]) else f
  }

  /** Digits up to a space, a zero or the end; anything else is an error. */
  function OctDigits(f: seq<Byte>, v: nat): Option<nat> {
    if f == [] || f[0] == SPACE || f[0] == 0 then Some(v)
    else if !OctalDigit(f[0]) then None
    else OctDigits(f[1..], v * 8 + (f[0] - 0x30))
  }

  method OctParse(field: seq<Byte>) returns (v: Option<nat>)
    ensures v == OctDigits(SkipSpaces(field), 0)
  {
    hide OctDigits;
    var i := 0;
    while i < |field| && field[i] == SPACE
      invariant 0 <= i <= |field|
      invariant SkipSpaces(field[i..]) == SkipSpaces(field)
    {
      assert field[i..][1..] == field[i + 1..];
      i := i + 1;
    }
    hide SkipSpaces;
    var n: nat := 0;
    while i < |field|
      invariant 0 <= i <= |field|
      invariant OctDigits(field[i..], n) == OctDigits(SkipSpaces(field), 0)
    {
      var c := field[i];
      OctOne(field[i..], n);
      if c == SPACE || c == 0 {
        return Some(n);
      }
      if !OctalDigit(c) {
        return None;
      }
      assert field[i..][1..] == field[i + 1..];
      n := n * 8 + (c as int - 0x30);
      i := i + 1;
    }
    OctOne(field[i..], n);
    return Some(n);
  }

  lemma OctOne(f: seq<Byte>, v: nat)
    ensures OctDigits(f, v) ==
      if f == [] || f[0] == SPACE || f[0] == 0 then Some(v)
      else if !OctalDigit(f[0]) then None
      else OctDigits(f[1..], v * 8 + (f[0] - 0x30))
  {
  }

  /** Up to the first zero byte. */
  function Text(f: seq<Byte>): (t: seq<Byte>)
    ensures |t| <= |f| && forall i | 0 <= i < |t| :: t[i] != 0
  {
    if f == [] || f[0] == 0 then [] else [f[0]] + Text(f[1..])
  }

  function JoinPath(prefix: Path, name: Path): Path {
    if prefix == [] then name else prefix + [SLASH] + name
  }

  function StripDot(p: Path): Path {
    if |p| >= 2 && p[0] == DOT && p[1] == SLASH then p[2..] else p
  }

  datatype Error = BadMagic | BadSize | BadMode | Truncated | UnsafePath | Outside | TooLong

  datatype Kind = Regular | Directory | Other

  datatype Header = Stop | Broken(error: Error) | Entry(path: Path, kind: Kind, mode: nat, size: nat)

  function KindOf(flag: Byte): Kind {
    if flag == 0x30 || flag == 0 then Regular else if flag == 0x35 then Directory else Other
  }

  const USTAR: seq<Byte> := [0x75, 0x73, 0x74, 0x61, 0x72]

  function ReadHeader(h: seq<Byte>): Header
    requires |h| == BLOCK
  {
    if AllZero(h[..NAME]) then Stop
    else if h[257..262] != USTAR then Broken(BadMagic)
    else
      var size, mode := OctDigits(SkipSpaces(h[124..136]), 0), OctDigits(SkipSpaces(h[100..108]), 0);
      if size.None? then Broken(BadSize)
      else if mode.None? then Broken(BadMode)
      else Entry(StripDot(JoinPath(Text(h[345..500]), Text(h[..NAME]))), KindOf(h[156]), mode.value, size.value)
  }

  function Padded(size: nat): (p: nat)
    ensures size <= p < size + BLOCK
  {
    (size + BLOCK - 1) / BLOCK * BLOCK
  }

  // ---------------------------------------------------------------------------------------------
  // Walking
  // ---------------------------------------------------------------------------------------------

  /** What is made of an entry; the data of a file lies at `at` in the buffer. */
  datatype Op = MakeDir(path: Path) | WriteFile(path: Path, at: nat, size: nat, executable: bool)

  datatype Want = Want(destination: nat, prefixes: Option<seq<Path>>)

  /** What a walk does, in order, and the error that ends it, if any. */
  datatype Plan = Plan(ops: seq<Op>, error: Option<Error>)

  datatype Step = Finish | Fail(error: Error) | Skip(next: nat) | Make(op: Op, next: nat)

  predicate Executable(mode: nat) {
    mode % 2 == 1 || mode / 8 % 2 == 1 || mode / 64 % 2 == 1
  }

  /** The header block at `off`, which is not all zero. */
  ghost function EntryStep(len: nat, off: nat, h: Header, want: Want): (s: Step)
    requires off + BLOCK <= len
    ensures s.Skip? || s.Make? ==> off + BLOCK <= s.next <= len
  {
    match h
    case Stop => Finish
    case Broken(e) => Fail(e)
    case Entry(path, kind, mode, size) =>
      var next := off + BLOCK + Padded(size);
      if next > len then Fail(Truncated)
      else if kind == Other then Skip(next)
      else if !Safe(path) then Fail(UnsafePath)
      else if !Permitted(path, want.prefixes) then Fail(Outside)
      else if path == MANIFEST then Skip(next)
      else if want.destination + 1 + |path| + 1 > FULL_MAX then Fail(TooLong)
      else if kind == Directory then Make(MakeDir(path), next)
      else Make(WriteFile(path, off + BLOCK, size, Executable(mode)), next)
  }

  ghost function Walk(buf: seq<Byte>, off: nat, zeros: nat, want: Want): Plan
    decreases |buf| - off
  {
    if off + BLOCK > |buf| then Plan([], None)
    else
      var h := buf[off..off + BLOCK];
      if AllZero(h) then
        if zeros + 1 >= 2 then Plan([], None) else Walk(buf, off + BLOCK, zeros + 1, want)
      else
        match EntryStep(|buf|, off, ReadHeader(h), want)
        case Finish => Plan([], None)
        case Fail(e) => Plan([], Some(e))
        case Skip(next) => Walk(buf, next, 0, want)
        case Make(op, next) =>
          var rest := Walk(buf, next, 0, want);
          Plan([op] + rest.ops, rest.error)
  }

  /** The paths of the files written, which go on the owner list. */
  function Owned(ops: seq<Op>): seq<Path> {
    if ops == [] then []
    else Owned(ops[..|ops| - 1]) + if ops[|ops| - 1].WriteFile? then [ops[|ops| - 1].path] else []
  }

  method ZeroBlock(b: seq<Byte>) returns (zero: bool)
    ensures zero <==> AllZero(b)
  {
    var i := 0;
    while i < |b|
      invariant 0 <= i <= |b| && forall k | 0 <= k < i :: b[k] == 0
    {
      if b[i] != 0 {
        return false;
      }
      i := i + 1;
    }
    return true;
  }

  /** The header's fields, in the order they are checked. */
  method ParseHeader(h: seq<Byte>) returns (r: Header)
    requires |h| == BLOCK
    ensures r == ReadHeader(h)
  {
    var end := ZeroBlock(h[..NAME]);
    if end {
      return Stop;
    }
    if h[257..262] != USTAR {
      return Broken(BadMagic);
    }
    var size := OctParse(h[124..136]);
    if size.None? {
      return Broken(BadSize);
    }
    var mode := OctParse(h[100..108]);
    if mode.None? {
      return Broken(BadMode);
    }
    return Entry(StripDot(JoinPath(Text(h[345..500]), Text(h[..NAME]))), KindOf(h[156]), mode.value, size.value);
  }

  /** The prefix restriction, prefix by prefix. */
  method Allowed(path: Path, prefixes: Option<seq<Path>>) returns (ok: bool)
    ensures ok <==> Permitted(path, prefixes)
  {
    if prefixes.None? {
      return true;
    }
    ok := path == MANIFEST;
    var k := 0;
    while !ok && k < |prefixes.value|
      invariant 0 <= k <= |prefixes.value|
      invariant ok <==> path == MANIFEST || exists q | 0 <= q < k :: Covered(path, prefixes.value[q])
    {
      ok := Covered(path, prefixes.value[k]);
      k := k + 1;
    }
  }

  method NextStep(len: nat, off: nat, h: Header, want: Want) returns (s: Step)
    requires off + BLOCK <= len
    ensures s == EntryStep(len, off, h, want)
  {
    hide Padded;
    match h {
      case Stop => return Finish;
      case Broken(e) => return Fail(e);
      case Entry(path, kind, mode, size) =>
        var next := off + BLOCK + Padded(size);
        if next > len {
          return Fail(Truncated);
        }
        if kind == Other {
          return Skip(next);
        }
        var safe := PathIsSafe(path);
        if !safe {
          return Fail(UnsafePath);
        }
        var ok := Allowed(path, want.prefixes);
        if !ok {
          return Fail(Outside);
        }
        if path == MANIFEST {
          return Skip(next);
        }
        if want.destination + 1 + |path| + 1 > FULL_MAX {
          return Fail(TooLong);
        }
        return Make(if kind == Directory then MakeDir(path)
                    else WriteFile(path, off + BLOCK, size, Executable(mode)), next);
    }
  }

  /** The file system refuses step `k`: to make the entry (its answer 2k), or to list a file (its answer 2k + 1). */
  predicate Refused(ops: seq<Op>, refuses: nat -> bool, k: nat)
    requires k < |ops|
  {
    refuses(2 * k) || (ops[k].WriteFile? && refuses(2 * k + 1))
  }

  /** None of the first `n` steps is refused. */
  ghost predicate Granted(ops: seq<Op>, refuses: nat -> bool, n: nat) {
    n <= |ops| && forall k: nat | k < n :: !Refused(ops, refuses, k)
  }

  /** Step `k` is the first that is refused, and nothing is made or listed behind it. */
  ghost predicate EndsAt(ops: seq<Op>, refuses: nat -> bool, k: nat, made: seq<Op>, owners: seq<Path>) {
    && k < |ops| && Refused(ops, refuses, k) && Granted(ops, refuses, k)
    && made == ops[..if refuses(2 * k) then k else k + 1] && owners == Owned(ops[..k])
  }

  /** One more step: refused before it is made, refused when it is listed, or granted. */
  lemma StepEnds(ops: seq<Op>, refuses: nat -> bool, made: seq<Op>, op: Op, owners: seq<Path>)
    requires made + [op] <= ops && Granted(ops, refuses, |made|) && owners == Owned(made)
    ensures refuses(2 * |made|) ==> EndsAt(ops, refuses, |made|, made, owners)
    ensures !refuses(2 * |made|) && op.WriteFile? && refuses(2 * |made| + 1) ==>
      EndsAt(ops, refuses, |made|, made + [op], owners)
    ensures !refuses(2 * |made|) && !(op.WriteFile? && refuses(2 * |made| + 1)) ==> Granted(ops, refuses, |made| + 1)
  {
    hide Owned, Granted;
    var k := |made|;
    OpAt(ops, made, op);
    if !Refused(ops, refuses, k) {
      OneGranted(ops, refuses, k);
    }
  }

  lemma OpAt(ops: seq<Op>, made: seq<Op>, op: Op)
    requires made + [op] <= ops
    ensures |made| < |ops| && ops[|made|] == op && ops[..|made|] == made && ops[..|made| + 1] == made + [op]
  {
    var all := made + [op];
    assert ops[..|all|] == all;
    assert all[|made|] == op && all[..|made|] == made;
  }

  lemma OneGranted(ops: seq<Op>, refuses: nat -> bool, k: nat)
    requires k < |ops| && Granted(ops, refuses, k) && !Refused(ops, refuses, k)
    ensures Granted(ops, refuses, k + 1)
  {
    hide Refused;
  }

  /**
    Extraction. The file system may refuse any step, which ends the walk there; without that, exactly the planned
    steps are taken in order, and the owner list names exactly the files written, in order.
   */
  method Extract(buf: seq<Byte>, want: Want, refuses: nat -> bool)
    returns (ok: bool, refused: bool, made: seq<Op>, owners: seq<Path>)
    ensures var plan := Walk(buf, 0, 0, want);
      && made <= plan.ops
      && (!refused ==> made == plan.ops && owners == Owned(made) && Granted(plan.ops, refuses, |plan.ops|))
      && (refused ==> exists k: nat :: EndsAt(plan.ops, refuses, k, made, owners))
      && (ok <==> !refused && plan.error.None?)
  {
    hide EntryStep, ReadHeader, AllZero, Owned, Granted, EndsAt, Refused;
    var off, zeros := 0, 0;
    ok, refused, made, owners := true, false, [], [];
    ghost var plan := Walk(buf, 0, 0, want);
    OwnedNone(plan.ops, refuses);
    while off + BLOCK <= |buf|
      invariant off <= |buf| && owners == Owned(made) && ok && !refused
      invariant plan == Prepended(made, Walk(buf, off, zeros, want))
      invariant Granted(plan.ops, refuses, |made|)
      decreases |buf| - off
    {
      var h := buf[off..off + BLOCK];
      var zero := ZeroBlock(h);
      if zero {
        zeros := zeros + 1;
        if zeros >= 2 {
          return;
        }
        off := off + BLOCK;
      } else {
        var header := ParseHeader(h);
        var step := NextStep(|buf|, off, header, want);
        match step {
          case Finish =>
            return;
          case Fail(_) =>
            ok := false;
            return;
          case Skip(next) =>
            off, zeros := next, 0;
          case Make(op, next) =>
            Moved(made, op, Walk(buf, next, 0, want));
            StepEnds(plan.ops, refuses, made, op, owners);
            if refuses(2 * |made|) {
              ok, refused := false, true;
              return;
            }
            OwnedLast(made, op);
            made := made + [op];
            if op.WriteFile? {
              if refuses(2 * (|made| - 1) + 1) {
                ok, refused := false, true;
                return;
              }
              owners := owners + [op.path];
            }
            off, zeros := next, 0;
        }
      }
    }
  }

  lemma OwnedNone(ops: seq<Op>, refuses: nat -> bool)
    ensures Owned([]) == [] && Granted(ops, refuses, 0)
  {
  }

  ghost function Prepended(ops: seq<Op>, p: Plan): Plan {
    Plan(ops + p.ops, p.error)
  }

  lemma Moved(made: seq<Op>, op: Op, rest: Plan)
    ensures Prepended(made, Plan([op] + rest.ops, rest.error)) == Prepended(made + [op], rest)
    ensures (made + [op])[..|made|] == made
  {
    assert made + ([op] + rest.ops) == made + [op] + rest.ops;
  }

  lemma OwnedLast(made: seq<Op>, op: Op)
    ensures Owned(made + [op]) == Owned(made) + if op.WriteFile? then [op.path] else []
  {
    var all := made + [op];
    assert all[..|all| - 1] == made;
  }
}
