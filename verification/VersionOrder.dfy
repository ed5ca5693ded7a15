/**
  Version comparison and candidate selection of the herald repository client
  (user/bin/herald/repo.c).
 */
module VersionOrder {

  const ULLONG_MAX: nat := 0xffff_ffff_ffff_ffff

  predicate IsDigit(c: char) {
    '0' <= c <= '9'
  }

  function Digit(c: char): nat
    requires IsDigit(c)
  {
    c as int - '0' as int
  }

  /** The digits of a component read as one decimal number, however long; other characters do not count. */
  function Decimal(s: string): nat {
    if s == "" then 0
    else
      var init, last := s[..|s| - 1], s[|s| - 1];
      if IsDigit(last) then Decimal(init) * 10 + Digit(last) else Decimal(init)
  }

  function Clamp(n: nat): nat {
    if n < ULLONG_MAX then n else ULLONG_MAX
  }

  /** The end of the component that starts at `i`. */
  function ComponentEnd(s: string, i: nat): (j: nat)
    requires i <= |s|
    ensures i <= j <= |s| && (j == |s| || s[j] == '.')
    decreases |s| - i
  {
    if i == |s| || s[i] == '.' then i else ComponentEnd(s, i + 1)
  }

  /** ver_component never overflows: it returns the true value, or the largest one when that is too big. */
  method VerComponent(s: string, i: nat) returns (v: nat, j: nat)
    requires i <= |s|
    ensures j == ComponentEnd(s, i)
    ensures v == Clamp(Decimal(s[i..j]))
  {
    v, j := 0, i;
    while j < |s| && s[j] != '.'
      invariant i <= j <= |s| && ComponentEnd(s, j) == ComponentEnd(s, i)
      invariant v == Clamp(Decimal(s[i..j]))
    {
      assert s[i..j + 1] == s[i..j] + [s[j]];
      if IsDigit(s[j]) {
        var d := Digit(s[j]);
        v := if v > (ULLONG_MAX - d) / 10 then ULLONG_MAX else v * 10 + d;
      }
      j := j + 1;
    }
  }

  /** What follows the component that starts at `i`, past its dot. */
  function Next(s: string, i: nat): (j: nat)
    requires i <= |s|
    ensures i <= j <= |s| && (i < |s| ==> i < j)
  {
    var e := ComponentEnd(s, i);
    if e < |s| then e + 1 else e
  }

  /** The components from index `i` on; none behind the end or behind a final dot. */
  function Components(s: string, i: nat): seq<nat>
    requires i <= |s|
    decreases |s| - i
  {
    if i == |s| then []
    else [Clamp(Decimal(s[i..ComponentEnd(s, i)]))] + Components(s, Next(s, i))
  }

  function Version(s: string): seq<nat> {
    Components(s, 0)
  }

  /** Component `k`, zero where the version has none. */
  function Padded(v: seq<nat>, k: nat): nat {
    if k < |v| then v[k] else 0
  }

  /** `k` is the first component in which the two differ, and the left one is larger there. */
  ghost predicate DecidedAt(a: seq<nat>, b: seq<nat>, k: nat) {
    Padded(a, k) > Padded(b, k) && forall j: nat | j < k :: Padded(a, j) == Padded(b, j)
  }

  /** The lexicographic order on zero-padded components. */
  ghost predicate Greater(a: seq<nat>, b: seq<nat>) {
    exists k: nat :: DecidedAt(a, b, k)
  }

  ghost predicate Newer(a: string, b: string) {
    Greater(Version(a), Version(b))
  }

  function Tail(v: seq<nat>): (t: seq<nat>)
    ensures forall k: nat :: Padded(t, k) == Padded(v, k + 1)
  {
    if v == [] then [] else v[1..]
  }

  lemma DecidedInTail(a: seq<nat>, b: seq<nat>, k: nat)
    requires Padded(a, 0) == Padded(b, 0)
    ensures DecidedAt(a, b, k + 1) <==> DecidedAt(Tail(a), Tail(b), k)
  {
    hide Tail, Padded;
    if DecidedAt(a, b, k + 1) {
      forall j: nat | j < k ensures Padded(Tail(a), j) == Padded(Tail(b), j) {
        assert Padded(a, j + 1) == Padded(b, j + 1);
      }
    }
    if DecidedAt(Tail(a), Tail(b), k) {
      forall j: nat | j < k + 1 ensures Padded(a, j) == Padded(b, j) {
        if j > 0 { assert Padded(Tail(a), j - 1) == Padded(Tail(b), j - 1); }
      }
    }
  }

  lemma Agree(a: seq<nat>, b: seq<nat>)
    requires Padded(a, 0) == Padded(b, 0)
    ensures Greater(a, b) <==> Greater(Tail(a), Tail(b))
  {
    if Greater(a, b) {
      var k: nat :| DecidedAt(a, b, k);
      DecidedInTail(a, b, k - 1);
    }
    if Greater(Tail(a), Tail(b)) {
      var k: nat :| DecidedAt(Tail(a), Tail(b), k);
      DecidedInTail(a, b, k);
    }
  }

  /** herald_version_gt decides exactly the lexicographic order, in one pass over both strings. */
  method VersionGt(a: string, b: string) returns (r: bool)
    ensures r <==> Newer(a, b)
  {
    var i, j := 0, 0;
    while i < |a| || j < |b|
      invariant 0 <= i <= |a| && 0 <= j <= |b|
      invariant Newer(a, b) <==> Greater(Components(a, i), Components(b, j))
      decreases |a| - i + |b| - j
    {
      var ca, cb := Components(a, i), Components(b, j);
      var na, ei := VerComponent(a, i);
      var nb, ej := VerComponent(b, j);
      assert Decimal("") == 0;
      assert na == Padded(ca, 0) && nb == Padded(cb, 0) by {
        assert i == |a| ==> a[i..ei] == "";
        assert j == |b| ==> b[j..ej] == "";
      }
      if na != nb {
        FirstDecides(ca, cb);
        return na > nb;
      }
      Agree(ca, cb);
      i := if ei < |a| then ei + 1 else ei;
      j := if ej < |b| then ej + 1 else ej;
      assert Components(a, i) == Tail(ca);
      assert Components(b, j) == Tail(cb);
    }
    r := false;
  }

  lemma FirstDecides(a: seq<nat>, b: seq<nat>)
    requires Padded(a, 0) != Padded(b, 0)
    ensures Greater(a, b) <==> Padded(a, 0) > Padded(b, 0)
  {
    if Padded(a, 0) > Padded(b, 0) {
      assert DecidedAt(a, b, 0);
    } else {
      assert forall k: nat :: DecidedAt(a, b, k) ==> k == 0;
    }
  }

  // ---------------------------------------------------------------------------------------------
  // The order
  // ---------------------------------------------------------------------------------------------

  lemma Irreflexive(a: seq<nat>)
    ensures !Greater(a, a)
  {
  }

  lemma Transitive(a: seq<nat>, b: seq<nat>, c: seq<nat>)
    requires Greater(a, b) && Greater(b, c)
    ensures Greater(a, c)
  {
    var k: nat :| DecidedAt(a, b, k);
    var m: nat :| DecidedAt(b, c, m);
    assert DecidedAt(a, c, if k < m then k else m);
  }

  /** If one version beats another, it beats or is beaten by every third: ties are an equivalence. */
  lemma NegativelyTransitive(a: seq<nat>, b: seq<nat>, c: seq<nat>)
    requires Greater(a, c)
    ensures Greater(a, b) || Greater(b, c)
  {
    var k: nat :| DecidedAt(a, c, k);
    var first := FirstDifference(a, b, c, k);
    if Padded(a, first) > Padded(b, first) {
      assert DecidedAt(a, b, first);
    } else {
      assert DecidedAt(b, c, first);
    }
  }

  /** Two versions tie exactly when all their padded components are equal. */
  lemma Ties(a: seq<nat>, b: seq<nat>)
    ensures !Greater(a, b) && !Greater(b, a) <==> forall k: nat :: Padded(a, k) == Padded(b, k)
  {
    if k: nat :| Padded(a, k) != Padded(b, k) {
      var first := FirstDifference(a, b, b, k);
      assert DecidedAt(a, b, first) || DecidedAt(b, a, first);
    }
  }

  lemma FirstDifference(a: seq<nat>, b: seq<nat>, c: seq<nat>, j: nat) returns (first: nat)
    requires Padded(a, j) != Padded(b, j) || Padded(b, j) != Padded(c, j)
    ensures first <= j && (Padded(a, first) != Padded(b, first) || Padded(b, first) != Padded(c, first))
    ensures forall i: nat | i < first :: Padded(a, i) == Padded(b, i) && Padded(b, i) == Padded(c, i)
  {
    first := 0;
    while Padded(a, first) == Padded(b, first) && Padded(b, first) == Padded(c, first)
      invariant first <= j
      invariant forall i: nat | i < first :: Padded(a, i) == Padded(b, i) && Padded(b, i) == Padded(c, i)
      decreases j - first
    {
      first := first + 1;
    }
  }

  // ---------------------------------------------------------------------------------------------
  // Candidates
  // ---------------------------------------------------------------------------------------------

  const ARCH := "x86_64"

  datatype Stanza = Stanza(name: string, version: string, arch: string, depends: seq<string>)

  /** A configured source: its list, if the cached copy still verifies. */
  datatype Source = Rejected | Verified(stanzas: seq<Stanza>)

  predicate Matches(s: Stanza, name: string) {
    s.name == name && (s.arch == "" || s.arch == ARCH)
  }

  /** The stanzas of all verified lists, in the order repo_find meets them. */
  function Candidates(sources: seq<Source>): seq<Stanza> {
    if sources == [] then []
    else
      var init, last := sources[..|sources| - 1], sources[|sources| - 1];
      Candidates(init) + if last.Verified? then last.stanzas else []
  }

  /** `best` is the first stanza of `all` that matches and that no other matching one exceeds. */
  ghost predicate IsBest(all: seq<Stanza>, name: string, best: Stanza) {
    exists k :: 0 <= k < |all| && all[k] == best && Matches(best, name)
                && (forall j | 0 <= j < |all| && Matches(all[j], name) :: !Newer(all[j].version, best.version))
                && (forall j | 0 <= j < k && Matches(all[j], name) :: Newer(best.version, all[j].version))
  }

  ghost predicate NoneMatches(all: seq<Stanza>, name: string) {
    forall j | 0 <= j < |all| :: !Matches(all[j], name)
  }

  lemma BestSoFar(all: seq<Stanza>, name: string, found: bool, best: Stanza, s: Stanza)
    requires if found then IsBest(all, name, best) else NoneMatches(all, name)
    ensures !Matches(s, name) ==>
              if found then IsBest(all + [s], name, best) else NoneMatches(all + [s], name)
    ensures Matches(s, name) ==>
              IsBest(all + [s], name, if !found || Newer(s.version, best.version) then s else best)
  {
    var more := all + [s];
    assert more[|all|] == s;
    if found {
      var k :| 0 <= k < |all| && all[k] == best && Matches(best, name)
               && (forall j | 0 <= j < |all| && Matches(all[j], name) :: !Newer(all[j].version, best.version))
               && (forall j | 0 <= j < k && Matches(all[j], name) :: Newer(best.version, all[j].version));
      if Matches(s, name) && Newer(s.version, best.version) {
        Irreflexive(Version(s.version));
        forall j | 0 <= j < |all| && Matches(all[j], name)
          ensures Newer(s.version, all[j].version) && !Newer(all[j].version, s.version)
        {
          Dominates(Version(s.version), Version(best.version), Version(all[j].version));
        }
      } else {
        assert more[k] == best;
      }
    } else if Matches(s, name) {
      Irreflexive(Version(s.version));
    }
  }

  /** Above the best means above everything the best is not below. */
  lemma Dominates(s: seq<nat>, best: seq<nat>, other: seq<nat>)
    requires Greater(s, best) && !Greater(other, best)
    ensures Greater(s, other) && !Greater(other, s)
  {
    NegativelyTransitive(s, other, best);
    if Greater(other, s) { Transitive(other, s, best); }
  }

  /** repo_find: the first of the newest matching candidates over all verified sources. */
  method RepoFind(sources: seq<Source>, name: string) returns (found: bool, best: Stanza)
    ensures if found then IsBest(Candidates(sources), name, best) else NoneMatches(Candidates(sources), name)
    ensures found ==> best.name == name && (best.arch == "" || best.arch == "x86_64")
    ensures forall s | s in Candidates(sources) && s.name == name && (s.arch == "" || s.arch == "x86_64") ::
      found && !Newer(s.version, best.version)
  {
    found, best := false, Stanza("", "", "", []);
    for i := 0 to |sources|
      invariant if found then IsBest(Candidates(sources[..i]), name, best)
                else NoneMatches(Candidates(sources[..i]), name)
    {
      ghost var before := Candidates(sources[..i]);
      assert sources[..i + 1][..i] == sources[..i];
      if sources[i].Rejected? {
        assert before + [] == before;
        continue;
      }
      var stanzas := sources[i].stanzas;
      assert before + stanzas[..0] == before;
      for k := 0 to |stanzas|
        invariant if found then IsBest(before + stanzas[..k], name, best)
                  else NoneMatches(before + stanzas[..k], name)
      {
        var st := stanzas[k];
        BestSoFar(before + stanzas[..k], name, found, best, st);
        assert before + stanzas[..k + 1] == before + stanzas[..k] + [st];
        if Matches(st, name) {
          var newer := true;
          if found { newer := VersionGt(st.version, best.version); }
          if newer { found, best := true, st; }
        }
      }
      assert stanzas[..|stanzas|] == stanzas;
    }
    assert sources[..|sources|] == sources;
  }
}
