/** Which versions the comparison sees in a written one, and in which order candidates are met. */
module VersionLaws {
  import opened Common
  import opened VersionOrder

  /** A number in decimal. */
  function Spelled(n: nat): (s: string)
    ensures s != "" && forall i | 0 <= i < |s| :: '0' <= s[i] <= '9'
  {
    var last := ['0' + (n % 10) as char];
    if n < 10 then last else Spelled(n / 10) + last
  }

  lemma {:induction false} SpelledReads(n: nat)
    ensures Decimal(Spelled(n)) == n
    decreases n
  {
    var s := Spelled(n);
    var last := '0' + (n % 10) as char;
    if n < 10 {
      assert s[..|s| - 1] == "";
    } else {
      SpelledReads(n / 10);
      assert s[..|s| - 1] == Spelled(n / 10) && s[|s| - 1] == last;
    }
  }

  /** Characters that are no digits do not count, wherever they stand. */
  lemma {:induction false} OthersIgnored(a: string, c: char, b: string)
    requires c < '0' || '9' < c
    ensures Decimal(a + [c] + b) == Decimal(a + b)
    decreases |b|
  {
    var s := a + [c] + b;
    if b == "" {
      assert s[..|s| - 1] == a && a + b == a;
    } else {
      var last := |b| - 1;
      OthersIgnored(a, c, b[..last]);
      assert s[..|s| - 1] == a + [c] + b[..last];
      assert (a + b)[..|a + b| - 1] == a + b[..last];
    }
  }

  /** Components with a dot between them. */
  function Dotted(ns: seq<nat>): string {
    if ns == [] then "" else if |ns| == 1 then Spelled(ns[0]) else Spelled(ns[0]) + "." + Dotted(ns[1..])
  }

  function Capped(ns: seq<nat>): (cs: seq<nat>)
    ensures |cs| == |ns| && forall k | 0 <= k < |ns| :: cs[k] == Min(ns[k], 18446744073709551615)
  {
    seq(|ns|, k requires 0 <= k < |ns| => Min(ns[k], 18446744073709551615))
  }

  lemma {:induction false} EndsThere(s: string, i: nat, e: nat)
    requires i <= e <= |s| && (forall k | i <= k < e :: s[k] != '.') && (e == |s| || s[e] == '.')
    ensures ComponentEnd(s, i) == e
    decreases e - i
  {
    if i < e {
      EndsThere(s, i + 1, e);
    }
  }

  /** One component, in front of nothing or of a dot. */
  lemma ComponentReads(front: string, n: nat, rest: string)
    requires rest == "" || rest[0] == '.'
    ensures var s, i := front + Spelled(n) + rest, |front|;
      && ComponentEnd(s, i) == i + |Spelled(n)| && s[i..ComponentEnd(s, i)] == Spelled(n)
      && Clamp(Decimal(s[i..ComponentEnd(s, i)])) == Min(n, 18446744073709551615)
  {
    hide Spelled, Decimal, ComponentEnd;
    var s, i := front + Spelled(n) + rest, |front|;
    var e := i + |Spelled(n)|;
    assert s[i..e] == Spelled(n);
    assert forall k | i <= k < e :: s[k] == Spelled(n)[k - i];
    EndsThere(s, i, e);
    SpelledReads(n);
  }

  lemma CappedHead(ns: seq<nat>)
    requires ns != []
    ensures Capped(ns) == [Min(ns[0], 18446744073709551615)] + Capped(ns[1..])
  {
  }

  lemma {:induction false} DottedFrom(front: string, ns: seq<nat>)
    ensures Components(front + Dotted(ns), |front|) == Capped(ns)
    decreases |ns|
  {
    hide Spelled, Decimal, ComponentEnd, Capped, Clamp;
    var s := front + Dotted(ns);
    if ns == [] {
      assert s == front;
      assert Capped(ns) == [];
    } else {
      CappedHead(ns);
      if |ns| == 1 {
        assert s == front + Spelled(ns[0]) + "";
        ComponentReads(front, ns[0], "");
        assert Components(s, |s|) == [] == Capped(ns[1..]);
      } else {
        var rest := "." + Dotted(ns[1..]);
        assert s == front + Spelled(ns[0]) + rest;
        ComponentReads(front, ns[0], rest);
        var more := front + Spelled(ns[0]) + ".";
        assert s == more + Dotted(ns[1..]);
        DottedFrom(more, ns[1..]);
      }
    }
  }

  predicate Small(ns: seq<nat>) {
    forall k | 0 <= k < |ns| :: ns[k] < 0x1_0000_0000_0000_0000
  }

  lemma SmallCapped(ns: seq<nat>)
    requires Small(ns)
    ensures Capped(ns) == ns
  {
  }

  lemma VersionReads(a: seq<nat>)
    ensures Version(Dotted(a)) == Capped(a)
  {
    hide Components, Dotted, Capped;
    DottedFrom("", a);
    assert "" + Dotted(a) == Dotted(a);
  }

  /**
    A version is read as the numbers between its dots, each capped at the largest that 64 bits hold; so below that
    cap the comparison of two written versions is the lexicographic order of their numbers.
   */
  lemma DottedReads(a: seq<nat>, b: seq<nat>)
    ensures Version(Dotted(a)) == Capped(a)
    ensures Small(a) && Small(b) ==> (Newer(Dotted(a), Dotted(b)) <==> Greater(a, b))
  {
    hide Greater, Version, Dotted, Small, Capped;
    VersionReads(a);
    VersionReads(b);
    if Small(a) && Small(b) {
      SmallCapped(a);
      SmallCapped(b);
    }
  }

  /** The candidates are the stanzas of the verified lists, list by list; a rejected list has none. */
  lemma {:induction false} CandidatesInOrder(a: seq<Source>, b: seq<Source>, stanzas: seq<Stanza>)
    ensures Candidates([]) == [] && Candidates([Rejected]) == [] && Candidates([Verified(stanzas)]) == stanzas
    ensures Candidates(a + b) == Candidates(a) + Candidates(b)
    decreases |b|
  {
    assert [Rejected][..0] == [] && [Verified(stanzas)][..0] == [];
    assert [] + stanzas == stanzas;
    if b == [] {
      assert a + b == a;
    } else {
      var last := |b| - 1;
      CandidatesInOrder(a, b[..last], stanzas);
      assert (a + b)[..|a + b| - 1] == a + b[..last];
    }
  }
}
