/**
  Dependency resolution of the herald package manager (resolve in user/bin/herald/main.c): a
  depth-first walk that queues a package before its dependencies, so that cycles end, and moves it
  behind them afterwards by shifting the array in place.
 */
module Resolver {
  import opened VersionOrder

  /** manifest_is_bare_name. */
  predicate BareName(s: string) {
    s != "" && '/' !in s && s != "." && s != ".."
  }

  /** A name that could lead out of the directory it is used in. */
  ghost predicate Improper(n: string) {
    n == "" || n == "." || n == ".." || exists i | 0 <= i < |n| :: n[i] == '/'
  }

  /** What resolve reads: the installed versions and the candidate that repo_find returns per name. */
  datatype Catalog = Catalog(installed: map<string, string>, repo: map<string, Stanza>, synced: bool, upgrade: bool)

  ghost predicate Good(c: Catalog) {
    forall n | n in c.repo :: c.repo[n].name == n
  }

  /** Nothing is to be queued for this name: it is installed and, when upgrading, up to date. */
  ghost predicate Satisfied(c: Catalog, n: string) {
    n in c.installed && (c.upgrade ==> n !in c.repo || !Newer(c.repo[n].version, c.installed[n]))
  }

  ghost function Names(v: seq<Stanza>): set<string> {
    set s | s in v :: s.name
  }

  ghost predicate Unique(v: seq<Stanza>) {
    forall i, j | 0 <= i < j < |v| :: v[i].name != v[j].name
  }

  /** Every queued stanza is the repository's, under a proper name, and none is queued without need. */
  ghost predicate Genuine(c: Catalog, v: seq<Stanza>) {
    forall i | 0 <= i < |v| :: && v[i].name in c.repo && v[i] == c.repo[v[i].name] && !Satisfied(c, v[i].name)
                               && !Improper(v[i].name)
  }

  ghost predicate Handled(c: Catalog, v: seq<Stanza>, d: string) {
    d in Names(v) || Satisfied(c, d)
  }

  ghost predicate DepsHandled(c: Catalog, v: seq<Stanza>, s: Stanza) {
    forall d | d in s.depends :: Handled(c, v, d)
  }

  /** Every dependency of the packages from index `k` on is queued or satisfied. */
  ghost predicate ClosedFrom(c: Catalog, v: seq<Stanza>, k: nat) {
    forall i | k <= i < |v| :: DepsHandled(c, v, v[i])
  }

  /** A rank witnesses that no package depends on itself, however indirectly. */
  ghost predicate Ranked(c: Catalog, rank: string -> nat) {
    forall n, d | n in c.repo && d in c.repo[n].depends :: rank(d) < rank(n)
  }

  /** From index `k` on, packages come after their queued dependencies, none of which is still open. */
  ghost predicate SortedFrom(v: seq<Stanza>, k: nat, open: set<string>) {
    forall i, m | k <= i < |v| && 0 <= m < |v| && v[m].name in v[i].depends :: m < i && v[m].name !in open
  }

  /** A set of names that has all dependencies of its members. */
  ghost predicate DepClosed(c: Catalog, s: set<string>) {
    forall n, d | n in s && n in c.repo && d in c.repo[n].depends :: d in s
  }

  /** Only what the name pulls in was queued from index `k` on. */
  ghost predicate OnlyFrom(c: Catalog, v: seq<Stanza>, k: nat, name: string, s: set<string>) {
    name in s && DepClosed(c, s) ==> forall i | k <= i < |v| :: v[i].name in s
  }

  /** A reason to fail: no lists, no room, or a name that is not proper or not to be had. */
  ghost predicate Blocked(c: Catalog, s: set<string>, full: bool) {
    !c.synced || full || exists n | n in s :: Improper(n) || (n !in c.repo && n !in c.installed)
  }

  ghost predicate Queue(c: Catalog, v: seq<Stanza>) {
    Unique(v) && Genuine(c, v)
  }

  // ---------------------------------------------------------------------------------------------
  // Growing the queue
  // ---------------------------------------------------------------------------------------------

  lemma NamesGrow(v: seq<Stanza>, w: seq<Stanza>)
    requires v <= w
    ensures Names(v) <= Names(w)
  {
    forall n | n in Names(v) ensures n in Names(w) {
      var s :| s in v && s.name == n;
      var i :| 0 <= i < |v| && v[i] == s;
      assert w[i] == s;
    }
  }

  lemma Push(c: Catalog, v: seq<Stanza>, s: Stanza)
    requires Queue(c, v) && s.name !in Names(v)
    requires s.name in c.repo && s == c.repo[s.name] && !Satisfied(c, s.name) && !Improper(s.name)
    ensures Queue(c, v + [s]) && Names(v + [s]) == Names(v) + {s.name}
  {
    forall i | 0 <= i < |v| ensures v[i].name != s.name { assert v[i] in v; }
    assert s in v + [s];
  }

  /** One more resolved dependency: what held of the older packages still holds. */
  lemma Extend(c: Catalog, v: seq<Stanza>, w: seq<Stanza>, k: nat, open: set<string>)
    requires Queue(c, w) && v <= w && k <= |v| && ClosedFrom(c, v, k) && ClosedFrom(c, w, |v|)
    ensures ClosedFrom(c, w, k)
    ensures SortedFrom(v, k, open) && SortedFrom(w, |v|, open) ==> SortedFrom(w, k, open)
  {
    NamesGrow(v, w);
    forall i | k <= i < |w| ensures DepsHandled(c, w, w[i]) {
      if i < |v| {
        assert DepsHandled(c, v, v[i]);
        forall d | d in w[i].depends ensures Handled(c, w, d) { assert Handled(c, v, d); }
      }
    }
    if SortedFrom(v, k, open) && SortedFrom(w, |v|, open) {
      forall i, m | k <= i < |w| && 0 <= m < |w| && w[m].name in w[i].depends
        ensures m < i && w[m].name !in open
      {
        if i < |v| {
          assert DepsHandled(c, v, v[i]);
          assert Handled(c, v, w[m].name);
          QueuedEarlier(c, v, w, m);
        }
      }
    }
  }

  /** A name handled before was queued before, since satisfied names are never queued. */
  lemma QueuedEarlier(c: Catalog, v: seq<Stanza>, w: seq<Stanza>, m: nat)
    requires Queue(c, w) && v <= w && m < |w| && Handled(c, v, w[m].name)
    ensures m < |v|
  {
    assert !Satisfied(c, w[m].name);
    var s :| s in v && s.name == w[m].name;
    var i :| 0 <= i < |v| && v[i] == s;
    assert w[i].name == w[m].name;
  }

  // ---------------------------------------------------------------------------------------------
  // Moving a package behind its dependencies
  // ---------------------------------------------------------------------------------------------

  function Moved(v: seq<Stanza>, slot: nat): seq<Stanza>
    requires slot < |v|
  {
    v[..slot] + v[slot + 1..] + [v[slot]]
  }

  /** Where an index of the moved queue comes from. */
  function Origin(n: nat, slot: nat, i: nat): (o: nat)
    requires slot < n && i < n
    ensures o < n
  {
    if i < slot then i else if i + 1 < n then i + 1 else slot
  }

  lemma MovedAt(v: seq<Stanza>, slot: nat, i: nat)
    requires slot < |v| && i < |v|
    ensures |Moved(v, slot)| == |v| && Moved(v, slot)[i] == v[Origin(|v|, slot, i)]
  {
  }

  lemma MovedQueue(c: Catalog, v: seq<Stanza>, slot: nat)
    requires Queue(c, v) && slot < |v|
    ensures Queue(c, Moved(v, slot)) && Names(Moved(v, slot)) == Names(v)
  {
    var w := Moved(v, slot);
    forall i | 0 <= i < |w|
      ensures w[i].name in c.repo && w[i] == c.repo[w[i].name] && !Satisfied(c, w[i].name) && !Improper(w[i].name)
    {
      MovedAt(v, slot, i);
    }
    forall i, j | 0 <= i < j < |w| ensures w[i].name != w[j].name {
      MovedAt(v, slot, i);
      MovedAt(v, slot, j);
      var a, b := Origin(|v|, slot, i), Origin(|v|, slot, j);
      assert a != b;
      if a < b { assert v[a].name != v[b].name; } else { assert v[b].name != v[a].name; }
    }
    assert v == v[..slot] + [v[slot]] + v[slot + 1..];
    assert forall s :: s in v <==> s in w;
  }

  lemma MovedClosed(c: Catalog, v: seq<Stanza>, slot: nat)
    requires Queue(c, v) && slot < |v| && ClosedFrom(c, v, slot)
    ensures ClosedFrom(c, Moved(v, slot), slot)
  {
    var w := Moved(v, slot);
    MovedQueue(c, v, slot);
    forall i | slot <= i < |w| ensures DepsHandled(c, w, w[i]) {
      MovedAt(v, slot, i);
      assert DepsHandled(c, v, v[Origin(|v|, slot, i)]);
      forall d | d in w[i].depends ensures Handled(c, w, d) { assert Handled(c, v, d); }
    }
  }

  lemma MovedSorted(c: Catalog, v: seq<Stanza>, slot: nat, open: set<string>, rank: string -> nat)
    requires Queue(c, v) && slot < |v| && Ranked(c, rank)
    requires SortedFrom(v, slot + 1, open + {v[slot].name})
    requires forall o | o in open :: rank(o) > rank(v[slot].name)
    ensures SortedFrom(Moved(v, slot), slot, open)
  {
    var w := Moved(v, slot);
    forall i, m | slot <= i < |w| && 0 <= m < |w| && w[m].name in w[i].depends
      ensures m < i && w[m].name !in open
    {
      MovedAt(v, slot, i);
      MovedAt(v, slot, m);
      var a, b := Origin(|v|, slot, i), Origin(|v|, slot, m);
      if a == slot {
        assert rank(w[m].name) < rank(v[slot].name);
      } else {
        assert b < a && v[b].name !in open + {v[slot].name};
      }
    }
  }

  // ---------------------------------------------------------------------------------------------
  // resolve
  // ---------------------------------------------------------------------------------------------

  /** What a resolved name leaves: `v` is the queue before, `w` after, `open` the callers still at work. */
  ghost predicate Resolved(c: Catalog, v: seq<Stanza>, w: seq<Stanza>, name: string,
                           open: set<string>, rank: string -> nat, s: set<string>)
  {
    && v <= w && Handled(c, w, name) && ClosedFrom(c, w, |v|) && OnlyFrom(c, w, |v|, name, s)
    && (Ranked(c, rank) && (forall o | o in open :: rank(o) > rank(name)) ==> SortedFrom(w, |v|, open))
  }

  /** Half way: `st` is queued at the end of `before`, and its first `k` dependencies are resolved. */
  ghost predicate Working(c: Catalog, before: seq<Stanza>, st: Stanza, v: seq<Stanza>, k: nat,
                          open: set<string>, rank: string -> nat, s: set<string>)
    requires k <= |st.depends|
  {
    && before + [st] <= v && Queue(c, v) && ClosedFrom(c, v, |before| + 1)
    && (forall j | 0 <= j < k :: Handled(c, v, st.depends[j]))
    && OnlyFrom(c, v, |before|, st.name, s)
    && (Ranked(c, rank) && (forall o | o in open :: rank(o) > rank(st.name)) ==>
          SortedFrom(v, |before| + 1, open + {st.name}))
  }

  lemma WorkStep(c: Catalog, before: seq<Stanza>, st: Stanza, v: seq<Stanza>, w: seq<Stanza>, k: nat,
                 open: set<string>, rank: string -> nat, s: set<string>)
    requires k < |st.depends| && Working(c, before, st, v, k, open, rank, s)
    requires st.name in c.repo && st == c.repo[st.name] && Queue(c, w)
    requires Resolved(c, v, w, st.depends[k], open + {st.name}, rank, s)
    ensures Working(c, before, st, w, k + 1, open, rank, s)
  {
    hide Queue, SortedFrom, ClosedFrom, Satisfied;
    Extend(c, v, w, |before| + 1, open + {st.name});
    NamesGrow(v, w);
    forall j | 0 <= j < k + 1 ensures Handled(c, w, st.depends[j]) {
      if j < k { assert Handled(c, v, st.depends[j]); }
    }
    if Ranked(c, rank) && forall o | o in open :: rank(o) > rank(st.name) {
      assert rank(st.depends[k]) < rank(st.name);
      assert forall o | o in open + {st.name} :: rank(o) > rank(st.depends[k]);
    }
    if st.name in s && DepClosed(c, s) {
      assert st.depends[k] in s;
    }
  }

  lemma FinishWork(c: Catalog, before: seq<Stanza>, st: Stanza, v: seq<Stanza>,
                   open: set<string>, rank: string -> nat, s: set<string>)
    requires Working(c, before, st, v, |st.depends|, open, rank, s)
    requires st.name in c.repo && st == c.repo[st.name]
    ensures Queue(c, Moved(v, |before|))
    ensures Resolved(c, before, Moved(v, |before|), st.name, open, rank, s)
  {
    var slot := |before|;
    var w := Moved(v, slot);
    assert v[slot] == (before + [st])[slot] == st;
    MovedQueue(c, v, slot);
    FinishClosed(c, before, st, v);
    MovedAt(v, slot, |v| - 1);
    assert st in w;
    assert before <= w by { assert v[..slot] == before; }
    FinishOnly(c, v, slot, st.name, s);
    if Ranked(c, rank) && forall o | o in open :: rank(o) > rank(st.name) {
      MovedSorted(c, v, slot, open, rank);
    }
  }

  lemma FinishClosed(c: Catalog, before: seq<Stanza>, st: Stanza, v: seq<Stanza>)
    requires before + [st] <= v && Queue(c, v) && ClosedFrom(c, v, |before| + 1)
    requires forall j | 0 <= j < |st.depends| :: Handled(c, v, st.depends[j])
    ensures ClosedFrom(c, Moved(v, |before|), |before|)
  {
    assert v[|before|] == (before + [st])[|before|] == st;
    assert DepsHandled(c, v, st);
    assert ClosedFrom(c, v, |before|);
    MovedClosed(c, v, |before|);
  }

  lemma FinishOnly(c: Catalog, v: seq<Stanza>, slot: nat, name: string, s: set<string>)
    requires slot < |v| && OnlyFrom(c, v, slot, name, s)
    ensures OnlyFrom(c, Moved(v, slot), slot, name, s)
  {
    if name in s && DepClosed(c, s) {
      forall i | slot <= i < |v| ensures Moved(v, slot)[i].name in s { MovedAt(v, slot, i); }
    }
  }

  /** How many names of the repository are not queued. */
  ghost function RoomFor(c: Catalog, v: seq<Stanza>): nat {
    |c.repo.Keys - Names(v)|
  }

  lemma RoomShrinks(c: Catalog, before: seq<Stanza>, st: Stanza, v: seq<Stanza>)
    requires st.name in c.repo && st.name !in Names(before) && before + [st] <= v
    ensures RoomFor(c, v) < RoomFor(c, before)
  {
    NamesGrow(before + [st], v);
    NamesGrow(before, before + [st]);
    assert st in before + [st];
    assert c.repo.Keys - Names(v) <= c.repo.Keys - Names(before) - {st.name};
    Smaller(c.repo.Keys - Names(v), c.repo.Keys - Names(before) - {st.name});
  }

  lemma RoomKeeps(c: Catalog, v: seq<Stanza>, w: seq<Stanza>)
    requires v <= w
    ensures RoomFor(c, w) <= RoomFor(c, v)
  {
    NamesGrow(v, w);
    Smaller(c.repo.Keys - Names(w), c.repo.Keys - Names(v));
  }

  lemma Smaller(a: set<string>, b: set<string>)
    requires a <= b
    ensures |a| <= |b|
  {
    if a != {} {
      var x :| x in a;
      Smaller(a - {x}, b - {x});
    }
  }

  class InstallSet {
    const cat: Catalog
    const slots: array<Stanza>
    var count: nat

    ghost predicate Valid()
      reads this, slots
    {
      Good(cat) && count <= slots.Length && Queue(cat, slots[..count])
    }

    ghost function View(): seq<Stanza>
      requires Valid()
      reads this, slots
    {
      slots[..count]
    }

    constructor (cat: Catalog, max: nat)
      requires Good(cat)
      ensures Valid() && View() == [] && this.cat == cat && slots.Length == max && fresh(slots)
    {
      this.cat, count := cat, 0;
      slots := new Stanza[max](_ => Stanza("", "", "", []));
    }

    /** The names that can still be queued. */
    ghost function Room(): nat
      requires Valid()
      reads this, slots
    {
      RoomFor(cat, View())
    }

    /** The in-place shift that moves the package at `slot` to the end of the queue. */
    method MoveToEnd(slot: nat)
      requires slot < count <= slots.Length
      modifies slots
      ensures slots[..count] == Moved(old(slots[..count]), slot)
    {
      hide Moved;
      var st := slots[slot];
      ghost var was := slots[..count];
      var i := slot;
      while i < count - 1
        invariant slot <= i <= count - 1
        invariant forall k | 0 <= k < slot :: slots[k] == was[k]
        invariant forall k | slot <= k < i :: slots[k] == was[k + 1]
        invariant forall k | i <= k < count :: slots[k] == was[k]
      {
        slots[i] := slots[i + 1];
        i := i + 1;
      }
      slots[count - 1] := st;
      forall k: nat | k < count ensures |Moved(was, slot)| == count && slots[k] == Moved(was, slot)[k] {
        MovedAt(was, slot, k);
      }
    }

    /**
      resolve: terminates on every catalogue, cycles included, never queues a name twice, and on
      success leaves every dependency of what it queued queued or satisfied. Without cycles, every
      package then stands behind its queued dependencies. `open`, `rank` and `s` are arbitrary.
     */
    method Resolve(name: string, ghost open: set<string>, ghost rank: string -> nat, ghost s: set<string>)
      returns (ok: bool)
      requires Valid()
      modifies this, slots
      ensures Valid()
      ensures ok ==> Resolved(cat, old(View()), View(), name, open, rank, s)
      ensures !ok && name in s && DepClosed(cat, s) ==> Blocked(cat, s, count >= slots.Length)
      decreases Room(), 2
    {
      if !BareName(name) { return false; }
      if !cat.upgrade && name in cat.installed { return true; }
      var i := 0;
      while i < count
        invariant 0 <= i <= count
        invariant forall k | 0 <= k < i :: slots[k].name != name
      {
        if slots[i].name == name {
          assert slots[i] in View();
          return true;
        }
        i := i + 1;
      }
      if !cat.synced { return false; }
      if name !in cat.repo { return name in cat.installed; }
      var st := cat.repo[name];
      if name in cat.installed {
        var newer := VersionGt(st.version, cat.installed[name]);
        if !newer { return true; }
      }
      if count >= slots.Length { return false; }
      ok := QueueWithDeps(st, open, rank, s);
    }

    /** A package that is wanted: queued first, moved behind its dependencies once they are resolved. */
    method QueueWithDeps(st: Stanza, ghost open: set<string>, ghost rank: string -> nat, ghost s: set<string>)
      returns (ok: bool)
      requires Valid() && count < slots.Length
      requires st.name in cat.repo && st == cat.repo[st.name] && !Satisfied(cat, st.name) && !Improper(st.name)
      requires st.name !in Names(View())
      modifies this, slots
      ensures Valid()
      ensures ok ==> Resolved(cat, old(View()), View(), st.name, open, rank, s)
      ensures !ok && st.name in s && DepClosed(cat, s) ==> Blocked(cat, s, count >= slots.Length)
      decreases Room(), 1
    {
      hide Queue, Working, Resolved, Satisfied, Names, Moved, Improper;
      var slot := count;
      ghost var before := View();
      slots[slot], count := st, count + 1;
      Push(cat, before, st);
      assert slots[..count] == before + [st];
      StartWork(cat, before, st, open, rank, s);
      RoomShrinks(cat, before, st, View());
      ok := ResolveDeps(st, before, open, rank, s);
      if !ok { return; }
      ghost var v := View();
      WorkPrefix(cat, before, st, v, |st.depends|, open, rank, s);
      FinishWork(cat, before, st, v, open, rank, s);
      MoveToEnd(slot);
    }

    /** The dependencies of a queued package, one after the other. */
    method ResolveDeps(st: Stanza, ghost before: seq<Stanza>, ghost open: set<string>, ghost rank: string -> nat,
                       ghost s: set<string>)
      returns (ok: bool)
      requires st.name in cat.repo && st == cat.repo[st.name]
      requires Valid() && View() == before + [st] && Working(cat, before, st, View(), 0, open, rank, s)
      modifies this, slots
      ensures Valid() && (ok ==> Working(cat, before, st, View(), |st.depends|, open, rank, s))
      ensures !ok && st.name in s && DepClosed(cat, s) ==> Blocked(cat, s, count >= slots.Length)
      decreases Room() + 1, 0
    {
      hide Queue, Working, Resolved, Satisfied, Names, Good, RoomFor;
      var k := 0;
      while k < |st.depends|
        invariant 0 <= k <= |st.depends|
        invariant Valid() && Working(cat, before, st, View(), k, open, rank, s)
      {
        ghost var v := View();
        WorkPrefix(cat, before, st, v, k, open, rank, s);
        RoomKeeps(cat, before + [st], v);
        ok := Resolve(st.depends[k], open + {st.name}, rank, s);
        if !ok { return; }
        WorkStep(cat, before, st, v, View(), k, open, rank, s);
        k := k + 1;
      }
      ok := true;
    }

    /**
      The install set of cmd_install_named (one name) or cmd_upgrade (every installed one): on success
      no package is in it twice, every name asked for is queued or satisfied, so is every dependency,
      and without cycles the order is installable: dependencies first. Only what the names pull in is
      queued: it lies in every set that has them and the dependencies of its members.
     */
    method ResolveAll(names: seq<string>, ghost rank: string -> nat, ghost s: set<string>) returns (ok: bool)
      requires Valid() && View() == []
      modifies this, slots
      ensures Valid() && Unique(View()) && Genuine(cat, View())
      ensures ok ==> forall k | 0 <= k < |names| :: Handled(cat, View(), names[k])
      ensures ok ==> ClosedFrom(cat, View(), 0)
      ensures ok && Ranked(cat, rank) ==> SortedFrom(View(), 0, {})
      ensures ok && DepClosed(cat, s) && (forall n | n in names :: n in s) ==> Names(View()) <= s
      ensures !ok && DepClosed(cat, s) && (forall n | n in names :: n in s) ==> Blocked(cat, s, count >= slots.Length)
    {
      hide SortedFrom, ClosedFrom, Ranked, Satisfied, DepClosed;
      ok := true;
      Nothing(cat);
      for i := 0 to |names|
        invariant Valid() && ok
        invariant forall k | 0 <= k < i :: Handled(cat, View(), names[k])
        invariant ClosedFrom(cat, View(), 0)
        invariant Ranked(cat, rank) ==> SortedFrom(View(), 0, {})
        invariant DepClosed(cat, s) && (forall n | n in names :: n in s) ==> Names(View()) <= s
      {
        ghost var v := View();
        ok := Resolve(names[i], {}, rank, s);
        if !ok { return; }
        NamesFrom(v, View(), s);
        Extend(cat, v, View(), 0, {});
        NamesGrow(v, View());
        assert forall k | 0 <= k < i :: Handled(cat, v, names[k]) ==> Handled(cat, View(), names[k]);
      }
    }
  }

  lemma NamesFrom(v: seq<Stanza>, w: seq<Stanza>, s: set<string>)
    requires v <= w
    ensures Names(v) <= s && (forall i | |v| <= i < |w| :: w[i].name in s) ==> Names(w) <= s
  {
    if Names(v) <= s && forall i | |v| <= i < |w| :: w[i].name in s {
      forall n | n in Names(w) ensures n in s {
        var st :| st in w && st.name == n;
        var i :| 0 <= i < |w| && w[i] == st;
        if i < |v| { assert v[i] in v; }
      }
    }
  }

  lemma Nothing(c: Catalog)
    ensures ClosedFrom(c, [], 0) && SortedFrom([], 0, {})
  {
  }

  lemma StartWork(c: Catalog, before: seq<Stanza>, st: Stanza, open: set<string>, rank: string -> nat, s: set<string>)
    requires Queue(c, before + [st])
    ensures Working(c, before, st, before + [st], 0, open, rank, s)
  {
  }

  lemma WorkPrefix(c: Catalog, before: seq<Stanza>, st: Stanza, v: seq<Stanza>, k: nat,
                   open: set<string>, rank: string -> nat, s: set<string>)
    requires k <= |st.depends| && Working(c, before, st, v, k, open, rank, s)
    ensures before + [st] <= v && |v| > |before|
  {
  }
}
