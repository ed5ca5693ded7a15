/**
  Any sequence of puts and removals, each reading the file and rewriting it, failed and interrupted ones included,
  against a finite map.
 */
module DatabaseRuns {
  import opened Common
  import opened Database

  datatype Call = PutCall(e: Entry) | RemoveCall(id: string)

  /** The text after a call that goes through. */
  function TextAfter(text: string, c: Call): string {
    var t := Load(text, CAPACITY);
    match c
    case PutCall(e) => if e.id == "" || |Upserted(t, e)| > CAPACITY then text else Render(Upserted(t, e))
    case RemoveCall(id) => if id == "" || Lookup(t, id).None? then text else Render(Others(t, id))
  }

  /** A call with its outcome: whether it took effect, or failed or was cut off before. */
  datatype Step = Step(call: Call, took: bool)

  function TextsAfter(text: string, steps: seq<Step>): string
    decreases |steps|
  {
    if steps == [] then text
    else TextsAfter(if steps[0].took then TextAfter(text, steps[0].call) else text, steps[1..])
  }

  type Packages = map<string, Entry>

  function MapAfter(m: Packages, c: Call): Packages {
    match c
    case PutCall(e) => if e.id == "" || (e.id !in m && |m| >= CAPACITY) then m else m[e.id := e]
    case RemoveCall(id) => m - {id}
  }

  function MapsAfter(m: Packages, steps: seq<Step>): Packages
    decreases |steps|
  {
    if steps == [] then m
    else MapsAfter(if steps[0].took then MapAfter(m, steps[0].call) else m, steps[1..])
  }

  predicate Distinct(t: seq<Entry>) {
    forall i, j | 0 <= i < j < |t| :: t[i].id != t[j].id
  }

  /** The table holds exactly the map, each id once. */
  ghost predicate Represents(t: seq<Entry>, m: Packages) {
    && Distinct(t) && |t| == |m| <= CAPACITY && "" !in m
    && forall id :: Lookup(t, id) == if id in m then Some(m[id]) else None
  }

  lemma {:induction false} UpsertedDistinct(t: seq<Entry>, e: Entry)
    requires Distinct(t)
    ensures Distinct(Upserted(t, e))
    decreases |t|
  {
    if t != [] && t[0].id != e.id {
      UpsertedDistinct(t[1..], e);
    }
  }

  lemma {:induction false} OthersDistinct(t: seq<Entry>, id: string)
    requires Distinct(t)
    ensures Distinct(Others(t, id))
    ensures |Others(t, id)| == |t| - if Lookup(t, id).Some? then 1 else 0
    decreases |t|
  {
    if t != [] {
      OthersDistinct(t[1..], id);
      if t[0].id == id {
        LookupNone(t[1..], id);
      }
    }
  }

  lemma PutRepresents(t: seq<Entry>, m: Packages, e: Entry)
    requires Represents(t, m) && e.id != "" && |Upserted(t, e)| <= CAPACITY
    ensures Represents(Upserted(t, e), m[e.id := e])
  {
    hide Lookup, Upserted;
    UpsertedDistinct(t, e);
    var next := Upserted(t, e);
    UpsertedLookup(t, e, "");
    forall id ensures Lookup(next, id) == if id in m[e.id := e] then Some(m[e.id := e][id]) else None {
      UpsertedLookup(t, e, id);
    }
  }

  lemma RemoveRepresents(t: seq<Entry>, m: Packages, id: string)
    requires Represents(t, m)
    ensures Represents(Others(t, id), m - {id})
  {
    hide Lookup, Others;
    OthersDistinct(t, id);
    var next := Others(t, id);
    assert (m - {id}).Keys == m.Keys - {id};
    forall k ensures Lookup(next, k) == if k in m - {id} then Some((m - {id})[k]) else None {
      OthersLookup(t, id, k);
    }
  }

  lemma CallRepresents(text: string, m: Packages, c: Call)
    requires Represents(Load(text, CAPACITY), m) && (c.PutCall? ==> Clean(c.e))
    ensures Represents(Load(TextAfter(text, c), CAPACITY), MapAfter(m, c))
  {
    var t := Load(text, CAPACITY);
    LoadedClean(text, CAPACITY);
    hide Lookup, Others, Load, Render, Upserted, Clean;
    match c
    case PutCall(e) =>
      UpsertedLookup(t, e, e.id);
      if e.id != "" && |Upserted(t, e)| <= CAPACITY {
        PutReadsBack(t, e);
        PutRepresents(t, m, e);
      }
    case RemoveCall(id) =>
      if id in m {
        RemoveReadsBack(t, id);
        RemoveRepresents(t, m, id);
      } else {
        assert m - {id} == m;
      }
  }

  predicate CleanSteps(steps: seq<Step>) {
    forall i | 0 <= i < |steps| && steps[i].call.PutCall? :: Clean(steps[i].call.e)
  }

  /** From any file that represents a map, every sequence of calls and outcomes keeps representing it. */
  lemma {:induction false} RunRepresents(text: string, m: Packages, steps: seq<Step>)
    requires Represents(Load(text, CAPACITY), m) && CleanSteps(steps)
    ensures Represents(Load(TextsAfter(text, steps), CAPACITY), MapsAfter(m, steps))
    decreases |steps|
  {
    hide Represents, TextAfter, MapAfter, Load, Clean;
    if steps != [] {
      var Step(c, took) := steps[0];
      if took {
        CallRepresents(text, m, c);
      }
      RunRepresents(if took then TextAfter(text, c) else text, if took then MapAfter(m, c) else m, steps[1..]);
    }
  }

  lemma {:induction false} StepLast(text: string, steps: seq<Step>, s: Step)
    ensures TextsAfter(text, steps + [s]) ==
      var u := TextsAfter(text, steps); if s.took then TextAfter(u, s.call) else u
    decreases |steps|
  {
    hide TextAfter;
    if steps == [] {
      assert steps + [s] == [s] && [s][1..] == [];
    } else {
      assert (steps + [s])[1..] == steps[1..] + [s];
      StepLast(if steps[0].took then TextAfter(text, steps[0].call) else text, steps[1..], s);
    }
  }

  /** A missing file reads like an empty one. */
  ghost function Text(file: Option<string>): string {
    if file.None? then "" else file.value
  }

  /** One call on the store: the text it leaves is the old one or the one that the call means. */
  method Perform(store: Store, c: Call) returns (s: Status, ghost took: bool)
    modifies store
    ensures Text(store.file) == if took then TextAfter(old(Text(store.file)), c) else old(Text(store.file))
    ensures s == Done || store.Undisturbed() ==> took
    ensures s == Failed || s == Absent ==> Text(store.file) == old(Text(store.file))
    ensures old(store.refusals) <= store.refusals && old(store.losses) <= store.losses
  {
    hide Load, Render, Upserted, Others, Lookup, Clean;
    assert store.Table() == Load(Text(store.file), CAPACITY) by { LoadStops("", CAPACITY); }
    ghost var was := store.file;
    match c {
      case PutCall(e) => s := store.Put(e);
      case RemoveCall(id) => s := store.Remove(id);
    }
    took := s == Done || store.file != was || store.Undisturbed();
  }

  /**
    Calls on the store one after the other, with whatever failures and interruptions: from a file that represents a
    map, it ends with one that represents the map after the calls that took effect. Those that reported success are
    among them, and if no call of the file system fails they all are.
   */
  method Run(store: Store, calls: seq<Call>, ghost m: Packages) returns (results: seq<Status>, ghost steps: seq<Step>)
    requires Represents(Load(Text(store.file), CAPACITY), m)
    requires forall i | 0 <= i < |calls| && calls[i].PutCall? :: Clean(calls[i].e)
    modifies store
    ensures |steps| == |results| == |calls| && forall i | 0 <= i < |calls| :: steps[i].call == calls[i]
    ensures forall i | 0 <= i < |calls| :: results[i] == Done || store.Undisturbed() ==> steps[i].took
    ensures Represents(Load(Text(store.file), CAPACITY), MapsAfter(m, steps))
  {
    hide Represents, Load, TextAfter, MapAfter, Clean;
    results, steps := [], [];
    ghost var text := Text(store.file);
    for i := 0 to |calls|
      invariant |steps| == |results| == i && forall k | 0 <= k < i :: steps[k].call == calls[k]
      invariant forall k | 0 <= k < i :: results[k] == Done || store.Undisturbed() ==> steps[k].took
      invariant old(store.refusals) <= store.refusals && old(store.losses) <= store.losses
      invariant Text(store.file) == TextsAfter(text, steps)
    {
      var s;
      ghost var took;
      s, took := Perform(store, calls[i]);
      StepLast(text, steps, Step(calls[i], took));
      results, steps := results + [s], steps + [Step(calls[i], took)];
    }
    RunRepresents(text, m, steps);
  }

  /** From an empty file, the database is a map of at most 256 ids. */
  lemma EmptyRun(steps: seq<Step>)
    requires CleanSteps(steps)
    ensures Represents(Load(TextsAfter("", steps), CAPACITY), MapsAfter(map[], steps))
    ensures |MapsAfter(map[], steps)| <= CAPACITY
  {
    hide MapsAfter, TextsAfter;
    LoadStops("", CAPACITY);
    assert Represents([], map[]);
    RunRepresents("", map[], steps);
  }
}
