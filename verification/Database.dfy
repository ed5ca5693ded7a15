/**
  The installed-package database of user/bin/herald/db.c: a text file with one line of four TAB-separated
  fields per package, read whole and rewritten whole through a temporary file and a rename.
 */
module Database {
  import opened Common

  datatype Entry = Entry(id: string, version: string, exec: string, sha: string)

  const CAPACITY: nat := 256
  const LINE: nat := 511        // what one read of a 512-byte buffer can hold

  // ---------------------------------------------------------------------------------------------
  // Text
  // ---------------------------------------------------------------------------------------------

  /** The first position of a character, or the length. */
  function IndexOf(s: string, c: char): (i: nat)
    ensures i <= |s| && (i < |s| ==> s[i] == c) && forall k | 0 <= k < i :: s[k] != c
  {
    if s == "" || s[0] == c then 0 else 1 + IndexOf(s[1..], c)
  }

  /** A field the file can hold: it fits its array and has none of the characters that mean something. */
  predicate CleanField(s: string, size: nat) {
    |s| < size && forall i | 0 <= i < |s| :: s[i] != '\t' && s[i] != '\r' && s[i] != '\n' && s[i] != '\0'
  }

  predicate Clean(e: Entry) {
    CleanField(e.id, 64) && CleanField(e.version, 32) && CleanField(e.exec, 64) && CleanField(e.sha, 65)
  }

  function Line(e: Entry): string {
    e.id + "\t" + e.version + "\t" + e.exec + "\t" + e.sha
  }

  function Render(table: seq<Entry>): string {
    if table == [] then "" else Line(table[0]) + "\n" + Render(table[1..])
  }

  function Fields(line: string): (fs: seq<string>)
    ensures fs != []
  {
    var i := IndexOf(line, '\t');
    if i == |line| then [line] else [line[..i]] + Fields(line[i + 1..])
  }

  /** Four fields that fit, or nothing. */
  function Parse(line: string): Option<Entry> {
    var fs := Fields(line);
    if line == "" || |fs| != 4 || |fs[0]| >= 64 || |fs[1]| >= 32 || |fs[2]| >= 64 || |fs[3]| >= 65 then None
    else Some(Entry(fs[0], fs[1], fs[2], fs[3]))
  }

  /** What one read takes: up to and with the newline, or as much as the buffer holds. */
  function ReadLength(text: string): (n: nat)
    ensures n <= |text| && n <= LINE && (text != "" ==> n > 0)
  {
    var i := IndexOf(text, '\n');
    if i < |text| && i + 1 <= LINE then i + 1 else if |text| < LINE then |text| else LINE
  }

  /** Past the next newline. */
  function Drained(text: string): (rest: string)
    ensures |rest| <= |text|
  {
    var i := IndexOf(text, '\n');
    if i == |text| then "" else text[i + 1..]
  }

  /** A whole line without a zero byte was read. */
  predicate WholeLine(read: string) {
    read != "" && IndexOf(read, '\n') == |read| - 1 && IndexOf(read, '\0') == |read|
  }

  /** Without its newline, and cut at a carriage return. */
  function LineText(read: string): string
    requires read != ""
  {
    var line := read[..|read| - 1];
    line[..IndexOf(line, '\r')]
  }

  /** At most `max` entries, lines that are not records skipped. */
  function Load(text: string, max: nat): (table: seq<Entry>)
    ensures |table| <= max
    decreases |text|
  {
    if text == "" || max == 0 then []
    else
      var n := ReadLength(text);
      var read, rest := text[..n], text[n..];
      if !WholeLine(read) then Load(Drained(rest), max)
      else
        match Parse(LineText(read))
        case None => Load(rest, max)
        case Some(e) => [e] + Load(rest, max - 1)
  }

  // ---------------------------------------------------------------------------------------------
  // Round trip
  // ---------------------------------------------------------------------------------------------

  predicate Without(s: string, c: char) {
    forall i | 0 <= i < |s| :: s[i] != c
  }

  lemma {:induction false} IndexAfter(a: string, c: char, b: string)
    requires Without(a, c)
    ensures IndexOf(a + [c] + b, c) == |a|
  {
    var s := a + [c] + b;
    assert s[|a|] == c;
    assert forall k | 0 <= k < |a| :: s[k] == a[k];
  }

  lemma IndexNone(a: string, c: char)
    requires Without(a, c)
    ensures IndexOf(a, c) == |a|
  {
  }

  lemma FieldsMore(a: string, b: string)
    requires Without(a, '\t')
    ensures Fields(a + "\t" + b) == [a] + Fields(b)
  {
    IndexAfter(a, '\t', b);
    var s := a + "\t" + b;
    assert s[..|a|] == a && s[|a| + 1..] == b;
  }

  lemma FieldsLast(a: string)
    requires Without(a, '\t')
    ensures Fields(a) == [a]
  {
    IndexNone(a, '\t');
  }

  lemma LineFields(e: Entry)
    requires Clean(e)
    ensures Fields(Line(e)) == [e.id, e.version, e.exec, e.sha]
  {
    hide Fields;
    var c := e.exec + "\t" + e.sha;
    var b := e.version + "\t" + c;
    assert Line(e) == e.id + "\t" + b;
    FieldsMore(e.id, b);
    FieldsMore(e.version, c);
    FieldsMore(e.exec, e.sha);
    FieldsLast(e.sha);
  }

  lemma LineParses(e: Entry)
    requires Clean(e)
    ensures Parse(Line(e)) == Some(e)
  {
    hide Fields;
    LineFields(e);
  }

  lemma LineClean(e: Entry)
    requires Clean(e)
    ensures |Line(e)| <= 225 && Without(Line(e), '\n') && Without(Line(e), '\r') && Without(Line(e), '\0')
  {
  }

  lemma LineReads(e: Entry, rest: string)
    requires Clean(e)
    ensures var text, read := Line(e) + "\n" + rest, Line(e) + "\n";
      && ReadLength(text) == |read| && text[..|read|] == read && text[|read|..] == rest
      && WholeLine(read) && LineText(read) == Line(e)
  {
    hide Line, IndexOf;
    var line := Line(e);
    var text, read := line + "\n" + rest, line + "\n";
    LineClean(e);
    IndexAfter(line, '\n', rest);
    IndexAfter(line, '\n', "");
    assert read == line + "\n" + "";
    IndexNone(read, '\0');
    assert read[..|read| - 1] == line;
    IndexNone(line, '\r');
    assert line[..|line|] == line;
  }

  lemma LoadMore(e: Entry, rest: string, max: nat)
    requires Clean(e) && max > 0
    ensures Load(Line(e) + "\n" + rest, max) == [e] + Load(rest, max - 1)
  {
    hide Clean, Line, ReadLength, WholeLine, LineText, Parse;
    LineReads(e, rest);
    LineParses(e);
  }

  /** Loading what was written gives the same table. */
  lemma {:induction false} LoadRendered(table: seq<Entry>, max: nat)
    requires |table| <= max && forall i | 0 <= i < |table| :: Clean(table[i])
    ensures Load(Render(table), max) == table
  {
    hide Clean, Line, Load;
    if table == [] {
      LoadStops("", max);
    } else {
      LoadMore(table[0], Render(table[1..]), max);
      LoadRendered(table[1..], max - 1);
      assert table == [table[0]] + table[1..];
    }
  }

  lemma LoadStops(text: string, max: nat)
    requires text == "" || max == 0
    ensures Load(text, max) == []
  {
  }

  lemma {:induction false} FieldsWithout(line: string, c: char)
    requires Without(line, c)
    ensures forall i | 0 <= i < |Fields(line)| :: Without(Fields(line)[i], c)
    decreases |line|
  {
    var i := IndexOf(line, '\t');
    if i < |line| {
      FieldsWithout(line[i + 1..], c);
    }
  }

  lemma {:induction false} FieldsNoTab(line: string)
    ensures forall i | 0 <= i < |Fields(line)| :: Without(Fields(line)[i], '\t')
    decreases |line|
  {
    var i := IndexOf(line, '\t');
    if i < |line| {
      FieldsNoTab(line[i + 1..]);
    }
  }

  lemma ReadParses(read: string)
    requires WholeLine(read) && Parse(LineText(read)).Some?
    ensures Clean(Parse(LineText(read)).value)
  {
    hide Fields;
    var line := LineText(read);
    FieldsNoTab(line);
    FieldsWithout(line, '\n');
    FieldsWithout(line, '\r');
    FieldsWithout(line, '\0');
  }

  /** One line of the file, and the rest. */
  lemma LoadStep(text: string, max: nat)
    requires text != "" && max > 0
    ensures Load(text, max) ==
      var n := ReadLength(text);
      var read, rest := text[..n], text[n..];
      if !WholeLine(read) then Load(Drained(rest), max)
      else if Parse(LineText(read)).None? then Load(rest, max)
      else [Parse(LineText(read)).value] + Load(rest, max - 1)
  {
    hide Parse, WholeLine, LineText, ReadLength, Drained;
  }

  ghost predicate AllClean(t: seq<Entry>) {
    forall i | 0 <= i < |t| :: Clean(t[i])
  }

  lemma CleanFront(e: Entry, t: seq<Entry>)
    requires Clean(e) && AllClean(t)
    ensures AllClean([e] + t)
  {
    hide Clean;
  }

  /** Whatever the file holds, only clean entries come out of it. */
  lemma {:induction false} LoadedClean(text: string, max: nat)
    ensures AllClean(Load(text, max))
    decreases |text|
  {
    hide Clean, Parse, WholeLine, LineText, ReadLength, AllClean, Drained;
    if text == "" || max == 0 {
      assert AllClean([]) by { NoneUnclean(); }
    } else {
      hide Load;
      LoadStep(text, max);
      var n := ReadLength(text);
      var read, rest := text[..n], text[n..];
      if !WholeLine(read) {
        LoadedClean(Drained(rest), max);
      } else if Parse(LineText(read)).None? {
        LoadedClean(rest, max);
      } else {
        ReadParses(read);
        LoadedClean(rest, max - 1);
        CleanFront(Parse(LineText(read)).value, Load(rest, max - 1));
      }
    }
  }

  lemma NoneUnclean()
    ensures AllClean([])
  {
  }

  /** A table survives being written and read exactly when all its entries are clean. */
  lemma RoundTripExactly(table: seq<Entry>)
    requires |table| <= CAPACITY
    ensures Load(Render(table), CAPACITY) == table <==> forall i | 0 <= i < |table| :: Clean(table[i])
  {
    if forall i | 0 <= i < |table| :: Clean(table[i]) {
      LoadRendered(table, CAPACITY);
    } else {
      LoadedClean(Render(table), CAPACITY);
    }
  }

  // ---------------------------------------------------------------------------------------------
  // The table
  // ---------------------------------------------------------------------------------------------

  /** The first entry of that name. */
  function Lookup(table: seq<Entry>, id: string): Option<Entry> {
    if table == [] then None else if table[0].id == id then Some(table[0]) else Lookup(table[1..], id)
  }

  lemma {:induction false} LookupNone(table: seq<Entry>, id: string)
    ensures Lookup(table, id).None? <==> forall i | 0 <= i < |table| :: table[i].id != id
    decreases |table|
  {
    if table != [] {
      LookupNone(table[1..], id);
    }
  }

  /** The new table has `e` under its id and is the old one everywhere else. */
  ghost predicate Added(before: seq<Entry>, after: seq<Entry>, e: Entry) {
    forall id :: Lookup(after, id) == if id == e.id then Some(e) else Lookup(before, id)
  }

  /** The new table has nothing under `id` and is the old one everywhere else. */
  ghost predicate Removed(before: seq<Entry>, after: seq<Entry>, id: string) {
    forall k :: Lookup(after, k) == if k == id then None else Lookup(before, k)
  }

  /** In the place of the first entry of its name, or at the end. */
  function Upserted(table: seq<Entry>, e: Entry): (t: seq<Entry>)
    ensures forall i | 0 <= i < |t| :: t[i] == e || t[i] in table
  {
    if table == [] then [e]
    else if table[0].id == e.id then [e] + table[1..]
    else [table[0]] + Upserted(table[1..], e)
  }

  lemma {:induction false} UpsertedLookup(table: seq<Entry>, e: Entry, id: string)
    ensures Lookup(Upserted(table, e), id) == if id == e.id then Some(e) else Lookup(table, id)
    ensures |Upserted(table, e)| == |table| + if Lookup(table, e.id).None? then 1 else 0
    decreases |table|
  {
    if table != [] {
      UpsertedLookup(table[1..], e, id);
      if table[0].id == e.id {
        assert Upserted(table, e)[1..] == table[1..];
      } else {
        assert Upserted(table, e)[1..] == Upserted(table[1..], e);
      }
    }
  }

  lemma {:induction false} UpsertedAt(table: seq<Entry>, i: nat, e: Entry)
    requires i <= |table| && forall k | 0 <= k < i :: table[k].id != e.id
    requires i < |table| ==> table[i].id == e.id
    ensures Upserted(table, e) == if i < |table| then table[i := e] else table + [e]
    decreases |table|
  {
    if i > 0 {
      UpsertedAt(table[1..], i - 1, e);
      if i < |table| {
        assert table[i := e] == [table[0]] + table[1..][i - 1 := e];
      } else {
        assert table + [e] == [table[0]] + (table[1..] + [e]);
      }
    } else if table != [] {
      assert table[0 := e] == [e] + table[1..];
    } else {
      assert table + [e] == [e];
    }
  }

  /** The entries of other names, in order. */
  function Others(table: seq<Entry>, id: string): (t: seq<Entry>)
    ensures |t| <= |table| && forall i | 0 <= i < |t| :: t[i] in table
  {
    if table == [] then []
    else (if table[0].id == id then [] else [table[0]]) + Others(table[1..], id)
  }

  lemma {:induction false} OthersLookup(table: seq<Entry>, id: string, k: string)
    ensures Lookup(Others(table, id), k) == if k == id then None else Lookup(table, k)
    decreases |table|
  {
    if table != [] {
      OthersLookup(table[1..], id, k);
      if table[0].id == id {
        assert Others(table, id) == Others(table[1..], id);
      } else {
        assert Others(table, id)[1..] == Others(table[1..], id);
      }
    }
  }

  lemma {:induction false} OthersLast(table: seq<Entry>, e: Entry, id: string)
    ensures Others(table + [e], id) == Others(table, id) + if e.id == id then [] else [e]
    decreases |table|
  {
    if table == [] {
      assert table + [e] == [e];
    } else {
      assert (table + [e])[1..] == table[1..] + [e];
      OthersLast(table[1..], e, id);
    }
  }

  /** Everything a database file can be read as. */
  ghost predicate Readable(table: seq<Entry>) {
    |table| <= CAPACITY && AllClean(table)
  }

  /** A put of a clean entry, read back: the map with `e` added. */
  lemma PutReadsBack(table: seq<Entry>, e: Entry)
    requires Readable(table) && Clean(e) && |Upserted(table, e)| <= CAPACITY
    ensures Load(Render(Upserted(table, e)), CAPACITY) == Upserted(table, e) && Added(table, Upserted(table, e), e)
  {
    hide Clean, Lookup, Load, Render;
    var t := Upserted(table, e);
    assert forall i | 0 <= i < |t| :: Clean(t[i]);
    LoadRendered(t, CAPACITY);
    forall id ensures Lookup(t, id) == if id == e.id then Some(e) else Lookup(table, id) {
      UpsertedLookup(table, e, id);
    }
  }

  /** A removal, read back: the map without `id`. */
  lemma RemoveReadsBack(table: seq<Entry>, id: string)
    requires Readable(table)
    ensures Load(Render(Others(table, id)), CAPACITY) == Others(table, id) && Removed(table, Others(table, id), id)
  {
    hide Clean, Lookup, Load, Render;
    var t := Others(table, id);
    assert forall i | 0 <= i < |t| :: Clean(t[i]);
    LoadRendered(t, CAPACITY);
    forall k ensures Lookup(t, k) == if k == id then None else Lookup(table, k) {
      OthersLookup(table, id, k);
    }
  }

  /** The table when `t` has been read and `text` is left. */
  ghost function ReadSoFar(t: seq<Entry>, text: string): seq<Entry>
    requires |t| <= CAPACITY
  {
    t + Load(text, CAPACITY - |t|)
  }

  /** One turn of the reading loop. */
  lemma ReadOn(t: seq<Entry>, text: string, read: string, rest: string)
    requires text != "" && |t| < CAPACITY && read == text[..ReadLength(text)] && rest == text[ReadLength(text)..]
    ensures ReadSoFar(t, text) ==
      if !WholeLine(read) then ReadSoFar(t, Drained(rest))
      else if Parse(LineText(read)).None? then ReadSoFar(t, rest)
      else ReadSoFar(t + [Parse(LineText(read)).value], rest)
  {
    hide Parse, WholeLine, LineText, ReadLength, Drained;
    if WholeLine(read) && Parse(LineText(read)).Some? {
      var e := Parse(LineText(read)).value;
      assert t + ([e] + Load(rest, CAPACITY - |t| - 1)) == (t + [e]) + Load(rest, CAPACITY - |t| - 1);
    }
  }

  lemma ReadEnds(t: seq<Entry>, text: string)
    requires |t| <= CAPACITY
    ensures text == "" || |t| == CAPACITY ==> ReadSoFar(t, text) == t
    ensures t == [] ==> ReadSoFar(t, text) == Load(text, CAPACITY)
  {
  }

  /** Line by line, until the text or the table is at its end. */
  method LoadAll(all: string) returns (t: seq<Entry>)
    ensures t == Load(all, CAPACITY)
  {
    hide Parse, WholeLine, LineText, ReadLength, Drained, ReadSoFar, Load;
    var text := all;
    t := [];
    ReadEnds(t, text);
    while text != "" && |t| < CAPACITY
      invariant |t| <= CAPACITY && ReadSoFar(t, text) == Load(all, CAPACITY)
      decreases |text|
    {
      var n := ReadLength(text);
      var read, rest := text[..n], text[n..];
      ReadOn(t, text, read, rest);
      if !WholeLine(read) {
        text := Drained(rest);
      } else {
        var e := Parse(LineText(read));
        if e.Some? {
          t := t + [e.value];
        }
        text := rest;
      }
    }
    ReadEnds(t, text);
  }

  datatype Status = Done | Absent | Failed | Interrupted

  /** What a call of the file system comes back with, if it does. */
  datatype Answer = Granted | Refused | PowerLoss

  /** The entries with another id, and whether there was one with this. */
  method Filter(t: seq<Entry>, id: string) returns (out: seq<Entry>, removed: bool)
    ensures out == Others(t, id) && (removed <==> Lookup(t, id).Some?)
  {
    hide Lookup;
    out, removed := [], false;
    var i := 0;
    while i < |t|
      invariant 0 <= i <= |t| && out == Others(t[..i], id)
      invariant removed <==> exists k | 0 <= k < i :: t[k].id == id
    {
      assert t[..i + 1] == t[..i] + [t[i]];
      OthersLast(t[..i], t[i], id);
      if t[i].id == id {
        removed := true;
      } else {
        out := out + [t[i]];
      }
      i := i + 1;
    }
    assert t[..|t|] == t;
    LookupNone(t, id);
  }

  class Store {
    var file: Option<string>        // the database file, if there is one
    var temporary: Option<string>   // the file it is rewritten through

    /** What the file says, whatever is in it. */
    ghost function Table(): (t: seq<Entry>)
      reads this
      ensures Readable(t)
    {
      if file.None? then [] else
        LoadedClean(file.value, CAPACITY);
        Load(file.value, CAPACITY)
    }

    /** How many calls the file system has refused, and how often the power has gone. */
    ghost var refusals: nat
    ghost var losses: nat

    method Ask() returns (a: Answer)
      modifies `refusals, `losses
      ensures refusals == old(refusals) + if a == Refused then 1 else 0
      ensures losses == old(losses) + if a == PowerLoss then 1 else 0
    {
      a := *;
      if a == Refused {
        refusals := refusals + 1;
      } else if a == PowerLoss {
        losses := losses + 1;
      }
    }

    /** No call was refused and the power stayed. */
    twostate predicate Undisturbed()
      reads `refusals, `losses
    {
      refusals == old(refusals) && losses == old(losses)
    }

    /** What an operation reports if it gets no further than the file system lets it. */
    twostate predicate Reports(s: Status)
      reads `refusals, `losses
    {
      && old(refusals) <= refusals && old(losses) <= losses
      && (s == Interrupted <==> losses > old(losses))
      && (refusals > old(refusals) ==> s == Failed)
    }

    /** Reads the table; the file may be unreadable. */
    method Read() returns (s: Status, entries: seq<Entry>)
      modifies `refusals, `losses
      ensures Reports(s) && s != Absent && (s == Done <==> Undisturbed())
      ensures s == Done ==> entries == Table()
    {
      entries := [];
      if file.None? {
        return Done, [];
      }
      var a := Ask();
      if a != Granted {
        return if a == Refused then Failed else Interrupted, [];
      }
      entries := LoadAll(file.value);
      return Done, entries;
    }

    /**
      Writes the temporary file line by line and renames it. Any step may fail, and the power may go between
      any two: the file is never anything but the old or the new text, and it is the new one if nothing happens.
     */
    method WriteAll(entries: seq<Entry>) returns (s: Status)
      modifies this
      ensures Reports(s) && s != Absent && (s == Done <==> Undisturbed())
      ensures file == Some(Render(entries)) || file == old(file)
      ensures s == Done ==> file == Some(Render(entries)) && temporary.None?
      ensures s == Failed ==> file == old(file) && temporary.None?
    {
      hide Line;
      temporary := None;
      var a := Ask();
      if a != Granted {
        return if a == Refused then Failed else Interrupted;
      }
      temporary := Some("");
      var i := 0;
      while i < |entries|
        invariant 0 <= i <= |entries| && file == old(file) && Undisturbed()
        invariant temporary == Some(Render(entries[..i]))
      {
        a := Ask();
        if a == PowerLoss {
          return Interrupted;
        }
        if a == Refused {
          temporary := None;
          return Failed;
        }
        RenderLast(entries[..i], entries[i]);
        assert entries[..i + 1] == entries[..i] + [entries[i]];
        temporary := Some(temporary.value + Line(entries[i]) + "\n");
        i := i + 1;
      }
      assert entries[..|entries|] == entries;
      a := Ask();
      if a == Refused {
        temporary := None;
        return Failed;
      }
      var renamed: bool := *;
      if a == Granted || renamed {
        file, temporary := temporary, None;
      }
      return if a == Granted then Done else Interrupted;
    }

    method Find(id: string) returns (s: Status, found: Option<Entry>)
      modifies `refusals, `losses
      ensures Reports(s) && s != Absent && (s == Done <==> Undisturbed())
      ensures s == Done ==> found == Lookup(Table(), id)
    {
      found := None;
      var t;
      s, t := Read();
      if s != Done {
        return;
      }
      var i := 0;
      while i < |t|
        invariant 0 <= i <= |t| && Lookup(t[i..], id) == Lookup(t, id)
      {
        if t[i].id == id {
          return Done, Some(t[i]);
        }
        i := i + 1;
      }
      return Done, None;
    }

    /**
      Inserts or replaces; a full table refuses a new id. Any entry may be written; a clean one is then in the
      table and everything else in it is as before.
     */
    method Put(e: Entry) returns (s: Status)
      modifies this
      ensures file == old(file) || file == Some(Render(Upserted(old(Table()), e)))
      ensures s == Done ==> file == Some(Render(Upserted(old(Table()), e)))
      ensures s == Done && Clean(e) ==> Added(old(Table()), Table(), e)
      ensures s == Failed ==> file == old(file)
      ensures Reports(s) && s != Absent
      ensures s == Done <==> Undisturbed() && e.id != "" && |Upserted(old(Table()), e)| <= CAPACITY
      ensures e.id == "" || |Upserted(old(Table()), e)| > CAPACITY ==> file == old(file)
    {
      hide Clean, Added, Upserted, Load, Render, Readable;
      if e.id == "" {
        return Failed;
      }
      var t;
      s, t := Read();
      if s != Done {
        return;
      }
      ghost var before := t;
      var i := 0;
      while i < |t| && t[i].id != e.id
        invariant 0 <= i <= |t|
        invariant forall k | 0 <= k < i :: t[k].id != e.id
      {
        i := i + 1;
      }
      UpsertedAt(t, i, e);
      if i < |t| {
        t := t[i := e];
      } else {
        if |t| >= CAPACITY {
          return Failed;
        }
        t := t + [e];
      }
      if Clean(e) && |t| <= CAPACITY {
        PutReadsBack(before, e);
      }
      s := WriteAll(t);
    }

    /** Removes an id; an absent one is reported and changes nothing. */
    method Remove(id: string) returns (s: Status)
      modifies this
      ensures file == old(file) || file == Some(Render(Others(old(Table()), id)))
      ensures s == Done ==> file == Some(Render(Others(old(Table()), id)))
      ensures s == Done ==> Removed(old(Table()), Table(), id) && Lookup(old(Table()), id).Some?
      ensures s == Absent ==> file == old(file) && Lookup(old(Table()), id).None?
      ensures s == Failed ==> file == old(file)
      ensures Reports(s)
      ensures s == Done <==> Undisturbed() && id != "" && Lookup(old(Table()), id).Some?
      ensures s == Absent <==> Undisturbed() && id != "" && Lookup(old(Table()), id).None?
      ensures id == "" || Lookup(old(Table()), id).None? ==> file == old(file)
    {
      hide Clean, Removed, Load, Render, Readable, Lookup;
      if id == "" {
        return Failed;
      }
      var t;
      s, t := Read();
      if s != Done {
        return;
      }
      var out, removed := Filter(t, id);
      if !removed {
        return Absent;
      }
      RemoveReadsBack(t, id);
      s := WriteAll(out);
    }
  }

  lemma {:induction false} RenderLast(table: seq<Entry>, e: Entry)
    ensures Render(table + [e]) == Render(table) + Line(e) + "\n"
    decreases |table|
  {
    hide Line;
    if table == [] {
      assert table + [e] == [e] && [e][1..] == [];
      assert Render(table + [e]) == Line(e) + "\n" + "";
    } else {
      assert (table + [e])[1..] == table[1..] + [e];
      RenderLast(table[1..], e);
      assert Line(table[0]) + "\n" + (Render(table[1..]) + Line(e) + "\n")
          == Line(table[0]) + "\n" + Render(table[1..]) + Line(e) + "\n";
    }
  }
}
