/**
  What the loader makes of a database file that herald did not write: line by line, which lines are records, which are
  passed over, and which cost the next line too.
 */
module DatabaseText {
  import opened Common
  import opened Database

  /** The fields with a TAB between them. */
  function Tabbed(fs: seq<string>): string
    requires fs != []
  {
    if |fs| == 1 then fs[0] else fs[0] + "\t" + Tabbed(fs[1..])
  }

  lemma {:induction false} FieldsTabbed(line: string)
    ensures Tabbed(Fields(line)) == line
    decreases |line|
  {
    hide Fields;
    var i := IndexOf(line, '\t');
    if i < |line| {
      var front, rest := line[..i], line[i + 1..];
      FieldsTabbed(rest);
      assert line == front + "\t" + rest;
      FieldsMore(front, rest);
      assert ([front] + Fields(rest))[1..] == Fields(rest);
    } else {
      FieldsLast(line);
    }
  }

  /** A line is a record if and only if it is four fields that fit, with a TAB between each two and none in them. */
  lemma ParseExactly(line: string, e: Entry)
    ensures Parse(line) == Some(e) <==>
      && line == e.id + "\t" + e.version + "\t" + e.exec + "\t" + e.sha
      && |e.id| <= 63 && |e.version| <= 31 && |e.exec| <= 63 && |e.sha| <= 64
      && '\t' !in e.id && '\t' !in e.version && '\t' !in e.exec && '\t' !in e.sha
  {
    hide Fields;
    var fs := Fields(line);
    if Parse(line) == Some(e) {
      FieldsTabbed(line);
      FieldsNoTab(line);
      FourTabbed(fs);
    }
    if line == Line(e) && '\t' !in e.id && '\t' !in e.version && '\t' !in e.exec && '\t' !in e.sha {
      Rejoined(e);
    }
  }

  lemma FourTabbed(fs: seq<string>)
    requires |fs| == 4
    ensures Tabbed(fs) == fs[0] + "\t" + fs[1] + "\t" + fs[2] + "\t" + fs[3]
  {
    assert Tabbed(fs[1..][1..][1..]) == fs[3];
    assert Tabbed(fs[1..][1..]) == fs[2] + "\t" + fs[3];
    assert Tabbed(fs[1..]) == fs[1] + "\t" + (fs[2] + "\t" + fs[3]);
    assert fs[0] + "\t" + (fs[1] + "\t" + (fs[2] + "\t" + fs[3])) == fs[0] + "\t" + fs[1] + "\t" + fs[2] + "\t" + fs[3];
  }

  lemma Rejoined(e: Entry)
    requires '\t' !in e.id && '\t' !in e.version && '\t' !in e.exec && '\t' !in e.sha
    ensures Fields(Line(e)) == [e.id, e.version, e.exec, e.sha]
  {
    hide Fields;
    var c := e.exec + "\t" + e.sha;
    var b := e.version + "\t" + c;
    assert Line(e) == e.id + "\t" + b;
    FieldsMore(e.id, b);
    FieldsMore(e.version, c);
    FieldsMore(e.exec, e.sha);
    FieldsLast(e.sha);
  }

  /** The line without what follows a carriage return. */
  function Cut(line: string): string {
    line[..IndexOf(line, '\r')]
  }

  lemma LineSplit(line: string, rest: string)
    requires '\n' !in line
    ensures var text := line + "\n" + rest;
      IndexOf(text, '\n') == |line| && text[..|line| + 1] == line + "\n" && text[|line| + 1..] == rest
  {
    IndexAfter(line, '\n', rest);
  }

  /**
    A line of the file. Up to 510 characters it is read whole, and is a record or is passed over. A longer one is
    passed over. One with a zero byte is passed over with the line behind it.
   */
  lemma LineByLine(line: string, rest: string, max: nat)
    requires '\n' !in line && max > 0
    ensures var table := Load(line + "\n" + rest, max);
      if |line| > 510 then table == Load(rest, max)
      else if '\0' in line then table == Load(Drained(rest), max)
      else if Parse(Cut(line)).Some? then table == [Parse(Cut(line)).value] + Load(rest, max - 1)
      else table == Load(rest, max)
  {
    hide Parse, Load, IndexOf;
    var text := line + "\n" + rest;
    LineSplit(line, rest);
    LoadStep(text, max);
    if |line| > 510 {
      LongLine(line, rest);
    } else {
      var read := line + "\n";
      ShortLine(line);
      assert read[..|read| - 1] == line;
    }
  }

  lemma ShortLine(line: string)
    requires '\n' !in line
    ensures WholeLine(line + "\n") <==> '\0' !in line
  {
    LineSplit(line, "");
    assert line + "\n" + "" == line + "\n";
    var read := line + "\n";
    if '\0' !in line {
      IndexNone(read, '\0');
    } else {
      var k :| 0 <= k < |line| && line[k] == '\0';
      assert read[k] == '\0';
    }
  }

  lemma LongLine(line: string, rest: string)
    requires '\n' !in line && |line| > 510
    ensures var text := line + "\n" + rest;
      && ReadLength(text) == LINE && !WholeLine(text[..LINE]) && Drained(text[LINE..]) == rest
  {
    var text := line + "\n" + rest;
    LineSplit(line, rest);
    var read := text[..LINE];
    assert forall k | 0 <= k < LINE :: read[k] == line[k];
    IndexNone(read, '\n');
    assert text[LINE..] == line[LINE..] + "\n" + rest;
    LineSplit(line[LINE..], rest);
  }

  /** What stands behind the last newline is no line. */
  lemma {:induction false} UnendedLine(text: string, max: nat)
    requires '\n' !in text
    ensures Load(text, max) == []
  {
    if text != "" && max > 0 {
      hide Parse, Load;
      LoadStep(text, max);
      var n := ReadLength(text);
      IndexNone(text, '\n');
      IndexNone(text[..n], '\n');
      IndexNone(text[n..], '\n');
      LoadStops("", max);
    }
  }

  /** Of more records than there is room for the first are loaded. */
  lemma {:induction false} FirstLoaded(table: seq<Entry>, max: nat)
    requires |table| >= max && forall i | 0 <= i < |table| :: Clean(table[i])
    ensures Load(Render(table), max) == table[..max]
    decreases max
  {
    hide Clean, Line, Load;
    if max == 0 {
      LoadStops(Render(table), 0);
    } else {
      LoadMore(table[0], Render(table[1..]), max);
      FirstLoaded(table[1..], max - 1);
      assert table[..max] == [table[0]] + table[1..][..max - 1];
    }
  }
}
