/**
  The shell's grammar as trees, and the tokens each tree is written as. For every well-formed tree
  the skipping parser stops exactly behind it: the one-pass parser with no syntax tree finds the same
  ends as the grammar, through nested loops, conditionals, case arms, groups and definitions.
 */
module ShellGrammar {
  import opened ShellSkip

  datatype Args =
    | NoArgs
    | ArgWord(word: Lexeme, rest: Args)
    | ArgRedirect(op: Token, target: Lexeme, rest: Args)
    | ArgErrToOut(rest: Args)

  datatype Simple = Simple(first: Lexeme, args: Args)

  /** Stages of a pipeline; newlines may follow the bar. */
  datatype Stages = Final(s: Simple) | Piped(s: Simple, breaks: nat, rest: Stages)

  datatype Pipeline = Plain(stages: Stages) | Compound(c: Command)

  datatype AndOr = Only(p: Pipeline) | Chain(p: Pipeline, isAnd: bool, breaks: nat, rest: AndOr)

  /** Commands with the separator that ends each; only the last may go without. */
  datatype List =
    | Empty
    | Blank(rest: List)
    | Bare(a: AndOr)
    | Item(a: AndOr, sep: Token, rest: List)

  /** What follows the commands of an `if`, and the branch an `if` itself starts with. */
  datatype Branches = Fi | Else(body: List) | When(cond: List, thn: List, tail: Branches)

  datatype Patterns = Pattern(w: Lexeme) | Either(w: Lexeme, rest: Patterns)

  datatype Arms = NoArms | Arm(paren: bool, patterns: Patterns, body: List, breaks: nat, rest: Arms)

  datatype Command =
    | If(branches: Branches)
    | For(name: Lexeme, words: seq<Lexeme>, body: List)
    | ForParams(name: Lexeme, body: List)
    | While(until: bool, cond: List, body: List)
    | Case(word: Lexeme, breaks: nat, arms: Arms)
    | Brace(body: List)
    | Subshell(body: List)
    | Function(name: Lexeme, breaks: nat, value: AndOr)

  // ---------------------------------------------------------------------------------------------
  // Writing
  // ---------------------------------------------------------------------------------------------

  function Newlines(n: nat): seq<Token> {
    if n == 0 then [] else [Newline] + Newlines(n - 1)
  }

  function WriteArgs(args: Args): seq<Token> {
    match args
    case NoArgs => []
    case ArgWord(w, rest) => [Word(w)] + WriteArgs(rest)
    case ArgRedirect(op, target, rest) => [op] + ([Word(target)] + WriteArgs(rest))
    case ArgErrToOut(rest) => [ErrToOut] + WriteArgs(rest)
  }

  function WriteSimple(s: Simple): seq<Token> {
    [Word(s.first)] + WriteArgs(s.args)
  }

  function WriteStages(s: Stages): seq<Token> {
    match s
    case Final(c) => WriteSimple(c)
    case Piped(c, breaks, rest) => WriteSimple(c) + ([Pipe] + (Newlines(breaks) + WriteStages(rest)))
  }

  function WritePipeline(p: Pipeline): seq<Token> {
    match p
    case Plain(stages) => WriteStages(stages)
    case Compound(c) => WriteCommand(c)
  }

  function WriteAndOr(a: AndOr): seq<Token> {
    match a
    case Only(p) => WritePipeline(p)
    case Chain(p, isAnd, breaks, rest) =>
      WritePipeline(p) + ([if isAnd then AndIf else OrIf] + (Newlines(breaks) + WriteAndOr(rest)))
  }

  function WriteList(l: List): seq<Token> {
    match l
    case Empty => []
    case Blank(rest) => [Newline] + WriteList(rest)
    case Bare(a) => WriteAndOr(a)
    case Item(a, sep, rest) => WriteAndOr(a) + ([sep] + WriteList(rest))
  }

  /** A condition, its commands and the branches after it. */
  function WriteWhen(b: Branches): seq<Token>
    requires b.When?
    decreases b, 0
  {
    WriteList(b.cond) + ([Word(ThenWord)] + (WriteList(b.thn) + WriteTail(b.tail)))
  }

  function WriteTail(tail: Branches): seq<Token>
    decreases tail, 1
  {
    match tail
    case Fi => [Word(FiWord)]
    case Else(body) => [Word(ElseWord)] + (WriteList(body) + [Word(FiWord)])
    case When(_, _, _) => [Word(ElifWord)] + WriteWhen(tail)
  }

  function WriteWords(words: seq<Lexeme>): seq<Token> {
    if words == [] then [] else [Word(words[0])] + WriteWords(words[1..])
  }

  function WritePatterns(p: Patterns): seq<Token> {
    match p
    case Pattern(w) => [Word(w)]
    case Either(w, rest) => [Word(w)] + ([Pipe] + WritePatterns(rest))
  }

  function ArmAround(paren: bool, patterns: Patterns, body: seq<Token>, breaks: nat): seq<Token> {
    (if paren then [LParen] else []) +
    (WritePatterns(patterns) + ([RParen] + (body + ([Semi] + ([Semi] + Newlines(breaks))))))
  }

  function WriteArms(arms: Arms): seq<Token> {
    match arms
    case NoArms => []
    case Arm(paren, patterns, body, breaks, rest) =>
      ArmAround(paren, patterns, WriteList(body), breaks) + WriteArms(rest)
  }

  function LoopAround(body: seq<Token>): seq<Token> {
    [Word(DoWord)] + (body + [Word(DoneWord)])
  }

  function WriteCommand(c: Command): seq<Token> {
    match c
    case If(branches) => if branches.When? then [Word(IfWord)] + WriteWhen(branches) else []
    case For(name, words, body) =>
      [Word(ForWord)] + ([Word(name)] + ([Word(InWord)] + (WriteWords(words) + ([Semi] + LoopAround(WriteList(body))))))
    case ForParams(name, body) => [Word(ForWord)] + ([Word(name)] + ([Semi] + LoopAround(WriteList(body))))
    case While(until, cond, body) =>
      [Word(if until then UntilWord else WhileWord)] + (WriteList(cond) + LoopAround(WriteList(body)))
    case Case(word, breaks, arms) =>
      [Word(CaseWord)] + ([Word(word)] + ([Word(InWord)] + (Newlines(breaks) + (WriteArms(arms) + [Word(EsacWord)]))))
    case Brace(body) => [Word(OpenBrace)] + (WriteList(body) + [Word(CloseBrace)])
    case Subshell(body) => [LParen] + (WriteList(body) + [RParen])
    case Function(name, breaks, value) =>
      [Word(name)] + ([LParen] + ([RParen] + (Newlines(breaks) + WriteAndOr(value))))
  }

  // ---------------------------------------------------------------------------------------------
  // Well-formedness
  // ---------------------------------------------------------------------------------------------

  predicate Redirects(op: Token) {
    op.Less? || op.DLess? || op.Great? || op.DGreat? || op.ErrGreat? || op.GreatAmp?
  }

  predicate GoodArgs(args: Args) {
    match args
    case NoArgs => true
    case ArgWord(_, rest) => GoodArgs(rest)
    case ArgRedirect(op, _, rest) => Redirects(op) && GoodArgs(rest)
    case ArgErrToOut(rest) => GoodArgs(rest)
  }

  /** A command word is no reserved word. */
  predicate GoodSimple(s: Simple) {
    !Closes(s.first) && !Opens(s.first) && GoodArgs(s.args)
  }

  predicate GoodStages(s: Stages) {
    GoodSimple(s.s) && (s.Piped? ==> GoodStages(s.rest))
  }

  predicate GoodPipeline(p: Pipeline) {
    match p
    case Plain(stages) => GoodStages(stages)
    case Compound(c) => GoodCommand(c)
  }

  /** A definition takes the whole rest of its and-or list as its body, so it comes last. */
  predicate GoodAndOr(a: AndOr) {
    GoodPipeline(a.p) &&
    (a.Chain? ==> !(a.p.Compound? && a.p.c.Function?) && GoodAndOr(a.rest))
  }

  predicate EndsBare(l: List) {
    match l
    case Empty => false
    case Blank(rest) => EndsBare(rest)
    case Bare(_) => true
    case Item(_, _, rest) => EndsBare(rest)
  }

  /** The last command is closed by a semicolon of its own. */
  predicate EndsSemi(l: List) {
    match l
    case Empty => false
    case Blank(rest) => EndsSemi(rest)
    case Bare(_) => false
    case Item(_, sep, rest) => if rest.Empty? then sep == Semi else EndsSemi(rest)
  }

  predicate GoodList(l: List)
    decreases l, 0
  {
    match l
    case Empty => true
    case Blank(rest) => GoodList(rest)
    case Bare(a) => GoodAndOr(a)
    case Item(a, sep, rest) => GoodAndOr(a) && (Sep(sep) || sep.Amp?) && GoodList(rest)
  }

  /** A list closed by a keyword, which would otherwise be read as an argument. */
  predicate GoodBlock(l: List)
    decreases l, 1
  {
    GoodList(l) && !EndsBare(l)
  }

  predicate GoodTail(tail: Branches) {
    match tail
    case Fi => true
    case Else(body) => GoodBlock(body)
    case When(cond, thn, rest) => GoodBlock(cond) && GoodBlock(thn) && GoodTail(rest)
  }

  predicate GoodArms(arms: Arms) {
    arms.Arm? ==>
      && (arms.paren || arms.patterns.w != EsacWord)
      && GoodList(arms.body) && !EndsSemi(arms.body) && GoodArms(arms.rest)
  }

  /** An empty `( )` behind a word would be read as a definition. */
  predicate GoodCommand(c: Command) {
    match c
    case If(branches) => branches.When? && GoodTail(branches)
    case For(_, words, body) => (forall w | w in words :: w != DoWord) && GoodBlock(body)
    case ForParams(_, body) => GoodBlock(body)
    case While(_, cond, body) => GoodBlock(cond) && GoodBlock(body)
    case Case(_, _, arms) => GoodArms(arms)
    case Brace(body) => GoodBlock(body)
    case Subshell(body) => GoodList(body) && WriteList(body) != []
    case Function(name, _, value) => !Closes(name) && GoodAndOr(value)
  }

  // ---------------------------------------------------------------------------------------------
  // Reading back
  // ---------------------------------------------------------------------------------------------

  /** The tokens `s` stand at the indices from `i` up to `e`. */
  ghost predicate Spans(t: seq<Token>, i: nat, e: nat, s: seq<Token>) {
    i <= e <= |t| && t[i..e] == s
  }

  lemma Split(t: seq<Token>, i: nat, e: nat, a: seq<Token>, b: seq<Token>) returns (m: nat)
    requires Spans(t, i, e, a + b)
    ensures i <= m <= e && Spans(t, i, m, a) && Spans(t, m, e, b)
    ensures m == i + |a|
  {
    m := i + |a|;
    var s := a + b;
    assert t[i..e][..|a|] == s[..|a|] == a;
    assert t[i..e][|a|..] == s[|a|..] == b;
    assert t[i..m] == t[i..e][..|a|];
    assert t[m..e] == t[i..e][|a|..];
  }

  /** One token in front. */
  lemma Take(t: seq<Token>, i: nat, e: nat, x: Token, s: seq<Token>)
    requires Spans(t, i, e, [x] + s)
    ensures At(t, i) == x && i + 1 <= e && Spans(t, i + 1, e, s)
  {
    var m := Split(t, i, e, [x], s);
    assert t[i..m][0] == t[i];
  }

  lemma Last(t: seq<Token>, i: nat, e: nat, x: Token)
    requires Spans(t, i, e, [x])
    ensures At(t, i) == x && e == i + 1
  {
    assert t[i..e][0] == t[i];
  }

  lemma Nothing(t: seq<Token>, i: nat, e: nat)
    requires Spans(t, i, e, [])
    ensures i == e
  {
    assert |t[i..e]| == e - i;
  }

  /** What may follow a simple command: nothing that it would take in. */
  predicate Follows(t: seq<Token>, i: nat) {
    FollowsList(t, i) || At(t, i).Pipe? || Joins(At(t, i))
  }

  /** What may follow an and-or list. */
  predicate FollowsList(t: seq<Token>, i: nat) {
    Sep(At(t, i)) || At(t, i).Amp? || At(t, i).RParen? || At(t, i).Eof?
  }

  /** A command starts here: no separator, no joint, no closer and no empty parentheses. */
  predicate Starts(t: seq<Token>, i: nat) {
    match At(t, i)
    case LParen => At(t, i + 1) != RParen
    case Word(w) => !Closes(w)
    case _ => false
  }

  lemma {:induction false} ReadNewlines(t: seq<Token>, i: nat, e: nat, n: nat)
    requires Spans(t, i, e, Newlines(n)) && At(t, e) != Newline
    ensures SkipNewlines(t, i) == e
    ensures At(t, e) != Semi ==> SkipSeps(t, i) == e
    decreases n
  {
    if n > 0 {
      Take(t, i, e, Newline, Newlines(n - 1));
      ReadNewlines(t, i + 1, e, n - 1);
    }
  }

  lemma {:induction false} ReadArgs(t: seq<Token>, i: nat, e: nat, args: Args)
    requires GoodArgs(args) && Spans(t, i, e, WriteArgs(args)) && Follows(t, e)
    ensures SkipSimple(t, i, true) == e && At(t, i) != LParen
    decreases args
  {
    hide Spans;
    match args
    case NoArgs =>
      Nothing(t, i, e);
    case ArgWord(w, rest) =>
      Take(t, i, e, Word(w), WriteArgs(rest));
      ReadArgs(t, i + 1, e, rest);
    case ArgRedirect(op, target, rest) =>
      Take(t, i, e, op, [Word(target)] + WriteArgs(rest));
      Take(t, i + 1, e, Word(target), WriteArgs(rest));
      ReadArgs(t, i + 2, e, rest);
    case ArgErrToOut(rest) =>
      Take(t, i, e, ErrToOut, WriteArgs(rest));
      ReadArgs(t, i + 1, e, rest);
  }

  lemma ReadSimple(t: seq<Token>, i: nat, e: nat, s: Simple)
    requires GoodSimple(s) && Spans(t, i, e, WriteSimple(s)) && Follows(t, e)
    ensures SkipSimple(t, i, false) == e
    ensures !CompoundStart(t, i) && !Definition(t, i) && Starts(t, i)
  {
    hide Spans;
    Take(t, i, e, Word(s.first), WriteArgs(s.args));
    ReadArgs(t, i + 1, e, s.args);
  }

  lemma {:induction false} ReadStages(t: seq<Token>, i: nat, e: nat, s: Stages)
    requires GoodStages(s) && Spans(t, i, e, WriteStages(s)) && Follows(t, e) && At(t, e) != Pipe
    ensures SkipStages(t, i) == e
    ensures !CompoundStart(t, i) && !Definition(t, i) && Starts(t, i)
    decreases s
  {
    hide Spans, SkipSimple, WriteSimple;
    match s
    case Final(c) =>
      ReadSimple(t, i, e, c);
    case Piped(c, breaks, rest) =>
      var j := Split(t, i, e, WriteSimple(c), [Pipe] + (Newlines(breaks) + WriteStages(rest)));
      Take(t, j, e, Pipe, Newlines(breaks) + WriteStages(rest));
      ReadSimple(t, i, j, c);
      var k := Split(t, j + 1, e, Newlines(breaks), WriteStages(rest));
      ReadStages(t, k, e, rest);
      ReadNewlines(t, j + 1, k, breaks);
  }

  /** The skipping parser stops behind a pipeline, and every pipeline starts as a command does. */
  lemma {:induction false} ReadPipeline(t: seq<Token>, i: nat, e: nat, p: Pipeline)
    requires GoodPipeline(p) && Spans(t, i, e, WritePipeline(p))
    requires FollowsList(t, e) || (Joins(At(t, e)) && !(p.Compound? && p.c.Function?))
    ensures SkipPipeline(t, i) == e && Starts(t, i) && i < e
    decreases p
  {
    hide Spans, SkipSimple, SkipStages, SkipCommand;
    match p
    case Plain(stages) =>
      ReadStages(t, i, e, stages);
    case Compound(c) =>
      ReadCommand(t, i, e, c);
  }

  lemma {:induction false} ReadAndOr(t: seq<Token>, i: nat, e: nat, a: AndOr)
    requires GoodAndOr(a) && Spans(t, i, e, WriteAndOr(a)) && FollowsList(t, e)
    ensures SkipAndOr(t, i) == e && Starts(t, i) && i < e
    decreases a
  {
    hide Spans, SkipPipeline, SkipNewlines, Newlines, WritePipeline;
    match a
    case Only(p) =>
      ReadPipeline(t, i, e, p);
    case Chain(p, isAnd, breaks, rest) =>
      var op := if isAnd then AndIf else OrIf;
      var j := Split(t, i, e, WritePipeline(p), [op] + (Newlines(breaks) + WriteAndOr(rest)));
      Take(t, j, e, op, Newlines(breaks) + WriteAndOr(rest));
      ReadPipeline(t, i, j, p);
      var k := Split(t, j + 1, e, Newlines(breaks), WriteAndOr(rest));
      ReadAndOr(t, k, e, rest);
      ReadNewlines(t, j + 1, k, breaks);
      ChainStep(t, i, j, k);
  }

  lemma ChainStep(t: seq<Token>, i: nat, j: nat, k: nat)
    requires SkipPipeline(t, i) == j && Joins(At(t, j)) && SkipNewlines(t, j + 1) == k
    ensures SkipAndOr(t, i) == SkipAndOr(t, k)
  {
    hide SkipPipeline, SkipNewlines;
  }

  lemma SkipListSep(t: seq<Token>, i: nat)
    requires Sep(At(t, i))
    ensures SkipList(t, i) == SkipList(t, i + 1)
  {
  }

  /** The skipping parser stops at the token that closes the block. */
  lemma {:induction false} ReadList(t: seq<Token>, i: nat, e: nat, l: List)
    requires GoodList(l) && Spans(t, i, e, WriteList(l)) && BlockEnd(t, e)
    requires EndsBare(l) ==> FollowsList(t, e)
    ensures SkipList(t, i) == e
    ensures i == e || At(t, i) == Newline || Starts(t, i)
    decreases l, 0
  {
    hide Spans, SkipAndOr;
    match l
    case Empty =>
      Nothing(t, i, e);
    case Blank(rest) =>
      Take(t, i, e, Newline, WriteList(rest));
      ReadList(t, i + 1, e, rest);
      SkipListSep(t, i);
    case Bare(a) =>
      ReadAndOr(t, i, e, a);
    case Item(a, sep, rest) =>
      var j := Split(t, i, e, WriteAndOr(a), [sep] + WriteList(rest));
      Take(t, j, e, sep, WriteList(rest));
      ReadAndOr(t, i, j, a);
      ReadList(t, j + 1, e, rest);
      if Sep(sep) { SkipListSep(t, j); }
  }

  /** The body that a loop pass runs over is the one that skip_to steps over. */
  lemma {:induction false} SkipToIsSkipList(t: seq<Token>, i: nat)
    requires i <= |t| && Kw(t, SkipList(t, i), DoneWord)
    ensures SkipTo(t, i, DoneWord) == SkipList(t, i)
    decreases |t| - i
  {
    hide SkipAndOr, SkipList, SkipTo;
    SkipToOne(t, i);
    SkipListOne(t, i);
    var s := SkipSeps(t, i);
    if Sep(At(t, i)) {
      SkipListSeps(t, i);
      StaysPut(t, i);
      SkipToIsSkipList(t, s);
    } else if !BlockEnd(t, i) {
      var j := SkipAndOr(t, i);
      if At(t, i) == Amp {
        StaysPut(t, i);
        SkipToIsSkipList(t, i + 1);
      } else if At(t, j) == Amp {
        StaysPut(t, j);
        SkipToOne(t, j);
        SkipToIsSkipList(t, j + 1);
      } else {
        SkipListSeps(t, j);
        SkipToIsSkipList(t, SkipSeps(t, j));
      }
    }
  }

  lemma SkipToOne(t: seq<Token>, i: nat)
    ensures SkipTo(t, i, DoneWord) ==
      if At(t, i) == Eof || Kw(t, i, DoneWord) then i
      else
        var j := SkipSeps(t, SkipAndOr(t, i));
        SkipTo(t, if j == i then i + 1 else j, DoneWord)
  {
    hide SkipAndOr;
  }

  lemma SkipListOne(t: seq<Token>, i: nat)
    ensures SkipList(t, i) ==
      var s := SkipSeps(t, i);
      if BlockEnd(t, s) then s
      else
        var j := SkipAndOr(t, s);
        SkipList(t, if At(t, j) == Amp then j + 1 else j)
  {
    hide SkipAndOr;
  }

  lemma StaysPut(t: seq<Token>, i: nat)
    requires Sep(At(t, i)) || At(t, i) == Amp
    ensures SkipAndOr(t, i) == i
  {
    assert SkipSimple(t, i, false) == i;
    assert SkipStages(t, i) == i;
  }

  lemma SkipListSeps(t: seq<Token>, i: nat)
    ensures SkipList(t, SkipSeps(t, i)) == SkipList(t, i)
  {
  }

  // ---------------------------------------------------------------------------------------------
  // Compound commands
  // ---------------------------------------------------------------------------------------------

  lemma {:induction false} ReadWords(t: seq<Token>, i: nat, e: nat, words: seq<Lexeme>)
    requires Spans(t, i, e, WriteWords(words)) && (forall w | w in words :: w != DoWord) && !At(t, e).Word?
    ensures SkipForWords(t, i) == e
    decreases |words|
  {
    if words == [] {
      Nothing(t, i, e);
    } else {
      Take(t, i, e, Word(words[0]), WriteWords(words[1..]));
      assert forall w | w in words[1..] :: w in words;
      assert words[0] in words;
      ReadWords(t, i + 1, e, words[1..]);
    }
  }

  lemma {:induction false} ReadPatterns(t: seq<Token>, i: nat, e: nat, p: Patterns)
    requires Spans(t, i, e, WritePatterns(p)) && At(t, e) == RParen
    ensures SkipPatterns(t, i) == e && At(t, i) == Word(p.w)
    decreases p
  {
    match p
    case Pattern(w) =>
      Last(t, i, e, Word(w));
    case Either(w, rest) =>
      Take(t, i, e, Word(w), [Pipe] + WritePatterns(rest));
      Take(t, i + 1, e, Pipe, WritePatterns(rest));
      ReadPatterns(t, i + 2, e, rest);
  }

  lemma ArmNewline(t: seq<Token>, i: nat)
    requires At(t, i) == Newline
    ensures SkipArmBody(t, i) == SkipArmBody(t, i + 1)
  {
  }

  lemma ArmAmp(t: seq<Token>, i: nat)
    requires At(t, i) == Amp
    ensures SkipArmBody(t, i) == SkipArmBody(t, i + 1)
  {
    StaysPut(t, i);
  }

  lemma ArmEnds(t: seq<Token>, i: nat, e: nat)
    requires DoubleSemi(t, e) && (i == e || (Starts(t, i) && SkipAndOr(t, i) == e))
    ensures SkipArmBody(t, i) == e
  {
    hide SkipAndOr;
  }

  lemma ArmGoesOn(t: seq<Token>, i: nat, j: nat)
    requires Starts(t, i) && SkipAndOr(t, i) == j && i < j && !DoubleSemi(t, j)
    requires Sep(At(t, j)) || At(t, j) == Amp
    ensures SkipArmBody(t, i) == SkipArmBody(t, j + 1)
  {
    hide SkipAndOr;
    if At(t, j) == Amp {
      ArmAmp(t, j);
    }
  }

  /** The commands of an arm end at its `;;`, whatever separates them. */
  lemma {:induction false} ReadArmBody(t: seq<Token>, i: nat, e: nat, l: List)
    requires GoodList(l) && !EndsSemi(l) && Spans(t, i, e, WriteList(l)) && DoubleSemi(t, e)
    ensures SkipArmBody(t, i) == e
    ensures if l.Empty? then i == e else At(t, i) == Newline || Starts(t, i)
    decreases l
  {
    hide Spans, SkipAndOr, SkipArmBody;
    match l
    case Empty =>
      Nothing(t, i, e);
      ArmEnds(t, i, e);
    case Blank(rest) =>
      Take(t, i, e, Newline, WriteList(rest));
      ReadArmBody(t, i + 1, e, rest);
      ArmNewline(t, i);
    case Bare(a) =>
      ReadAndOr(t, i, e, a);
      ArmEnds(t, i, e);
    case Item(a, sep, rest) =>
      var j := Split(t, i, e, WriteAndOr(a), [sep] + WriteList(rest));
      Take(t, j, e, sep, WriteList(rest));
      ReadAndOr(t, i, j, a);
      ReadArmBody(t, j + 1, e, rest);
      ArmGoesOn(t, i, j);
  }

  /** Behind an `if`, `while` or `{` no list reads as the parentheses of a definition. */
  lemma NoDefinition(t: seq<Token>, i: nat)
    requires At(t, i + 1) == Newline || Starts(t, i + 1) || (At(t, i + 1).Word? && At(t, i).Word?)
    ensures !Definition(t, i)
  {
  }

  lemma ReadClause(t: seq<Token>, i: nat, c: nat, b: nat)
    requires SkipList(t, i) == c && Kw(t, c, ThenWord) && SkipList(t, c + 1) == b && At(t, b).Word?
    ensures SkipClause(t, i) == b
  {
  }

  /** From a condition to the `fi`. */
  lemma {:induction false} ReadWhen(t: seq<Token>, i: nat, e: nat, b: Branches)
    requires b.When? && GoodTail(b) && Spans(t, i, e, WriteWhen(b))
    ensures i <= |t| && SkipIf(t, i) == e && (At(t, i).Word? || At(t, i) == Newline || Starts(t, i))
    decreases b, 0
  {
    hide Spans, SkipList, SkipClause, WriteList, WriteTail;
    var c := Split(t, i, e, WriteList(b.cond), [Word(ThenWord)] + (WriteList(b.thn) + WriteTail(b.tail)));
    Take(t, c, e, Word(ThenWord), WriteList(b.thn) + WriteTail(b.tail));
    ReadList(t, i, c, b.cond);
    var d := Split(t, c + 1, e, WriteList(b.thn), WriteTail(b.tail));
    ReadTail(t, d, e, b.tail);
    ReadList(t, c + 1, d, b.thn);
    ReadClause(t, i, c, d);
  }

  /** From behind the commands of a branch to the `fi`. */
  lemma {:induction false} ReadTail(t: seq<Token>, i: nat, e: nat, tail: Branches)
    requires GoodTail(tail) && Spans(t, i, e, WriteTail(tail))
    ensures At(t, i).Word? && Closes(At(t, i).w) && i < e <= |t|
    ensures SkipAfter(t, i) == e
    decreases tail, 1
  {
    hide Spans, SkipList, SkipClause, WriteWhen, SkipIf;
    match tail
    case Fi =>
      Last(t, i, e, Word(FiWord));
      Bounded(t, i, e, WriteTail(tail));
    case Else(body) =>
      Take(t, i, e, Word(ElseWord), WriteList(body) + [Word(FiWord)]);
      var m := Split(t, i + 1, e, WriteList(body), [Word(FiWord)]);
      Last(t, m, e, Word(FiWord));
      Bounded(t, i, e, WriteTail(tail));
      ReadList(t, i + 1, m, body);
    case When(_, _, _) =>
      Take(t, i, e, Word(ElifWord), WriteWhen(tail));
      Bounded(t, i, e, WriteTail(tail));
      ReadWhen(t, i + 1, e, tail);
  }

  lemma Bounded(t: seq<Token>, i: nat, e: nat, s: seq<Token>)
    requires Spans(t, i, e, s)
    ensures i <= e <= |t|
  {
  }

  lemma {:induction false} ReadArms(t: seq<Token>, i: nat, e: nat, arms: Arms)
    requires GoodArms(arms) && Spans(t, i, e, WriteArms(arms)) && Kw(t, e, EsacWord)
    ensures SkipArms(t, i) == e && !Sep(At(t, i))
    decreases arms
  {
    hide Spans, SkipArm, WriteList;
    match arms
    case NoArms =>
      Nothing(t, i, e);
    case Arm(paren, patterns, body, breaks, rest) =>
      var m := Split(t, i, e, ArmAround(paren, patterns, WriteList(body), breaks), WriteArms(rest));
      ReadArms(t, m, e, rest);
      ReadArm(t, i, m, arms);
  }

  lemma {:induction false} ReadArm(t: seq<Token>, i: nat, e: nat, arms: Arms)
    requires arms.Arm? && GoodArms(arms) && !Sep(At(t, e))
    requires Spans(t, i, e, ArmAround(arms.paren, arms.patterns, WriteList(arms.body), arms.breaks))
    ensures SkipArm(t, i) == e && !Sep(At(t, i)) && At(t, i) != Eof && !Kw(t, i, EsacWord)
    decreases arms, 0
  {
    hide Spans, SkipArmBody, WriteList, WritePatterns, SkipPatterns, Newlines;
    var Arm(paren, patterns, body, breaks, _) := arms;
    var close := [Semi] + ([Semi] + Newlines(breaks));
    var written := WritePatterns(patterns) + ([RParen] + (WriteList(body) + close));
    var p: nat := if paren then i + 1 else i;
    if paren { Take(t, i, e, LParen, written); } else { assert [] + written == written; }
    var r := Split(t, p, e, WritePatterns(patterns), [RParen] + (WriteList(body) + close));
    Take(t, r, e, RParen, WriteList(body) + close);
    ReadPatterns(t, p, r, patterns);
    assert ArmBody(t, i) == r + 1;
    var b := Split(t, r + 1, e, WriteList(body), close);
    ReadArmClose(t, b, e, breaks);
    ReadArmBody(t, r + 1, b, body);
  }

  lemma ReadArmClose(t: seq<Token>, b: nat, e: nat, breaks: nat)
    requires Spans(t, b, e, [Semi] + ([Semi] + Newlines(breaks))) && !Sep(At(t, e))
    ensures DoubleSemi(t, b) && SkipSeps(t, b + 2) == e
  {
    hide Spans;
    Take(t, b, e, Semi, [Semi] + Newlines(breaks));
    Take(t, b + 1, e, Semi, Newlines(breaks));
    ReadNewlines(t, b + 2, e, breaks);
  }

  lemma {:induction false} ReadLoop(t: seq<Token>, i: nat, e: nat, body: List)
    requires GoodBlock(body) && Spans(t, i, e, LoopAround(WriteList(body)))
    ensures Kw(t, i, DoWord) && i < e && SkipBody(t, i + 1) == e
    decreases body, 1
  {
    hide Spans, SkipList, WriteList, SkipTo;
    Take(t, i, e, Word(DoWord), WriteList(body) + [Word(DoneWord)]);
    var d := Split(t, i + 1, e, WriteList(body), [Word(DoneWord)]);
    Last(t, d, e, Word(DoneWord));
    ReadList(t, i + 1, d, body);
    SkipToIsSkipList(t, i + 1);
  }

  lemma {:induction false} ReadIf(t: seq<Token>, i: nat, e: nat, c: Command)
    requires c.If? && GoodCommand(c) && Spans(t, i, e, WriteCommand(c))
    ensures Kw(t, i, IfWord) && !Definition(t, i) && i < e && SkipIf(t, i + 1) == e
    decreases c, 0
  {
    hide Spans, SkipIf, WriteWhen;
    Take(t, i, e, Word(IfWord), WriteWhen(c.branches));
    ReadWhen(t, i + 1, e, c.branches);
    NoDefinition(t, i);
  }

  lemma ForWithWords(t: seq<Token>, i: nat, m: nat)
    requires i < |t| && At(t, i + 1).Word? && Kw(t, i + 2, InWord) && SkipForWords(t, i + 3) == m
    requires At(t, m) == Semi && Kw(t, m + 1, DoWord)
    ensures SkipFor(t, i) == SkipBody(t, m + 2)
  {
    hide SkipBody, SkipForWords;
    assert SkipSeps(t, m) == m + 1;
  }

  lemma ForWithoutWords(t: seq<Token>, i: nat)
    requires i < |t| && At(t, i + 1).Word? && At(t, i + 2) == Semi && Kw(t, i + 3, DoWord)
    ensures SkipFor(t, i) == SkipBody(t, i + 4)
  {
    hide SkipBody;
    assert SkipSeps(t, i + 2) == i + 3;
  }

  lemma {:induction false} ReadFor(t: seq<Token>, i: nat, e: nat, c: Command)
    requires (c.For? || c.ForParams?) && GoodCommand(c) && Spans(t, i, e, WriteCommand(c))
    ensures Kw(t, i, ForWord) && !Definition(t, i) && i < e && SkipFor(t, i) == e
    decreases c, 0
  {
    hide Spans, SkipBody, WriteList, LoopAround, WriteWords, SkipForWords, SkipFor;
    var loop := LoopAround(WriteList(c.body));
    match c
    case For(name, words, body) =>
      Take(t, i, e, Word(ForWord), [Word(name)] + ([Word(InWord)] + (WriteWords(words) + ([Semi] + loop))));
      Take(t, i + 1, e, Word(name), [Word(InWord)] + (WriteWords(words) + ([Semi] + loop)));
      Take(t, i + 2, e, Word(InWord), WriteWords(words) + ([Semi] + loop));
      var m := Split(t, i + 3, e, WriteWords(words), [Semi] + loop);
      Take(t, m, e, Semi, loop);
      ReadWords(t, i + 3, m, words);
      ReadLoop(t, m + 1, e, body);
      ForWithWords(t, i, m);
    case ForParams(name, body) =>
      Take(t, i, e, Word(ForWord), [Word(name)] + ([Semi] + loop));
      Take(t, i + 1, e, Word(name), [Semi] + loop);
      Take(t, i + 2, e, Semi, loop);
      ReadLoop(t, i + 3, e, body);
      ForWithoutWords(t, i);
  }

  lemma {:induction false} ReadWhile(t: seq<Token>, i: nat, e: nat, c: Command)
    requires c.While? && GoodCommand(c) && Spans(t, i, e, WriteCommand(c))
    ensures Kw(t, i, if c.until then UntilWord else WhileWord) && !Definition(t, i)
    ensures i < e && SkipWhile(t, i) == e
    decreases c, 0
  {
    hide Spans, SkipList, SkipBody, WriteList, LoopAround;
    var loop := LoopAround(WriteList(c.body));
    Take(t, i, e, Word(if c.until then UntilWord else WhileWord), WriteList(c.cond) + loop);
    var m := Split(t, i + 1, e, WriteList(c.cond), loop);
    ReadLoop(t, m, e, c.body);
    ReadList(t, i + 1, m, c.cond);
    NoDefinition(t, i);
  }

  lemma {:induction false} ReadCase(t: seq<Token>, i: nat, e: nat, c: Command)
    requires c.Case? && GoodCommand(c) && Spans(t, i, e, WriteCommand(c))
    ensures Kw(t, i, CaseWord) && !Definition(t, i) && i < e && SkipCase(t, i) == e
    decreases c, 0
  {
    hide Spans, SkipArms, WriteArms, Newlines;
    var Case(word, breaks, arms) := c;
    var rest := Newlines(breaks) + (WriteArms(arms) + [Word(EsacWord)]);
    Take(t, i, e, Word(CaseWord), [Word(word)] + ([Word(InWord)] + rest));
    Take(t, i + 1, e, Word(word), [Word(InWord)] + rest);
    Take(t, i + 2, e, Word(InWord), rest);
    var m := Split(t, i + 3, e, Newlines(breaks), WriteArms(arms) + [Word(EsacWord)]);
    var a := Split(t, m, e, WriteArms(arms), [Word(EsacWord)]);
    Last(t, a, e, Word(EsacWord));
    ReadArms(t, m, a, arms);
    ReadNewlines(t, i + 3, m, breaks);
  }

  lemma {:induction false} ReadGroup(t: seq<Token>, i: nat, e: nat, c: Command)
    requires (c.Brace? || c.Subshell?) && GoodCommand(c) && Spans(t, i, e, WriteCommand(c))
    ensures SkipCommand(t, i) == e && Starts(t, i) && i < e && CompoundStart(t, i)
    decreases c, 0
  {
    hide Spans, SkipList, WriteList;
    var first := if c.Brace? then Word(OpenBrace) else LParen;
    var last := if c.Brace? then Word(CloseBrace) else RParen;
    Take(t, i, e, first, WriteList(c.body) + [last]);
    var m := Split(t, i + 1, e, WriteList(c.body), [last]);
    Last(t, m, e, last);
    ReadList(t, i + 1, m, c.body);
    if c.Brace? {
      NoDefinition(t, i);
    } else {
      NotHere(t, i + 1, m, WriteList(c.body));
    }
  }

  lemma NotHere(t: seq<Token>, i: nat, e: nat, s: seq<Token>)
    requires Spans(t, i, e, s) && s != []
    ensures i != e
  {
  }

  lemma {:induction false} ReadFunction(t: seq<Token>, i: nat, e: nat, c: Command)
    requires c.Function? && GoodCommand(c) && Spans(t, i, e, WriteCommand(c)) && FollowsList(t, e)
    ensures SkipCommand(t, i) == e && Starts(t, i) && i < e && Definition(t, i)
    decreases c, 0
  {
    hide Spans, SkipAndOr, WriteAndOr, Newlines;
    var Function(name, breaks, value) := c;
    var rest := Newlines(breaks) + WriteAndOr(value);
    Take(t, i, e, Word(name), [LParen] + ([RParen] + rest));
    Take(t, i + 1, e, LParen, [RParen] + rest);
    Take(t, i + 2, e, RParen, rest);
    var m := Split(t, i + 3, e, Newlines(breaks), WriteAndOr(value));
    ReadAndOr(t, m, e, value);
    ReadNewlines(t, i + 3, m, breaks);
  }

  /** Every well-formed compound command ends where its tokens end. */
  lemma {:induction false} ReadCommand(t: seq<Token>, i: nat, e: nat, c: Command)
    requires GoodCommand(c) && Spans(t, i, e, WriteCommand(c)) && (c.Function? ==> FollowsList(t, e))
    ensures SkipCommand(t, i) == e && Starts(t, i) && i < e
    ensures CompoundStart(t, i) || Definition(t, i)
    decreases c, 1
  {
    hide Spans, WriteCommand, GoodCommand, SkipIf, SkipFor, SkipWhile, SkipCase;
    match c
    case If(_) => ReadIf(t, i, e, c);
    case For(_, _, _) => ReadFor(t, i, e, c);
    case ForParams(_, _) => ReadFor(t, i, e, c);
    case While(_, _, _) => ReadWhile(t, i, e, c);
    case Case(_, _, _) => ReadCase(t, i, e, c);
    case Brace(_) => ReadGroup(t, i, e, c);
    case Subshell(_) => ReadGroup(t, i, e, c);
    case Function(_, _, _) => ReadFunction(t, i, e, c);
  }

  /** A whole program is skipped to its end. */
  lemma ReadProgram(l: List)
    requires GoodList(l)
    ensures SkipList(WriteList(l), 0) == |WriteList(l)|
  {
    var t := WriteList(l);
    assert t[0..|t|] == t;
    ReadList(t, 0, |t|, l);
  }
}
