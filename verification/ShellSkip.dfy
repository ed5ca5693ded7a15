/**
  How the stsh interpreter (user/bin/stsh/run.c) walks over commands without running them. stsh keeps
  no syntax tree: a command that is not taken is parsed by the same code with `run` off, and a loop
  comes back to a saved token index. These functions give the token index at which each parsing
  function stops when nothing runs.
 */
module ShellSkip {

  /** A word: the reserved ones by name, any other by its text. */
  datatype Lexeme =
    | IfWord | ThenWord | ElifWord | ElseWord | FiWord
    | ForWord | InWord | WhileWord | UntilWord | DoWord | DoneWord
    | CaseWord | EsacWord | OpenBrace | CloseBrace
    | Text(text: string)

  datatype Token =
    | Word(w: Lexeme)
    | Pipe | AndIf | OrIf | Semi | Amp
    | Less | Great | DGreat | ErrGreat | ErrToOut | GreatAmp | DLess
    | LParen | RParen | Newline
    | Eof

  /** The token array ends in T_EOF. */
  function At(t: seq<Token>, i: nat): Token {
    if i < |t| then t[i] else Eof
  }

  predicate Kw(t: seq<Token>, i: nat, w: Lexeme) {
    At(t, i) == Word(w)
  }

  /** The words that close a block. */
  predicate Closes(w: Lexeme) {
    w.ThenWord? || w.ElseWord? || w.ElifWord? || w.FiWord? || w.DoWord? || w.DoneWord? || w.EsacWord? || w.CloseBrace?
  }

  /** The words that open a compound command. */
  predicate Opens(w: Lexeme) {
    w.IfWord? || w.ForWord? || w.WhileWord? || w.UntilWord? || w.CaseWord? || w.OpenBrace?
  }

  /** Statement separators. */
  predicate Sep(tok: Token) {
    tok.Semi? || tok.Newline?
  }

  predicate Joins(tok: Token) {
    tok.AndIf? || tok.OrIf?
  }

  /** at_block_end: a token that closes the list it is met in. */
  predicate BlockEnd(t: seq<Token>, i: nat) {
    match At(t, i)
    case Eof => true
    case RParen => true
    case Word(w) => Closes(w)
    case _ => false
  }

  predicate CompoundStart(t: seq<Token>, i: nat) {
    match At(t, i)
    case LParen => true
    case Word(w) => Opens(w)
    case _ => false
  }

  /** `name ( )`, the start of a function definition. */
  predicate Definition(t: seq<Token>, i: nat) {
    At(t, i).Word? && At(t, i + 1) == LParen && At(t, i + 2) == RParen
  }

  /** A list goes no further over such a token without its own separator handling. */
  predicate Stuck(t: seq<Token>, i: nat) {
    BlockEnd(t, i) || Sep(At(t, i)) || At(t, i).Amp?
  }

  function SkipSeps(t: seq<Token>, i: nat): (j: nat)
    ensures j >= i && (i <= |t| ==> j <= |t|)
    ensures !Sep(At(t, j))
    ensures j == i <==> !Sep(At(t, i))
    decreases |t| - i
  {
    if Sep(At(t, i)) then SkipSeps(t, i + 1) else i
  }

  function SkipNewlines(t: seq<Token>, i: nat): (j: nat)
    ensures j >= i && (i <= |t| ==> j <= |t|)
    ensures At(t, j) != Newline
    ensures j == i <==> At(t, i) != Newline
    decreases |t| - i
  {
    if At(t, i) == Newline then SkipNewlines(t, i + 1) else i
  }

  /** A redirection operator, with the word it takes if there is one. */
  function RedirectLength(t: seq<Token>, i: nat): nat {
    match At(t, i)
    case ErrToOut => 1
    case Less => if At(t, i + 1).Word? then 2 else 1
    case DLess => if At(t, i + 1).Word? then 2 else 1
    case Great => if At(t, i + 1).Word? then 2 else 1
    case DGreat => if At(t, i + 1).Word? then 2 else 1
    case ErrGreat => if At(t, i + 1).Word? then 2 else 1
    case GreatAmp => if At(t, i + 1).Word? then 2 else 1
    case _ => 0
  }

  /** The words and redirections of one simple command; a reserved word ends it only in front. */
  function SkipSimple(t: seq<Token>, i: nat, seen: bool): (j: nat)
    ensures j >= i && (i <= |t| ==> j <= |t|)
    ensures j == i <==> (if At(t, i).Word? then !seen && BlockEnd(t, i) else RedirectLength(t, i) == 0)
    decreases |t| - i
  {
    if At(t, i).Word? then
      if !seen && BlockEnd(t, i) then i else SkipSimple(t, i + 1, true)
    else if RedirectLength(t, i) > 0 then
      SkipSimple(t, i + RedirectLength(t, i), seen)
    else
      i
  }

  /** cmd (| cmd)*, all of them simple. */
  function SkipStages(t: seq<Token>, i: nat): (j: nat)
    ensures j >= i && (i <= |t| ==> j <= |t|)
    ensures !Stuck(t, i) && !Joins(At(t, i)) && !At(t, i).LParen? ==> j > i
    decreases |t| - i
  {
    var j := SkipSimple(t, i, false);
    if At(t, j) == Pipe then SkipStages(t, SkipNewlines(t, j + 1)) else j
  }

  function SkipCommand(t: seq<Token>, i: nat): (j: nat)
    ensures j >= i && (i <= |t| ==> j <= |t|)
    ensures CompoundStart(t, i) || Definition(t, i) ==> j > i
    decreases |t| - i, 2
  {
    if Definition(t, i) then SkipAndOr(t, SkipNewlines(t, i + 3))
    else if Kw(t, i, IfWord) then SkipIf(t, i + 1)
    else if Kw(t, i, ForWord) then SkipFor(t, i)
    else if Kw(t, i, WhileWord) || Kw(t, i, UntilWord) then SkipWhile(t, i)
    else if Kw(t, i, CaseWord) then SkipCase(t, i)
    else if Kw(t, i, OpenBrace) then
      var j := SkipList(t, i + 1);
      if Kw(t, j, CloseBrace) then j + 1 else j
    else if At(t, i) == LParen then
      var j := SkipList(t, i + 1);
      if At(t, j) == RParen then j + 1 else j
    else
      SkipSimple(t, i, false)
  }

  function SkipPipeline(t: seq<Token>, i: nat): (j: nat)
    ensures j >= i && (i <= |t| ==> j <= |t|)
    ensures !Stuck(t, i) && !Joins(At(t, i)) ==> j > i
    decreases |t| - i, 3
  {
    if CompoundStart(t, i) || Definition(t, i) then SkipCommand(t, i) else SkipStages(t, i)
  }

  function SkipAndOrRest(t: seq<Token>, i: nat): (j: nat)
    ensures j >= i && (i <= |t| ==> j <= |t|)
    ensures Joins(At(t, i)) ==> j > i
    decreases |t| - i, 0
  {
    if Joins(At(t, i)) then
      SkipAndOrRest(t, SkipPipeline(t, SkipNewlines(t, i + 1)))
    else
      i
  }

  /** pipeline ((&& | ||) pipeline)* */
  function SkipAndOr(t: seq<Token>, i: nat): (j: nat)
    ensures j >= i && (i <= |t| ==> j <= |t|)
    ensures !Stuck(t, i) ==> j > i
    decreases |t| - i, 4
  {
    SkipAndOrRest(t, SkipPipeline(t, i))
  }

  /** and-or lists up to a token that closes the enclosing block. */
  function SkipList(t: seq<Token>, i: nat): (j: nat)
    ensures j >= i && (i <= |t| ==> j <= |t|)
    ensures BlockEnd(t, j)
    decreases |t| - i, 5
  {
    var s := SkipSeps(t, i);
    if BlockEnd(t, s) then
      s
    else
      var j := SkipAndOr(t, s);
      if At(t, j) == Amp then SkipList(t, j + 1) else SkipList(t, j)
  }

  /** skip_to: commands up to a keyword, stepping over stray tokens. */
  function SkipTo(t: seq<Token>, i: nat, closer: Lexeme): (j: nat)
    ensures j >= i && (i <= |t| ==> j <= |t|)
    ensures At(t, j) == Eof || Kw(t, j, closer)
    decreases |t| - i, 5
  {
    if At(t, i) == Eof || Kw(t, i, closer) then
      i
    else
      var j := SkipSeps(t, SkipAndOr(t, i));
      SkipTo(t, if j == i then i + 1 else j, closer)
  }

  /** One condition with the commands after its `then`. */
  function SkipClause(t: seq<Token>, i: nat): (j: nat)
    ensures j >= i && (i <= |t| ==> j <= |t|)
    decreases |t| - i, 6
  {
    var c := SkipSeps(t, SkipList(t, i));
    SkipSeps(t, SkipList(t, if Kw(t, c, ThenWord) then c + 1 else c))
  }

  /** From a condition of an `if` or `elif` to past its `fi`. */
  function SkipIf(t: seq<Token>, i: nat): (j: nat)
    requires i <= |t|
    ensures i <= j <= |t|
    decreases |t| - i, 8
  {
    SkipAfter(t, SkipClause(t, i))
  }

  /** What follows the commands of a branch: another condition, or the end. */
  function SkipAfter(t: seq<Token>, i: nat): (j: nat)
    requires i <= |t|
    ensures i <= j <= |t|
    decreases |t| - i, 7
  {
    if Kw(t, i, ElifWord) then SkipIf(t, i + 1) else SkipElse(t, i)
  }

  /** An optional `else` and the `fi`. */
  function SkipElse(t: seq<Token>, i: nat): (j: nat)
    requires i <= |t|
    ensures i <= j <= |t|
    decreases |t| - i, 6
  {
    var e := if Kw(t, i, ElseWord) then SkipSeps(t, SkipList(t, i + 1)) else i;
    if Kw(t, e, FiWord) then e + 1 else e
  }

  function SkipForWords(t: seq<Token>, i: nat): (j: nat)
    ensures j >= i && (i <= |t| ==> j <= |t|)
    decreases |t| - i
  {
    if At(t, i).Word? && !Kw(t, i, DoWord) then SkipForWords(t, i + 1) else i
  }

  /** The first token of the body of a `for`. */
  function ForBody(t: seq<Token>, i: nat): (j: nat)
    requires i < |t|
    ensures i < j <= |t|
  {
    var v := if At(t, i + 1).Word? then i + 2 else i + 1;
    var w := SkipSeps(t, if Kw(t, v, InWord) then SkipForWords(t, v + 1) else v);
    if Kw(t, w, DoWord) then w + 1 else w
  }

  /** The rest of a loop from its body: to past its `done`. */
  function SkipBody(t: seq<Token>, i: nat): (j: nat)
    ensures j >= i && (i <= |t| ==> j <= |t|)
    decreases |t| - i, 6
  {
    var d := SkipTo(t, i, DoneWord);
    if Kw(t, d, DoneWord) then d + 1 else d
  }

  function SkipFor(t: seq<Token>, i: nat): (j: nat)
    requires i < |t|
    ensures i < j <= |t|
    decreases |t| - i, 1
  {
    SkipBody(t, ForBody(t, i))
  }

  /** The first token of the body of a `while` or `until`. */
  function WhileBody(t: seq<Token>, i: nat): (j: nat)
    requires i < |t|
    ensures i < j <= |t|
    decreases |t| - i, 0
  {
    var scan := SkipList(t, i + 1);
    if Kw(t, scan, DoWord) then scan + 1 else scan
  }

  function SkipWhile(t: seq<Token>, i: nat): (j: nat)
    requires i < |t|
    ensures i < j <= |t|
    decreases |t| - i, 1
  {
    SkipBody(t, WhileBody(t, i))
  }

  function SkipPatterns(t: seq<Token>, i: nat): (j: nat)
    ensures j >= i && (i <= |t| ==> j <= |t|)
    ensures At(t, i).Word? || At(t, i) == Pipe ==> j > i
    decreases |t| - i
  {
    var w := if At(t, i).Word? then i + 1 else i;
    if At(t, w) == Pipe then SkipPatterns(t, w + 1) else w
  }

  predicate DoubleSemi(t: seq<Token>, i: nat) {
    At(t, i) == Semi && At(t, i + 1) == Semi
  }

  /** The commands of one case arm, up to `;;`, `esac` or the end. */
  function SkipArmBody(t: seq<Token>, i: nat): (j: nat)
    ensures j >= i && (i <= |t| ==> j <= |t|)
    ensures DoubleSemi(t, j) || At(t, j) == Eof || Kw(t, j, EsacWord)
    decreases |t| - i, 5
  {
    var s := SkipNewlines(t, i);
    if DoubleSemi(t, s) || At(t, s) == Eof || Kw(t, s, EsacWord) then
      s
    else
      var j := SkipAndOr(t, s);
      if DoubleSemi(t, j) then j
      else
        var k := if Sep(At(t, j)) then j + 1 else j;
        SkipArmBody(t, if k == s then s + 1 else k)
  }

  /** The first token of the commands of an arm. */
  function ArmBody(t: seq<Token>, i: nat): (j: nat)
    ensures j >= i && (i <= |t| ==> j <= |t|)
  {
    var p := SkipPatterns(t, if At(t, i) == LParen then i + 1 else i);
    if At(t, p) == RParen then p + 1 else p
  }

  /** One arm, with its `;;` and the separators after it. */
  function SkipArm(t: seq<Token>, i: nat): (j: nat)
    ensures j >= i && (i <= |t| ==> j <= |t|)
    ensures At(t, i) == Eof || Kw(t, i, EsacWord) || j > i
    decreases |t| - i, 6
  {
    var b := SkipArmBody(t, ArmBody(t, i));
    SkipSeps(t, if DoubleSemi(t, b) then b + 2 else b)
  }

  function SkipArms(t: seq<Token>, i: nat): (j: nat)
    ensures j >= i && (i <= |t| ==> j <= |t|)
    decreases |t| - i, 7
  {
    if At(t, i) == Eof || Kw(t, i, EsacWord) then i else SkipArms(t, SkipArm(t, i))
  }

  /** The first arm of a `case`. */
  function CaseArms(t: seq<Token>, i: nat): (j: nat)
    requires i < |t|
    ensures i < j <= |t|
  {
    var w := if At(t, i + 1).Word? then i + 2 else i + 1;
    SkipSeps(t, if Kw(t, w, InWord) then w + 1 else w)
  }

  function SkipCase(t: seq<Token>, i: nat): (j: nat)
    requires i < |t|
    ensures i < j <= |t|
    decreases |t| - i, 1
  {
    var e := SkipArms(t, CaseArms(t, i));
    if Kw(t, e, EsacWord) then e + 1 else e
  }
}
