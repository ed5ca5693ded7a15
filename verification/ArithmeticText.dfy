/**
  Expression trees and their text with as few parentheses as the grammar allows: evaluating the text
  gives the tree's value and leaves the variables as the tree's assignments do.
 */
module ArithmeticText {
  import opened Arithmetic

  datatype Expr =
    | Lit(n: nat)
    | Var(name: string)
    | Unary(uop: UnOp, e: Expr)
    | Binary(op: BinOp, left: Expr, right: Expr)
    | Assign(name: string, e: Expr)
    | Update(name: string, op: BinOp, e: Expr)

  predicate IsName(x: string) {
    x != "" && NameStart(x[0]) && forall i | 0 <= i < |x| :: NameChar(x[i])
  }

  predicate WellFormed(e: Expr) {
    match e
    case Lit(_) => true
    case Var(x) => IsName(x)
    case Unary(_, a) => WellFormed(a)
    case Binary(_, a, b) => WellFormed(a) && WellFormed(b)
    case Assign(x, a) => IsName(x) && WellFormed(a)
    case Update(x, op, a) => IsName(x) && (op.Add? || op.Sub? || op.Mul? || op.Div? || op.Mod?) && WellFormed(a)
  }

  /** The value of a tree and the variables after it, from left to right. */
  function Value(e: Expr, env: Env): (int, Env) {
    match e
    case Lit(n) => (n, env)
    case Var(x) => (Lookup(env, x), env)
    case Unary(op, a) => var (v, env1) := Value(a, env); (ApplyUn(op, v), env1)
    case Binary(op, a, b) =>
      var (v, env1) := Value(a, env);
      var (w, env2) := Value(b, env1);
      (Apply(op, v, w), env2)
    case Assign(x, a) => var (v, env1) := Value(a, env); (v, env1[Truncate(x) := v])
    case Update(x, op, a) =>
      var (v, env1) := Value(a, env);
      var w := Apply(op, Lookup(env1, x), v);
      (w, env1[Truncate(x) := w])
  }

  // ---------------------------------------------------------------------------------------------
  // Writing
  // ---------------------------------------------------------------------------------------------

  function DigitChar(d: nat): (c: char)
    requires d < 10
    ensures IsDigit(c) && DigitValue(c) == d
  {
    ('0' as int + d) as char
  }

  /** A number in decimal, in front of `rest`. */
  function WriteNat(n: nat, rest: string): string {
    if n < 10 then [DigitChar(n)] + rest else WriteNat(n / 10, [DigitChar(n % 10)] + rest)
  }

  function UnText(op: UnOp): char {
    match op
    case Minus => '-'
    case Plus => '+'
    case Not => '!'
    case Invert => '~'
  }

  function OpText(op: BinOp): string {
    match op
    case Or => "||"
    case And => "&&"
    case Equal => "=="
    case Unequal => "!="
    case AtMost => "<="
    case AtLeast => ">="
    case Below => "<"
    case Above => ">"
    case Add => "+"
    case Sub => "-"
    case Mul => "*"
    case Div => "/"
    case Mod => "%"
  }

  /** How tightly the outermost operator of a tree binds. */
  function Tightness(e: Expr): nat {
    match e
    case Lit(_) => 8
    case Var(_) => 8
    case Unary(_, _) => 7
    case Binary(op, _, _) => LevelOf(op)
    case _ => 0
  }

  /** The text of `e` where an operand of level `k` is expected, in front of `rest`. */
  function Write(e: Expr, k: nat, rest: string): string
    decreases e, if Tightness(e) < k then 1 else 0
  {
    if Tightness(e) < k then "(" + Write(e, 0, ")" + rest)
    else
      match e
      case Lit(n) => WriteNat(n, rest)
      case Var(x) => x + rest
      case Unary(op, a) => [UnText(op)] + Write(a, 7, rest)
      case Binary(op, a, b) => Write(a, LevelOf(op), OpText(op) + Write(b, LevelOf(op) + 1, rest))
      case Assign(x, a) => x + ("=" + Write(a, 0, rest))
      case Update(x, op, a) => x + (OpText(op) + ("=" + Write(a, 0, rest)))
  }

  // ---------------------------------------------------------------------------------------------
  // What may follow an operand
  // ---------------------------------------------------------------------------------------------

  /** Nothing here would continue a name or a number. */
  predicate Ends(rest: string) {
    rest == "" || !NameChar(rest[0])
  }

  /** No assignment sign here, plain or compound. */
  predicate NoSign(rest: string) {
    var r := SkipBlanks(rest);
    && !(One(r, '=') && !Two(r, '=', '='))
    && !Two(r, '+', '=') && !Two(r, '-', '=') && !Two(r, '*', '=') && !Two(r, '/', '=') && !Two(r, '%', '=')
  }

  /** No binary operator of level `k` or tighter here. */
  predicate NoOpFrom(k: nat, rest: string) {
    forall j | k <= j <= 6 :: OpAt(j, SkipBlanks(rest)).NoOp?
  }

  /** The front of an operand: a digit, a name, a unary operator or a parenthesis. */
  predicate Fronts(s: string) {
    s != "" && (IsDigit(s[0]) || NameStart(s[0]) || s[0] == '(' || s[0] in "-+!~")
  }

  lemma NameReads(x: string, rest: string)
    requires IsName(x) && Ends(rest)
    ensures NameLength(x + rest) == |x| && (x + rest)[..|x|] == x && (x + rest)[|x|..] == rest
  {
    var s := x + rest;
    assert forall i | 0 <= i < |x| :: NameChar(s[i]);
    assert rest != "" ==> s[|x|] == rest[0];
  }

  /** Behind an operator text there is an operand, so the text is read as that operator. */
  lemma OpReads(op: BinOp, s: string)
    requires Fronts(s)
    ensures var r := OpText(op) + s;
            && OpAt(LevelOf(op), r) == Found(op, |OpText(op)|) && r[|OpText(op)|..] == s
            && SkipBlanks(r) == r && Ends(r) && NoSign(r) && NoOpFrom(LevelOf(op) + 1, r)
  {
  }

  // ---------------------------------------------------------------------------------------------
  // Numbers
  // ---------------------------------------------------------------------------------------------

  lemma {:induction false} DigitsRead(n: nat, rest: string, env: Env)
    requires n > 0
    ensures WriteNat(n, rest) != "" && IsDigit(WriteNat(n, rest)[0])
    ensures ReadNumber(WriteNat(n, rest), env) == ReadDigits(rest, 10, n, env)
    decreases n
  {
    if n < 10 {
      assert ([DigitChar(n)] + rest)[1..] == rest;
    } else {
      var d := DigitChar(n % 10);
      DigitsRead(n / 10, [d] + rest, env);
      assert ([d] + rest)[1..] == rest;
      assert n / 10 * 10 + n % 10 == n;
    }
  }

  lemma NumberReads(n: nat, rest: string, env: Env)
    requires Ends(rest)
    ensures WriteNat(n, rest) != "" && IsDigit(WriteNat(n, rest)[0])
    ensures ReadNumber(WriteNat(n, rest), env) == Parsed(n, env, rest)
  {
    if n > 0 {
      DigitsRead(n, rest, env);
    } else {
      assert WriteNat(0, rest) == ['0'] + rest;
      assert (['0'] + rest)[1..] == rest;
    }
  }

  // ---------------------------------------------------------------------------------------------
  // Expressions
  // ---------------------------------------------------------------------------------------------

  /** A looser expectation than the tree needs changes nothing in its text. */
  lemma SameText(e: Expr, k: nat, rest: string)
    requires Tightness(e) != k
    ensures Write(e, k, rest) == Write(e, k + 1, rest)
  {
  }

  lemma NameFronts(x: string, rest: string)
    requires IsName(x) && Ends(rest)
    ensures Fronts(x + rest) && (NoSign(rest) ==> TargetAt(x + rest).NoTarget?)
  {
    NameReads(x, rest);
    assert (x + rest)[0] == x[0];
  }

  /** Whatever starts with something else than a letter is no assignment. */
  lemma OtherFronts(c: char, rest: string)
    requires IsDigit(c) || c == '(' || c == '-' || c == '+' || c == '!' || c == '~'
    ensures Fronts([c] + rest) && TargetAt([c] + rest).NoTarget?
  {
    assert "-+!~"[0] == '-' && "-+!~"[1] == '+' && "-+!~"[2] == '!' && "-+!~"[3] == '~';
  }

  lemma SignFronts(x: string, s: string)
    requires IsName(x)
    ensures Fronts(x + s)
  {
    assert (x + s)[0] == x[0];
  }

  /** The front of a written tree, which below level 0 is never the target of an assignment. */
  lemma {:induction false} FrontReads(e: Expr, k: nat, rest: string)
    requires WellFormed(e) && Ends(rest)
    ensures Fronts(Write(e, k, rest))
    ensures (k > 0 || Tightness(e) > 0) && NoSign(rest) ==> TargetAt(Write(e, k, rest)).NoTarget?
    decreases e
  {
    hide Fronts, TargetAt, NoSign, Ends, NoOpFrom, OpAt;
    if Tightness(e) < k {
      OtherFronts('(', Write(e, 0, ")" + rest));
    } else {
      match e
      case Lit(n) =>
        NumberReads(n, rest, map[]);
        DigitFronts(WriteNat(n, rest));
      case Var(x) => NameFronts(x, rest);
      case Unary(op, a) => OtherFronts(UnText(op), Write(a, 7, rest));
      case Binary(op, a, b) =>
        FrontReads(b, LevelOf(op) + 1, rest);
        OpReads(op, Write(b, LevelOf(op) + 1, rest));
        FrontReads(a, LevelOf(op), OpText(op) + Write(b, LevelOf(op) + 1, rest));
      case Assign(x, a) => SignFronts(x, "=" + Write(a, 0, rest));
      case Update(x, op, a) => SignFronts(x, OpText(op) + ("=" + Write(a, 0, rest)));
    }
  }

  lemma DigitFronts(s: string)
    requires s != "" && IsDigit(s[0])
    ensures Fronts(s) && TargetAt(s).NoTarget?
  {
  }

  /** Reading on depends only on what stands behind the blanks. */
  lemma MoreSkipsBlanks(k: nat, v: int, env: Env, rest: string)
    requires 1 <= k <= 6
    ensures ReadMore(k, Parsed(v, env, SkipBlanks(rest))) == ReadMore(k, Parsed(v, env, rest))
  {
  }

  lemma MoreStops(k: nat, v: int, env: Env, rest: string)
    requires 1 <= k <= 6 && NoOpFrom(k, rest)
    ensures ReadMore(k, Parsed(v, env, rest)) == Parsed(v, env, SkipBlanks(rest))
  {
  }

  lemma UnaryFront(op: UnOp, s: string, env: Env)
    ensures var e := ReadUnary(s, env);
            ReadUnary([UnText(op)] + s, env) == e.(value := ApplyUn(op, e.value))
  {
    var t := [UnText(op)] + s;
    assert t[0] in "-+!~" by {
      assert "-+!~"[0] == '-' && "-+!~"[1] == '+' && "-+!~"[2] == '!' && "-+!~"[3] == '~';
    }
    assert t[1..] == s && SkipBlanks(t) == t;
  }

  lemma ParenReads(s: string, env: Env, rest: string)
    requires ReadAssign(s, env).rest == ")" + rest
    ensures ReadPrim("(" + s, env) == ReadAssign(s, env).(rest := rest)
  {
    var t := "(" + s;
    assert t[1..] == s && SkipBlanks(t) == t;
    assert (")" + rest)[1..] == rest && SkipBlanks(")" + rest) == ")" + rest;
  }

  lemma PlainTarget(x: string, s: string)
    requires IsName(x) && Fronts(s)
    ensures TargetAt(x + ("=" + s)) == Plain(x, s)
  {
    NameReads(x, "=" + s);
    assert ("=" + s)[1..] == s && SkipBlanks("=" + s) == "=" + s;
  }

  lemma CompoundTarget(x: string, op: BinOp, s: string)
    requires IsName(x) && (op.Add? || op.Sub? || op.Mul? || op.Div? || op.Mod?)
    ensures TargetAt(x + (OpText(op) + ("=" + s))) == Compound(x, op, s)
  {
    var r := OpText(op) + ("=" + s);
    assert Ends(r);
    NameReads(x, r);
    assert r[2..] == s && SkipBlanks(r) == r && r[1] == '=';
  }

  lemma NameNotBlank(x: string, s: string)
    requires IsName(x)
    ensures SkipBlanks(x + s) == x + s
  {
    assert (x + s)[0] == x[0];
  }

  /** How far a tree is from the level that it is expected at. */
  function Distance(e: Expr, k: nat): nat {
    if k <= Tightness(e) then Tightness(e) - k else if k < 28 then 28 - k else 0
  }

  /** A level reads an operand of the next level and then goes on; parenthesised or tighter, the tree is one. */
  lemma {:induction false} LevelReads(e: Expr, k: nat, rest: string, env: Env)
    requires WellFormed(e) && 1 <= k <= 6 && Ends(rest) && NoSign(rest) && NoOpFrom(k + 1, rest)
    ensures var (v, env1) := Value(e, env);
            ReadLevel(k, Write(e, k, rest), env) == ReadMore(k, Parsed(v, env1, rest))
    decreases e, Distance(e, k), 1
  {
    hide Write, ReadMore, NoOpFrom, NoSign, Ends;
    var (v, env1) := Value(e, env);
    if Tightness(e) == k {
      ChainReads(e, rest, env);
    } else {
      SameText(e, k, rest);
      OperandReads(e, k + 1, rest, env);
      MoreSkipsBlanks(k, v, env1, rest);
    }
  }

  /** An operand of level `k`, which is not continued at that level. */
  lemma {:induction false} OperandReads(e: Expr, k: nat, rest: string, env: Env)
    requires WellFormed(e) && 2 <= k <= 7 && Ends(rest) && NoSign(rest) && NoOpFrom(k, rest)
    ensures var (v, env1) := Value(e, env);
            var p := ReadLevel(k, Write(e, k, rest), env);
            p == Parsed(v, env1, rest) || p == Parsed(v, env1, SkipBlanks(rest))
    decreases e, Distance(e, k), 2
  {
    hide Write, NoSign, Ends;
    var (v, env1) := Value(e, env);
    if k == 7 {
      UnaryReads(e, rest, env);
    } else {
      LevelReads(e, k, rest, env);
      MoreStops(k, v, env1, rest);
    }
  }

  /** A chain of operators of one level is read from the left. */
  lemma {:induction false} ChainReads(e: Expr, rest: string, env: Env)
    requires WellFormed(e) && e.Binary? && Ends(rest) && NoSign(rest) && NoOpFrom(LevelOf(e.op) + 1, rest)
    ensures var (v, env1) := Value(e, env);
            var k := LevelOf(e.op);
            ReadLevel(k, Write(e, k, rest), env) == ReadMore(k, Parsed(v, env1, rest))
    decreases e, 0, 0
  {
    hide NoOpFrom, NoSign, Ends, OpAt, Fronts;
    var Binary(op, a, b) := e;
    var k := LevelOf(op);
    var (va, env1) := Value(a, env);
    var (vb, env2) := Value(b, env1);
    var operand := Write(b, k + 1, rest);
    FrontReads(b, k + 1, rest);
    OpReads(op, operand);
    LevelReads(a, k, OpText(op) + operand, env);
    OperandReads(b, k + 1, rest, env1);
    MoreSkipsBlanks(k, Apply(op, va, vb), env2, rest);
  }

  lemma {:induction false} UnaryReads(e: Expr, rest: string, env: Env)
    requires WellFormed(e) && Ends(rest) && NoSign(rest)
    ensures var (v, env1) := Value(e, env);
            ReadUnary(Write(e, 7, rest), env) == Parsed(v, env1, rest)
    decreases e, Distance(e, 7), 0
  {
    hide Ends, NoSign, ReadPrim;
    if e.Unary? {
      hide ReadUnary;
      UnaryReads(e.e, rest, env);
      UnaryFront(e.uop, Write(e.e, 7, rest), env);
    } else {
      hide Write;
      SameText(e, 7, rest);
      PrimReads(e, rest, env);
    }
  }

  /** A number, a name, or anything else in parentheses. */
  lemma {:induction false} PrimReads(e: Expr, rest: string, env: Env)
    requires WellFormed(e) && !e.Unary? && Ends(rest) && NoSign(rest)
    ensures var (v, env1) := Value(e, env);
            ReadPrim(Write(e, 8, rest), env) == Parsed(v, env1, rest)
    ensures var s := Write(e, 8, rest); s != "" && s[0] !in "-+!~" && SkipBlanks(s) == s
    decreases e, Distance(e, 8), 0
  {
    if Tightness(e) == 8 {
      LeafReads(e, rest, env);
    } else {
      hide ReadPrim, Value, Ends, NoSign, NoOpFrom;
      var inside := ")" + rest;
      Closed(rest);
      AssignReads(e, inside, env);
      ParenReads(Write(e, 0, inside), env, rest);
    }
  }

  lemma Closed(rest: string)
    ensures Ends(")" + rest) && NoSign(")" + rest) && NoOpFrom(1, ")" + rest) && SkipBlanks(")" + rest) == ")" + rest
  {
  }

  lemma LeafReads(e: Expr, rest: string, env: Env)
    requires WellFormed(e) && Tightness(e) == 8 && Ends(rest)
    ensures var s := Write(e, 8, rest);
            ReadPrim(s, env) == Parsed(Value(e, env).0, env, rest) && Value(e, env).1 == env
            && s != "" && s[0] !in "-+!~" && SkipBlanks(s) == s
  {
    if e.Lit? {
      NumberReads(e.n, rest, env);
    } else {
      NameReads(e.name, rest);
      NameNotBlank(e.name, rest);
    }
  }

  /** A whole expression, assignments included. */
  lemma {:induction false} AssignReads(e: Expr, rest: string, env: Env)
    requires WellFormed(e) && Ends(rest) && NoSign(rest) && NoOpFrom(1, rest)
    ensures var (v, env1) := Value(e, env);
            ReadAssign(Write(e, 0, rest), env) == Parsed(v, env1, SkipBlanks(rest))
    decreases e, Distance(e, 0), 3
  {
    hide TargetAt, ReadLevel, NoSign, NoOpFrom, Ends;
    match e
    case Assign(x, a) =>
      AssignReads(a, rest, env);
      FrontReads(a, 0, rest);
      PlainTarget(x, Write(a, 0, rest));
      NameNotBlank(x, "=" + Write(a, 0, rest));
    case Update(x, op, a) =>
      AssignReads(a, rest, env);
      CompoundTarget(x, op, Write(a, 0, rest));
      NameNotBlank(x, OpText(op) + ("=" + Write(a, 0, rest)));
    case _ =>
      LevelOneReads(e, rest, env);
  }

  lemma {:induction false} LevelOneReads(e: Expr, rest: string, env: Env)
    requires WellFormed(e) && Ends(rest) && NoSign(rest) && NoOpFrom(1, rest) && Tightness(e) > 0
    ensures var (v, env1) := Value(e, env);
            ReadAssign(Write(e, 0, rest), env) == Parsed(v, env1, SkipBlanks(rest))
    decreases e, Distance(e, 0), 2
  {
    hide TargetAt, ReadLevel, Write, NoSign, Ends, Value;
    var (v, env1) := Value(e, env);
    FrontReads(e, 0, rest);
    SameText(e, 0, rest);
    assert NoOpFrom(2, rest);
    LevelReads(e, 1, rest, env);
    MoreStops(1, v, env1, rest);
  }

  /**
    Evaluating the text of a tree gives the tree's value and its assignments, with nothing left over:
    parentheses stand only where the levels need them, and the levels group as the source's do.
   */
  lemma TextEvaluates(e: Expr, env: Env)
    requires WellFormed(e)
    ensures ReadAssign(Write(e, 0, ""), env) == Parsed(Value(e, env).0, Value(e, env).1, "")
  {
    AssignReads(e, "", env);
  }
}
