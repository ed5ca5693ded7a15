/**
  What the operators of `$(( ))` compute: the value of every operator between two written-out numbers, the laws that
  fix them on all other operands, which operator binds first, the three spellings of a number, blanks, and what an
  assignment does to every other variable.
 */
module ArithmeticLaws {
  import opened Common
  import opened Arithmetic
  import opened ArithmeticText

  // ---------------------------------------------------------------------------------------------
  // Operators as they are written
  // ---------------------------------------------------------------------------------------------

  /** The value of `x sign y`, both numbers in decimal. */
  function Spelled(x: nat, sign: string, y: nat, env: Env): Parsed {
    ReadAssign(WriteNat(x, sign + WriteNat(y, "")), env)
  }

  lemma SpelledOp(op: BinOp, x: nat, y: nat, env: Env)
    ensures Spelled(x, OpText(op), y, env) == Parsed(Apply(op, x, y), env, "")
  {
    var e := Binary(op, Lit(x), Lit(y));
    TextEvaluates(e, env);
    assert Write(e, 0, "") == WriteNat(x, OpText(op) + WriteNat(y, ""));
  }

  /** Each sign between two numbers computes what it stands for. */
  lemma SignsCompute(x: nat, y: nat, env: Env)
    ensures Spelled(x, "+", y, env) == Parsed(x + y, env, "")
    ensures Spelled(x, "-", y, env) == Parsed(x - y, env, "")
    ensures Spelled(x, "*", y, env) == Parsed(x * y, env, "")
    ensures Spelled(x, "/", y, env) == Parsed(if y == 0 then 0 else x / y, env, "")
    ensures Spelled(x, "%", y, env) == Parsed(if y == 0 then 0 else x % y, env, "")
    ensures Spelled(x, "<", y, env) == Parsed(if x < y then 1 else 0, env, "")
    ensures Spelled(x, "<=", y, env) == Parsed(if x <= y then 1 else 0, env, "")
    ensures Spelled(x, ">", y, env) == Parsed(if x > y then 1 else 0, env, "")
    ensures Spelled(x, ">=", y, env) == Parsed(if x >= y then 1 else 0, env, "")
    ensures Spelled(x, "==", y, env) == Parsed(if x == y then 1 else 0, env, "")
    ensures Spelled(x, "!=", y, env) == Parsed(if x != y then 1 else 0, env, "")
    ensures Spelled(x, "&&", y, env) == Parsed(if x > 0 && y > 0 then 1 else 0, env, "")
    ensures Spelled(x, "||", y, env) == Parsed(if x > 0 || y > 0 then 1 else 0, env, "")
  {
    hide Spelled;
    SpelledOp(Add, x, y, env);
    SpelledOp(Sub, x, y, env);
    SpelledOp(Mul, x, y, env);
    SpelledOp(Div, x, y, env);
    SpelledOp(Mod, x, y, env);
    SpelledOp(Below, x, y, env);
    SpelledOp(AtMost, x, y, env);
    SpelledOp(Above, x, y, env);
    SpelledOp(AtLeast, x, y, env);
    SpelledOp(Equal, x, y, env);
    SpelledOp(Unequal, x, y, env);
    SpelledOp(And, x, y, env);
    SpelledOp(Or, x, y, env);
    NatDivision(x, y);
  }

  lemma NatDivision(x: nat, y: nat)
    ensures Quotient(x, y) == if y == 0 then 0 else x / y
    ensures Remainder(x, y) == if y == 0 then 0 else x % y
  {
    if y > 0 {
      DivMod(x, y);
    }
  }

  lemma SpelledUnary(op: UnOp, x: nat, env: Env)
    ensures ReadAssign([UnText(op)] + WriteNat(x, ""), env) == Parsed(ApplyUn(op, x), env, "")
  {
    TextEvaluates(Unary(op, Lit(x)), env);
  }

  /** So does each sign in front of one. */
  lemma PrefixesCompute(x: nat, env: Env)
    ensures ReadAssign("-" + WriteNat(x, ""), env) == Parsed(0 - x, env, "")
    ensures ReadAssign("+" + WriteNat(x, ""), env) == Parsed(x, env, "")
    ensures ReadAssign("!" + WriteNat(x, ""), env) == Parsed(if x == 0 then 1 else 0, env, "")
    ensures ReadAssign("~" + WriteNat(x, ""), env) == Parsed(-1 - x, env, "")
  {
    hide ReadAssign;
    SpelledUnary(Minus, x, env);
    SpelledUnary(Plus, x, env);
    SpelledUnary(Not, x, env);
    SpelledUnary(Invert, x, env);
  }

  // ---------------------------------------------------------------------------------------------
  // Operators on all values
  // ---------------------------------------------------------------------------------------------

  /** Sums, differences and products are those of the integers: by zero and successor, and undone by one another. */
  lemma Ring(a: int, b: int)
    ensures Apply(Add, a, 0) == a && Apply(Add, a, b + 1) == Apply(Add, a, b) + 1
    ensures Apply(Add, Apply(Sub, a, b), b) == a
    ensures Apply(Mul, a, 0) == 0 && Apply(Mul, a, b + 1) == Apply(Add, Apply(Mul, a, b), a)
    ensures Apply(Add, a, ApplyUn(Minus, a)) == 0 && Apply(Add, a, ApplyUn(Invert, a)) == -1
    ensures ApplyUn(Plus, a) == a && ApplyUn(Invert, ApplyUn(Invert, a)) == a
  {
    assert a * (b + 1) == a * b + a;
  }

  /** Division is exact with its remainder, which is smaller than the divisor and signed like the dividend. */
  lemma Division(a: int, b: int)
    ensures b != 0 ==>
      var r := Apply(Mod, a, b);
      && Apply(Add, Apply(Mul, b, Apply(Div, a, b)), r) == a
      && Abs(r) < Abs(b) && (r == 0 || (r > 0 <==> a > 0))
    ensures Apply(Div, a, 0) == 0 && Apply(Mod, a, 0) == 0
  {
    hide Quotient, Remainder, Abs;
    if b != 0 {
      Truncation(a, b);
    }
    ByZero(a);
  }

  lemma ByZero(a: int)
    ensures Quotient(a, 0) == 0 && Remainder(a, 0) == 0
  {
  }

  /** The comparisons are one order: exactly one of below, equal and above, and the others are their opposites. */
  lemma Order(a: int, b: int)
    ensures Apply(Below, a, b) + Apply(Equal, a, b) + Apply(Above, a, b) == 1
    ensures Apply(Below, a, b) + Apply(AtLeast, a, b) == 1 && Apply(AtMost, a, b) + Apply(Above, a, b) == 1
    ensures Apply(Equal, a, b) + Apply(Unequal, a, b) == 1
    ensures Apply(Above, a, b) == Apply(Below, b, a) && Apply(AtLeast, a, b) == Apply(AtMost, b, a)
    ensures Apply(AtMost, a, b) == Apply(Or, Apply(Below, a, b), Apply(Equal, a, b))
    ensures Apply(Below, a, Apply(Add, a, 1)) == 1 && Apply(Equal, a, a) == 1
    ensures forall c :: Apply(Below, a, b) == 1 && Apply(Below, b, c) == 1 ==> Apply(Below, a, c) == 1
  {
  }

  /** And, or and not are those of truth values, with every number but 0 true. */
  lemma Logic(a: int, b: int)
    ensures forall op | op in {Or, And, Equal, Unequal, AtMost, AtLeast, Below, Above} ::
              Apply(op, a, b) == 0 || Apply(op, a, b) == 1
    ensures ApplyUn(Not, a) == Apply(Equal, a, 0)
    ensures ApplyUn(Not, Apply(And, a, b)) == Apply(Or, ApplyUn(Not, a), ApplyUn(Not, b))
    ensures ApplyUn(Not, Apply(Or, a, b)) == Apply(And, ApplyUn(Not, a), ApplyUn(Not, b))
    ensures Apply(And, a, 0) == 0 && Apply(And, a, 1) == ApplyUn(Not, ApplyUn(Not, a))
    ensures Apply(And, a, b) == Apply(And, b, a)
  {
  }

  /** Where an operand is missing it is 0: what does not start one is left for whoever reads on. */
  lemma MissingIsZero(s: string, env: Env)
    requires s == "" || (!Fronts(s) && !Blank(s[0]))
    ensures ReadLevel(7, s, env) == Parsed(0, env, s)
  {
    assert SkipBlanks(s) == s;
    assert ReadPrim(s, env) == Parsed(0, env, s);
    assert ReadUnary(s, env) == ReadPrim(s, env);
  }

  // ---------------------------------------------------------------------------------------------
  // Grouping
  // ---------------------------------------------------------------------------------------------

  /** The levels of C for these operators. */
  lemma Precedence()
    ensures LevelOf(Or) < LevelOf(And) < LevelOf(Equal) == LevelOf(Unequal)
    ensures LevelOf(Unequal) < LevelOf(Below) == LevelOf(Above) == LevelOf(AtMost) == LevelOf(AtLeast)
    ensures LevelOf(AtLeast) < LevelOf(Add) == LevelOf(Sub) < LevelOf(Mul) == LevelOf(Div) == LevelOf(Mod)
  {
  }

  lemma PairWritten(op: BinOp, x: nat, y: nat, k: nat, rest: string)
    ensures var pair := WriteNat(x, OpText(op) + WriteNat(y, rest));
      && (k <= LevelOf(op) ==> Write(Binary(op, Lit(x), Lit(y)), k, rest) == pair)
      && (k > LevelOf(op) ==>
            Write(Binary(op, Lit(x), Lit(y)), k, rest) == "(" + WriteNat(x, OpText(op) + WriteNat(y, ")" + rest)))
  {
    hide LevelOf, OpText, WriteNat;
    LiteralWritten(x, LevelOf(op), OpText(op) + WriteNat(y, rest));
    LiteralWritten(y, LevelOf(op) + 1, rest);
    LiteralWritten(x, LevelOf(op), OpText(op) + WriteNat(y, ")" + rest));
    LiteralWritten(y, LevelOf(op) + 1, ")" + rest);
  }

  lemma LiteralWritten(x: nat, k: nat, rest: string)
    ensures k <= 8 ==> Write(Lit(x), k, rest) == WriteNat(x, rest)
  {
  }

  lemma PairValue(op: BinOp, x: nat, y: nat, env: Env)
    ensures Value(Binary(op, Lit(x), Lit(y)), env) == (Apply(op, x, y), env)
  {
  }

  /** Of two operators in a row the tighter one goes first, and of two of one level the left one. */
  lemma Grouping(x: nat, p: BinOp, y: nat, q: BinOp, z: nat, env: Env)
    ensures ReadAssign(WriteNat(x, OpText(p) + WriteNat(y, OpText(q) + WriteNat(z, ""))), env)
      == Parsed(if LevelOf(p) >= LevelOf(q) then Apply(q, Apply(p, x, y), z) else Apply(p, x, Apply(q, y, z)), env, "")
  {
    hide ReadAssign, OpText, WriteNat, Apply, LevelOf;
    if LevelOf(p) >= LevelOf(q) {
      var left := Binary(p, Lit(x), Lit(y));
      TextEvaluates(Binary(q, left, Lit(z)), env);
      PairValue(p, x, y, env);
      LiteralWritten(z, LevelOf(q) + 1, "");
      PairWritten(p, x, y, LevelOf(q), OpText(q) + WriteNat(z, ""));
    } else {
      RightFirst(x, p, y, q, z, env);
      PairWritten(q, y, z, LevelOf(p) + 1, "");
    }
  }

  lemma RightFirst(x: nat, p: BinOp, y: nat, q: BinOp, z: nat, env: Env)
    ensures ReadAssign(WriteNat(x, OpText(p) + Write(Binary(q, Lit(y), Lit(z)), LevelOf(p) + 1, "")), env)
         == Parsed(Apply(p, x, Apply(q, y, z)), env, "")
  {
    hide ReadAssign, OpText, WriteNat, Apply, LevelOf;
    var right := Binary(q, Lit(y), Lit(z));
    TextEvaluates(Binary(p, Lit(x), right), env);
    PairValue(q, y, z, env);
    LiteralWritten(x, LevelOf(p), OpText(p) + Write(right, LevelOf(p) + 1, ""));
  }

  /** Parentheses go first. */
  lemma Parenthesised(x: nat, p: BinOp, y: nat, q: BinOp, z: nat, env: Env)
    requires LevelOf(p) >= LevelOf(q)
    ensures ReadAssign(WriteNat(x, OpText(p) + ("(" + WriteNat(y, OpText(q) + WriteNat(z, ")")))), env)
      == Parsed(Apply(p, x, Apply(q, y, z)), env, "")
  {
    hide ReadAssign, OpText, WriteNat, Apply, LevelOf;
    RightFirst(x, p, y, q, z, env);
    PairWritten(q, y, z, LevelOf(p) + 1, "");
    assert ")" + "" == ")";
  }

  // ---------------------------------------------------------------------------------------------
  // Numbers and blanks
  // ---------------------------------------------------------------------------------------------

  const LOWER := "0123456789abcdef"
  const UPPER := "0123456789ABCDEF"

  /** A number in a base, in front of `rest`, every digit in either case. */
  function WriteIn(n: nat, base: nat, upper: nat -> bool, rest: string): string
    requires base == 8 || base == 16
    decreases n
  {
    var d := n % base;
    var s := [if upper(n) then UPPER[d] else LOWER[d]] + rest;
    if n < base then s else WriteIn(n / base, base, upper, s)
  }

  lemma DigitsAre(d: nat)
    requires d < 16
    ensures DigitValue(LOWER[d]) == d && DigitValue(UPPER[d]) == d
  {
  }

  lemma DigitTaken(c: char, base: nat, v: nat, rest: string, env: Env)
    requires DigitValue(c) < base
    ensures ReadDigits([c] + rest, base, v, env) == ReadDigits(rest, base, Append(v, base, DigitValue(c)), env)
  {
    hide DigitValue, Append;
    assert ([c] + rest)[1..] == rest;
  }

  lemma LastDigit(n: nat, base: nat)
    requires base == 8 || base == 16
    ensures Append(n / base, base, n % base) == n && (n < base ==> Append(0, base, n % base) == n)
  {
  }

  lemma {:induction false} DigitsReadIn(n: nat, base: nat, upper: nat -> bool, rest: string, env: Env)
    requires base == 8 || base == 16
    ensures ReadDigits(WriteIn(n, base, upper, rest), base, 0, env) == ReadDigits(rest, base, n, env)
    ensures WriteIn(n, base, upper, rest) != "" && DigitValue(WriteIn(n, base, upper, rest)[0]) < base
    decreases n
  {
    hide DigitValue, ReadDigits, Append;
    var d := n % base;
    DigitsAre(d);
    LastDigit(n, base);
    var c := if upper(n) then UPPER[d] else LOWER[d];
    DigitTaken(c, base, if n < base then 0 else n / base, rest, env);
    if n >= base {
      DigitsReadIn(n / base, base, upper, [c] + rest, env);
    }
  }

  /** `0x` and hexadecimal digits in either case, and `0` and octal digits, read as the number they write. */
  lemma BasesRead(n: nat, upper: nat -> bool, rest: string, env: Env)
    requires rest == "" || DigitValue(rest[0]) >= 16
    ensures ReadNumber("0x" + WriteIn(n, 16, upper, rest), env) == Parsed(n, env, rest)
    ensures ReadNumber("0X" + WriteIn(n, 16, upper, rest), env) == Parsed(n, env, rest)
    ensures One(rest, 'x') || One(rest, 'X') ||
      ReadNumber("0" + WriteIn(n, 8, upper, rest), env) == Parsed(n, env, rest)
  {
    hide DigitValue;
    var hex, oct := WriteIn(n, 16, upper, rest), WriteIn(n, 8, upper, rest);
    DigitsReadIn(n, 16, upper, rest, env);
    DigitsReadIn(n, 8, upper, rest, env);
    assert ("0x" + hex)[2..] == hex && ("0X" + hex)[2..] == hex && ("0" + oct)[1..] == oct;
    OctalNotX(oct);
  }

  /** An x behind 0 that no hexadecimal digit follows is no part of the number. */
  lemma BareX(rest: string, env: Env)
    requires rest == "" || (rest[0] !in LOWER && rest[0] !in UPPER)
    ensures ReadNumber("0x" + rest, env) == Parsed(0, env, "x" + rest)
    ensures ReadNumber("0X" + rest, env) == Parsed(0, env, "X" + rest)
  {
    if rest != "" {
      Digits(rest[0]);
      assert ("0x" + rest)[2] == rest[0] && ("0X" + rest)[2] == rest[0];
    }
    assert ("0x" + rest)[1..] == "x" + rest && ("0X" + rest)[1..] == "X" + rest;
  }

  lemma Digits(c: char)
    ensures DigitValue(c) < 16 ==> c in LOWER || c in UPPER
  {
    var d := DigitValue(c);
    if d < 16 {
      assert LOWER[d] == c || UPPER[d] == c;
    }
  }

  lemma OctalNotX(s: string)
    ensures s != "" && DigitValue(s[0]) < 8 ==> s[0] != 'x' && s[0] != 'X'
  {
  }

  predicate Blanks(b: string) {
    forall i | 0 <= i < |b| :: b[i] == ' ' || b[i] == '\t'
  }

  lemma {:induction false} BlanksSkipped(b: string, s: string)
    requires Blanks(b)
    ensures SkipBlanks(b + s) == SkipBlanks(s)
  {
    if b == "" {
      assert b + s == s;
    } else {
      BlanksSkipped(b[1..], s);
      assert (b + s)[1..] == b[1..] + s;
    }
  }

  /** Spaces and tabs in front of an operand, an operator or a whole expression change nothing. */
  lemma {:induction false} BlanksIgnored(b: string, k: nat, s: string, v: int, env: Env)
    requires Blanks(b) && 1 <= k <= 7
    ensures ReadAssign(b + s, env) == ReadAssign(s, env)
    ensures ReadLevel(k, b + s, env) == ReadLevel(k, s, env)
    ensures k < 7 ==> ReadMore(k, Parsed(v, env, b + s)) == ReadMore(k, Parsed(v, env, s))
    decreases 7 - k
  {
    BlanksSkipped(b, s);
    if k < 7 {
      BlanksIgnored(b, k + 1, s, v, env);
    }
  }

  // ---------------------------------------------------------------------------------------------
  // Variables
  // ---------------------------------------------------------------------------------------------

  const SMALL := "abcdefghijklmnopqrstuvwxyz"
  const LARGE := "ABCDEFGHIJKLMNOPQRSTUVWXYZ"

  /** The characters of names: letters and the underscore, and behind the first also digits. */
  lemma NameCharacters(c: char)
    ensures NameStart(c) <==> c in SMALL || c in LARGE || c == '_'
    ensures NameChar(c) <==> c in SMALL || c in LARGE || c == '_' || c in "0123456789"
  {
    LettersAre();
    assert forall i: nat | i < 10 :: "0123456789"[i] as int == '0' as int + i;
    if 'a' <= c <= 'z' { assert SMALL[c as int - 'a' as int] == c; }
    if 'A' <= c <= 'Z' { assert LARGE[c as int - 'A' as int] == c; }
    if '0' <= c <= '9' { assert "0123456789"[c as int - '0' as int] == c; }
  }

  lemma LettersAre()
    ensures forall i: nat | i < 26 :: SMALL[i] as int == 'a' as int + i
    ensures forall i: nat | i < 26 :: LARGE[i] as int == 'A' as int + i
  {
  }

  /** The evaluator tells two names apart by their first 63 characters. */
  predicate SameVariable(x: string, y: string) {
    x == y || (|x| >= 63 && |y| >= 63 && x[..63] == y[..63])
  }

  lemma StoredThere(env: Env, x: string, v: int, y: string)
    ensures Lookup(env[Truncate(x) := v], y) == if SameVariable(x, y) then v else Lookup(env, y)
  {
    var a, b := Truncate(x), Truncate(y);
    if a == b && x != y {
      assert |a| == 63;
    }
  }

  /** An assignment is worth its right side, and from then on the name is; every other variable is as before. */
  lemma AssignmentStores(x: string, e: Expr, env: Env, y: string)
    requires IsName(x) && IsName(y) && WellFormed(e)
    ensures var whole, right := ReadAssign(x + ("=" + Write(e, 0, "")), env), ReadAssign(Write(e, 0, ""), env);
      && whole.value == right.value && whole.rest == ""
      && ReadAssign(y, whole.env).value ==
           if SameVariable(x, y) then right.value else ReadAssign(y, right.env).value
  {
    hide ReadAssign, Lookup, Truncate;
    TextEvaluates(Assign(x, e), env);
    TextEvaluates(e, env);
    var right := Value(e, env);
    NameEvaluates(y, right.1);
    NameEvaluates(y, right.1[Truncate(x) := right.0]);
    StoredThere(right.1, x, right.0, y);
  }

  lemma NameEvaluates(y: string, env: Env)
    requires IsName(y)
    ensures ReadAssign(y, env) == Parsed(Lookup(env, y), env, "")
  {
    hide ReadAssign;
    TextEvaluates(Var(y), env);
    assert Write(Var(y), 0, "") == y + "" == y;
  }

  /** A name that was never assigned is 0. */
  lemma UnsetIsZero(y: string, env: Env)
    requires IsName(y) && forall x | x in env :: !SameVariable(x, y)
    ensures ReadAssign(y, env) == Parsed(0, env, "")
  {
    NameEvaluates(y, env);
    assert SameVariable(Truncate(y), y);
  }

  /** A compound assignment is the plain one of the sign applied to the name and the right side. */
  lemma CompoundIsPlain(x: string, op: BinOp, n: nat, env: Env)
    requires IsName(x) && op in {Add, Sub, Mul, Div, Mod}
    ensures ReadAssign(x + (OpText(op) + ("=" + WriteNat(n, ""))), env)
         == ReadAssign(x + ("=" + (x + (OpText(op) + WriteNat(n, "")))), env)
  {
    hide ReadAssign;
    hide OpText, WriteNat, Apply, LevelOf, Lookup, Truncate;
    var sum := Binary(op, Var(x), Lit(n));
    TextEvaluates(Update(x, op, Lit(n)), env);
    TextEvaluates(Assign(x, sum), env);
    LiteralWritten(n, 0, "");
    LiteralWritten(n, LevelOf(op) + 1, "");
    assert Write(sum, 0, "") == x + (OpText(op) + WriteNat(n, ""));
    assert Value(sum, env) == (Apply(op, Lookup(env, x), n), env);
  }

  /** `&&` and `||` do not spare their right side: an assignment there is made whatever the left side is. */
  lemma BothSidesRun(n: nat, x: string, m: nat, env: Env)
    requires IsName(x)
    ensures ReadAssign(WriteNat(n, "||(" + (x + ("=" + WriteNat(m, ")")))), env).env == env[Truncate(x) := m]
    ensures ReadAssign(WriteNat(n, "&&(" + (x + ("=" + WriteNat(m, ")")))), env).env == env[Truncate(x) := m]
  {
    hide ReadAssign;
    JoinedAssignment(Or, n, x, m, env);
    JoinedAssignment(And, n, x, m, env);
    assert "||" + ("(" + (x + ("=" + WriteNat(m, ")")))) == "||(" + (x + ("=" + WriteNat(m, ")")));
    assert "&&" + ("(" + (x + ("=" + WriteNat(m, ")")))) == "&&(" + (x + ("=" + WriteNat(m, ")")));
  }

  lemma JoinedAssignment(op: BinOp, n: nat, x: string, m: nat, env: Env)
    requires IsName(x)
    ensures ReadAssign(WriteNat(n, OpText(op) + ("(" + (x + ("=" + WriteNat(m, ")"))))), env).env
         == env[Truncate(x) := m]
  {
    hide ReadAssign;
    hide OpText, WriteNat, Apply, LevelOf, Truncate;
    var right := Assign(x, Lit(m));
    TextEvaluates(Binary(op, Lit(n), right), env);
    LiteralWritten(m, 0, ")");
    LiteralWritten(n, LevelOf(op), OpText(op) + Write(right, LevelOf(op) + 1, ""));
    assert ")" + "" == ")";
    assert Write(right, 0, ")") == x + ("=" + WriteNat(m, ")"));
    assert Write(right, LevelOf(op) + 1, "") == "(" + Write(right, 0, ")");
    assert Value(right, env) == (m, env[Truncate(x) := m]);
  }
}
