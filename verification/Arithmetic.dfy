/**
  The arithmetic of `$(( ))` in stsh (the ar_ functions of user/bin/stsh/run.c): what each function
  of the recursive descent reads and returns. Values are mathematical integers; the shell's are C
  longs, and the two agree as long as nothing overflows.
 */
module Arithmetic {
  import opened Common

  /** The numeric values of the shell variables. */
  type Env = map<string, int>

  datatype Parsed = Parsed(value: int, env: Env, rest: string)

  datatype UnOp = Minus | Plus | Not | Invert
  datatype BinOp = Or | And | Equal | Unequal | AtMost | AtLeast | Below | Above | Add | Sub | Mul | Div | Mod

  predicate Blank(c: char) {
    c == ' ' || c == '\t'
  }

  predicate IsDigit(c: char) {
    '0' <= c <= '9'
  }

  /** A character that can start a name. */
  predicate NameStart(c: char) {
    'a' <= c <= 'z' || 'A' <= c <= 'Z' || c == '_'
  }

  predicate NameChar(c: char) {
    NameStart(c) || IsDigit(c)
  }

  function SkipBlanks(s: string): (t: string)
    ensures |t| <= |s| && (t == "" || !Blank(t[0]))
    ensures s == "" || !Blank(s[0]) ==> t == s
  {
    if s != "" && Blank(s[0]) then SkipBlanks(s[1..]) else s
  }

  function NameLength(s: string): (n: nat)
    ensures n <= |s|
    ensures n == |s| || !NameChar(s[n])
    ensures forall i | 0 <= i < n :: NameChar(s[i])
  {
    if s != "" && NameChar(s[0]) then 1 + NameLength(s[1..]) else 0
  }

  /** The first 63 characters of a name, which is all that the evaluator keeps. */
  function Truncate(name: string): string {
    if |name| <= 63 then name else name[..63]
  }

  function Lookup(env: Env, name: string): int {
    var n := Truncate(name);
    if n in env then env[n] else 0
  }

  // ---------------------------------------------------------------------------------------------
  // Numbers: strtol with base 0
  // ---------------------------------------------------------------------------------------------

  /** The value of a digit, 16 for what is none. */
  function DigitValue(c: char): nat {
    if '0' <= c <= '9' then c as nat - '0' as nat
    else if 'a' <= c <= 'f' then c as nat - 'a' as nat + 10
    else if 'A' <= c <= 'F' then c as nat - 'A' as nat + 10
    else 16
  }

  function Append(v: nat, base: nat, digit: nat): nat {
    v * base + digit
  }

  /** As many digits of the base as there are, onto the value read so far. */
  function ReadDigits(s: string, base: nat, v: nat, env: Env): (p: Parsed)
    ensures |p.rest| <= |s|
  {
    if s != "" && DigitValue(s[0]) < base then ReadDigits(s[1..], base, Append(v, base, DigitValue(s[0])), env)
    else Parsed(v, env, s)
  }

  function ReadNumber(s: string, env: Env): (p: Parsed)
    requires s != "" && IsDigit(s[0])
    ensures |p.rest| < |s|
  {
    if s[0] != '0' then ReadDigits(s[1..], 10, DigitValue(s[0]), env)
    else if |s| >= 3 && (s[1] == 'x' || s[1] == 'X') && DigitValue(s[2]) < 16 then ReadDigits(s[2..], 16, 0, env)
    else ReadDigits(s[1..], 8, 0, env)
  }

  // ---------------------------------------------------------------------------------------------
  // Operators
  // ---------------------------------------------------------------------------------------------

  /** C division, which truncates toward zero; by zero it gives 0 here. */
  function Quotient(a: int, b: int): int {
    if b == 0 then 0
    else if (a >= 0) == (b > 0) then Abs(a) / Abs(b)
    else -(Abs(a) / Abs(b))
  }

  function Remainder(a: int, b: int): int {
    if b == 0 then 0 else a - b * Quotient(a, b)
  }

  function Truth(b: bool): int {
    if b then 1 else 0
  }

  function ApplyUn(op: UnOp, v: int): int {
    match op
    case Minus => -v
    case Plus => v
    case Not => Truth(v == 0)
    case Invert => -v - 1
  }

  function Apply(op: BinOp, a: int, b: int): int {
    match op
    case Or => Truth(a != 0 || b != 0)
    case And => Truth(a != 0 && b != 0)
    case Equal => Truth(a == b)
    case Unequal => Truth(a != b)
    case AtMost => Truth(a <= b)
    case AtLeast => Truth(a >= b)
    case Below => Truth(a < b)
    case Above => Truth(a > b)
    case Add => a + b
    case Sub => a - b
    case Mul => a * b
    case Div => Quotient(a, b)
    case Mod => Remainder(a, b)
  }

  /** The levels of binary operators, from `||` to `*`. */
  function LevelOf(op: BinOp): (k: nat)
    ensures 1 <= k <= 6
  {
    match op
    case Or => 1
    case And => 2
    case Equal => 3
    case Unequal => 3
    case AtMost => 4
    case AtLeast => 4
    case Below => 4
    case Above => 4
    case Add => 5
    case Sub => 5
    case _ => 6
  }

  datatype Found = NoOp | Found(op: BinOp, length: nat)

  predicate Two(s: string, a: char, b: char) {
    |s| >= 2 && s[0] == a && s[1] == b
  }

  predicate One(s: string, a: char) {
    s != "" && s[0] == a
  }

  /** The operator of level `k` at the front of `s`, tested in the source's order. */
  function OpAt(k: nat, s: string): (f: Found)
    ensures f.Found? ==> 1 <= f.length <= |s| && LevelOf(f.op) == k
  {
    if k == 1 then if Two(s, '|', '|') then Found(Or, 2) else NoOp
    else if k == 2 then if Two(s, '&', '&') then Found(And, 2) else NoOp
    else if k == 3 then
      if Two(s, '=', '=') then Found(Equal, 2)
      else if Two(s, '!', '=') then Found(Unequal, 2)
      else NoOp
    else if k == 4 then
      if Two(s, '<', '=') then Found(AtMost, 2)
      else if Two(s, '>', '=') then Found(AtLeast, 2)
      else if One(s, '<') then Found(Below, 1)
      else if One(s, '>') then Found(Above, 1)
      else NoOp
    else if k == 5 then
      if One(s, '+') then Found(Add, 1) else if One(s, '-') then Found(Sub, 1) else NoOp
    else if k == 6 then
      if One(s, '*') then Found(Mul, 1)
      else if One(s, '/') then Found(Div, 1)
      else if One(s, '%') then Found(Mod, 1)
      else NoOp
    else NoOp
  }

  function UnOpOf(c: char): (o: UnOp)
    requires c in "-+!~"
  {
    if c == '-' then Minus else if c == '+' then Plus else if c == '!' then Not else Invert
  }

  // ---------------------------------------------------------------------------------------------
  // The descent
  // ---------------------------------------------------------------------------------------------

  function ReadPrim(s: string, env: Env): (p: Parsed)
    ensures |p.rest| <= |s|
    decreases |s|, 0
  {
    var t := SkipBlanks(s);
    if One(t, '(') then
      var e := ReadAssign(t[1..], env);
      var u := SkipBlanks(e.rest);
      Parsed(e.value, e.env, if One(u, ')') then u[1..] else u)
    else if t != "" && IsDigit(t[0]) then
      ReadNumber(t, env)
    else if t != "" && NameStart(t[0]) then
      var n := NameLength(t);
      Parsed(Lookup(env, t[..n]), env, t[n..])
    else
      Parsed(0, env, t)
  }

  function ReadUnary(s: string, env: Env): (p: Parsed)
    ensures |p.rest| <= |s|
    decreases |s|, 1
  {
    var t := SkipBlanks(s);
    if t != "" && t[0] in "-+!~" then
      var e := ReadUnary(t[1..], env);
      e.(value := ApplyUn(UnOpOf(t[0]), e.value))
    else
      ReadPrim(t, env)
  }

  /** ar_mul (6) to ar_or (1): operands of the next level, joined from the left. */
  function ReadLevel(k: nat, s: string, env: Env): (p: Parsed)
    requires 1 <= k <= 7
    ensures |p.rest| <= |s|
    decreases |s|, 2 * (8 - k) + 1
  {
    if k == 7 then ReadUnary(s, env)
    else
      var e := ReadLevel(k + 1, s, env);
      ReadMore(k, e)
  }

  function ReadMore(k: nat, e: Parsed): (p: Parsed)
    requires 1 <= k <= 6
    ensures |p.rest| <= |e.rest|
    decreases |e.rest|, 2 * (8 - k)
  {
    var t := SkipBlanks(e.rest);
    match OpAt(k, t)
    case NoOp => e.(rest := t)
    case Found(op, n) =>
      var r := ReadLevel(k + 1, t[n..], e.env);
      ReadMore(k, r.(value := Apply(op, e.value, r.value)))
  }

  datatype Target = NoTarget | Plain(name: string, after: string) | Compound(name: string, op: BinOp, after: string)

  /** The look-ahead of ar_assign: a name, blanks, and `=` or a compound assignment. */
  function TargetAt(s: string): (t: Target)
    ensures !t.NoTarget? ==> |t.after| < |s|
  {
    if s == "" || !NameStart(s[0]) then NoTarget
    else
      var n := NameLength(s);
      var r := SkipBlanks(s[n..]);
      if One(r, '=') && !Two(r, '=', '=') then Plain(s[..n], r[1..])
      else if Two(r, '+', '=') then Compound(s[..n], Add, r[2..])
      else if Two(r, '-', '=') then Compound(s[..n], Sub, r[2..])
      else if Two(r, '*', '=') then Compound(s[..n], Mul, r[2..])
      else if Two(r, '/', '=') then Compound(s[..n], Div, r[2..])
      else if Two(r, '%', '=') then Compound(s[..n], Mod, r[2..])
      else NoTarget
  }

  function Store(e: Parsed, name: string, v: int): Parsed {
    Parsed(v, e.env[Truncate(name) := v], e.rest)
  }

  function ReadAssign(s: string, env: Env): (p: Parsed)
    ensures |p.rest| <= |s|
    decreases |s|, 16
  {
    var t := SkipBlanks(s);
    match TargetAt(t)
    case Plain(name, after) =>
      var e := ReadAssign(after, env);
      Store(e, name, e.value)
    case Compound(name, op, after) =>
      var e := ReadAssign(after, env);
      Store(e, name, Apply(op, Lookup(e.env, name), e.value))
    case NoTarget => ReadLevel(1, t, env)
  }

  /** Truncating division: exact with the remainder, which is smaller than the divisor and signed like the dividend. */
  lemma Truncation(a: int, b: int)
    requires b != 0
    ensures a == b * Quotient(a, b) + Remainder(a, b)
    ensures Abs(Remainder(a, b)) < Abs(b)
    ensures Remainder(a, b) == 0 || (Remainder(a, b) > 0 <==> a > 0)
  {
    hide Quotient, Abs;
    DivMod(Abs(a), NonZero(b));
    SignedProduct(a, b);
    Leftover(a, b, Abs(b) * (Abs(a) / Abs(b)), Abs(a) % Abs(b), b * Quotient(a, b));
  }

  function NonZero(b: int): (y: nat)
    requires b != 0
    ensures y == Abs(b) && y > 0
  {
    Abs(b)
  }

  lemma Leftover(a: int, b: int, p: int, r: int, t: int)
    requires Abs(a) == p + r && 0 <= p && 0 <= r < Abs(b) && t == if a >= 0 then p else -p
    ensures Abs(a - t) < Abs(b) && (a - t == 0 || (a - t > 0 <==> a > 0))
  {
  }

  lemma SignedProduct(a: int, b: int)
    requires b != 0
    ensures var product := Abs(b) * (Abs(a) / Abs(b));
            b * Quotient(a, b) == if a >= 0 then product else -product
  {
    var y: int, q: int := Abs(b), Abs(a) / Abs(b);
    if a >= 0 && b > 0 {
      assert Quotient(a, b) == q;
    } else if a >= 0 {
      assert Quotient(a, b) == -q && b == -y;
      Signs(y, q);
    } else if b > 0 {
      assert Quotient(a, b) == -q;
      Signs(y, q);
    } else {
      assert Quotient(a, b) == q && b == -y;
      Signs(y, q);
    }
  }

  lemma DivMod(x: nat, y: nat)
    requires y > 0
    ensures x == y * (x / y) + x % y && 0 <= x % y < y && 0 <= y * (x / y)
  {
  }

  lemma Signs(y: int, q: int)
    ensures (-y) * q == -(y * q) && y * (-q) == -(y * q) && (-y) * (-q) == y * q
  {
  }
}
