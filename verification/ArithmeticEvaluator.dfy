/**
  The ar_ functions of user/bin/stsh/run.c in their own form: mutually recursive procedures that move
  one shared cursor over the text and update the shell's variables, each level a loop.
 */
module ArithmeticEvaluator {
  import opened Arithmetic
  import ArithmeticText

  lemma {:induction false} BlanksSuffix(s: string)
    ensures SkipBlanks(s) == s[|s| - |SkipBlanks(s)|..]
  {
    if s != "" && Arithmetic.Blank(s[0]) { BlanksSuffix(s[1..]); }
  }

  lemma TargetSuffix(s: string)
    ensures var t := TargetAt(s); !t.NoTarget? ==> t.after == s[|s| - |t.after|..]
  {
    if s != "" && NameStart(s[0]) { BlanksSuffix(s[NameLength(s)..]); }
  }

  class Evaluator {
    const text: string
    var pos: nat
    var env: Env

    constructor (text: string, env: Env)
      ensures this.text == text && pos == 0 && this.env == env
    {
      this.text, pos, this.env := text, 0, env;
    }

    /** What is still to be read. */
    ghost function Rest(): string
      requires pos <= |text|
      reads this
    {
      text[pos..]
    }

    /** The state and result are those of `p`. */
    ghost predicate At(v: int, p: Parsed)
      reads this
    {
      pos <= |text| && Parsed(v, env, Rest()) == p
    }

    method Blanks()
      requires pos <= |text|
      modifies this`pos
      ensures pos <= |text| && Rest() == SkipBlanks(old(Rest())) && old(pos) <= pos
    {
      while pos < |text| && Arithmetic.Blank(text[pos])
        invariant old(pos) <= pos <= |text| && SkipBlanks(Rest()) == SkipBlanks(old(Rest()))
      {
        assert Rest()[1..] == text[pos + 1..];
        pos := pos + 1;
      }
    }

    method Step(n: nat)
      requires pos + n <= |text|
      modifies this`pos
      ensures pos == old(pos) + n && Rest() == old(Rest())[n..]
    {
      pos := pos + n;
    }

    method Digits(base: nat, start: nat) returns (v: int)
      requires pos <= |text|
      modifies this`pos
      ensures At(v, ReadDigits(old(Rest()), base, start, env)) && old(pos) <= pos
    {
      hide Append, DigitValue;
      var n: nat := start;
      while pos < |text| && DigitValue(text[pos]) < base
        invariant old(pos) <= pos <= |text|
        invariant ReadDigits(Rest(), base, n, env) == ReadDigits(old(Rest()), base, start, env)
      {
        assert Rest()[1..] == text[pos + 1..];
        n := Append(n, base, DigitValue(text[pos]));
        pos := pos + 1;
      }
      v := n;
    }

    method Number() returns (v: int)
      requires pos < |text| && IsDigit(text[pos])
      modifies this`pos
      ensures At(v, ReadNumber(old(Rest()), env)) && old(pos) < pos
    {
      var r := text[pos..];
      if r[0] != '0' {
        Step(1);
        v := Digits(10, DigitValue(r[0]));
      } else if |r| >= 3 && (r[1] == 'x' || r[1] == 'X') && DigitValue(r[2]) < 16 {
        Step(2);
        v := Digits(16, 0);
      } else {
        Step(1);
        v := Digits(8, 0);
      }
    }

    method Prim() returns (v: int)
      requires pos <= |text|
      modifies this
      ensures At(v, ReadPrim(old(Rest()), old(env))) && old(pos) <= pos
      decreases |text| - pos, 0
    {
      Blanks();
      if pos < |text| && text[pos] == '(' {
        Step(1);
        v := Assign();
        Blanks();
        if pos < |text| && text[pos] == ')' { Step(1); }
      } else if pos < |text| && IsDigit(text[pos]) {
        v := Number();
      } else if pos < |text| && NameStart(text[pos]) {
        var n := NameLength(text[pos..]);
        v := Lookup(env, text[pos..][..n]);
        Step(n);
      } else {
        v := 0;
      }
    }

    method Unary() returns (v: int)
      requires pos <= |text|
      modifies this
      ensures At(v, ReadUnary(old(Rest()), old(env))) && old(pos) <= pos
      decreases |text| - pos, 1
    {
      Blanks();
      if pos < |text| && text[pos] in "-+!~" {
        var op := UnOpOf(text[pos]);
        Step(1);
        v := Unary();
        v := ApplyUn(op, v);
      } else {
        v := Prim();
      }
    }

    /** ar_mul, ar_add, ar_cmp, ar_eq, ar_and and ar_or, by level. */
    method Level(k: nat) returns (v: int)
      requires 1 <= k <= 7 && pos <= |text|
      modifies this
      ensures At(v, ReadLevel(k, old(Rest()), old(env))) && old(pos) <= pos
      decreases |text| - pos, 9 - k
    {
      if k == 7 {
        v := Unary();
        return;
      }
      v := Level(k + 1);
      while true
        invariant old(pos) <= pos <= |text|
        invariant ReadMore(k, Parsed(v, env, Rest())) == ReadLevel(k, old(Rest()), old(env))
        decreases |text| - pos
      {
        Blanks();
        var f := OpAt(k, text[pos..]);
        if f.NoOp? { return; }
        Step(f.length);
        var r := Level(k + 1);
        v := Apply(f.op, v, r);
      }
    }

    method Assign() returns (v: int)
      requires pos <= |text|
      modifies this
      ensures At(v, ReadAssign(old(Rest()), old(env))) && old(pos) <= pos
      decreases |text| - pos, 10
    {
      Blanks();
      var t := TargetAt(text[pos..]);
      TargetSuffix(text[pos..]);
      match t
      case Plain(name, after) =>
        Jump(after);
        v := Assign();
        env := env[Truncate(name) := v];
      case Compound(name, op, after) =>
        Jump(after);
        v := Assign();
        v := Apply(op, Lookup(env, name), v);
        env := env[Truncate(name) := v];
      case NoTarget =>
        v := Level(1);
    }

    /** Moves the cursor to a later part of the text. */
    method Jump(after: string)
      requires pos <= |text| && |after| < |Rest()| && after == Rest()[|Rest()| - |after|..]
      modifies this`pos
      ensures pos <= |text| && old(pos) < pos && Rest() == after
    {
      pos := |text| - |after|;
    }
  }

  /** arith_eval on the text of a tree returns the tree's value and stores its assignments. */
  method ArithEval(e: ArithmeticText.Expr, env: Env) returns (v: int, env1: Env)
    requires ArithmeticText.WellFormed(e)
    ensures (v, env1) == ArithmeticText.Value(e, env)
  {
    var a := new Evaluator(ArithmeticText.Write(e, 0, ""), env);
    assert a.text[0..] == a.text;
    v := a.Assign();
    env1 := a.env;
    ArithmeticText.TextEvaluates(e, env);
  }
}
