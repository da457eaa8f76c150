/**
 * A small integer expression language standing in for the JavaScript `eval`
 * that the derived-stats engine applies to modifier formulas: decimal
 * literals, binary `+ - *` (left associative, `*` binding tighter), unary
 * `+`/`-`, parentheses and white space.  Anything else, and the empty text,
 * evaluates to `None` (JavaScript's `undefined`, `NaN` or a thrown syntax
 * error), which the callers turn into 0 as `eval(x) || 0` does.
 */
module Arith {
  import opened Wrappers
  import opened Strings

  datatype Token = Num(n: nat) | Plus | Minus | Times | LParen | RParen

  function DigitValue(c: char): nat
    requires IsDigit(c)
  {
    c as int - '0' as int
  }

  /** The length of the run of digits at the start of `s`. */
  function DigitRun(s: string): (n: nat)
    ensures n <= |s|
    ensures forall k :: 0 <= k < n ==> IsDigit(s[k])
    ensures n < |s| ==> !IsDigit(s[n])
  {
    if s == [] || !IsDigit(s[0]) then 0 else 1 + DigitRun(s[1..])
  }

  /** The value of a string of decimal digits, most significant first. */
  function DigitsValue(ds: string): nat
    requires forall k :: 0 <= k < |ds| ==> IsDigit(ds[k])
  {
    if ds == [] then 0 else DigitsValue(ds[..|ds| - 1]) * 10 + DigitValue(ds[|ds| - 1])
  }

  function SymbolToken(c: char): Option<Token> {
    match c
    case '+' => Some(Plus)
    case '-' => Some(Minus)
    case '*' => Some(Times)
    case '(' => Some(LParen)
    case ')' => Some(RParen)
    case _ => None
  }

  /** `++` or `--` starts at index `i`: JavaScript reads an increment or decrement there. */
  predicate DoubleSignAt(s: string, i: int) {
    0 <= i < |s| - 1 && (s[i] == '+' || s[i] == '-') && s[i + 1] == s[i]
  }

  /**
   * A number of two or more digits with a leading `0` starts at index `i`:
   * a legacy octal literal, which strict-mode `eval` refuses.
   */
  predicate LeadingZeroAt(s: string, i: int) {
    0 <= i < |s| - 1 && s[i] == '0' && IsDigit(s[i + 1]) && (i == 0 || !IsDigit(s[i - 1]))
  }

  /**
   * Splits `s` into tokens, or `None` at the first character the language
   * does not have, at `++` / `--` (an increment or decrement, which no
   * literal or parenthesised expression accepts) and at a number with a
   * leading zero.
   */
  function Tokenize(s: string): Option<seq<Token>>
    decreases |s|
  {
    if s == [] then Some([])
    else if IsSpace(s[0]) then Tokenize(s[1..])
    else if IsDigit(s[0]) then
      var n := DigitRun(s);
      if n > 1 && s[0] == '0' then None
      else
        match Tokenize(s[n..])
        case None => None
        case Some(ts) => Some([Num(DigitsValue(s[..n]))] + ts)
    else if DoubleSignAt(s, 0) then None
    else
      match (SymbolToken(s[0]), Tokenize(s[1..]))
      case (Some(t), Some(ts)) => Some([t] + ts)
      case _ => None
  }

  /** Any `++` or `--` makes the whole text fail to tokenize. */
  lemma {:induction false} TokenizeRejectsDoubleSign(s: string, i: int)
    requires DoubleSignAt(s, i)
    ensures Tokenize(s) == None
    decreases |s|
  {
    if i > 0 {
      if IsSpace(s[0]) || !IsDigit(s[0]) {
        assert DoubleSignAt(s[1..], i - 1);
        TokenizeRejectsDoubleSign(s[1..], i - 1);
      } else {
        var n := DigitRun(s);
        assert 0 < n <= i;
        assert DoubleSignAt(s[n..], i - n);
        TokenizeRejectsDoubleSign(s[n..], i - n);
      }
    }
  }

  /** Any number written with a leading zero makes the whole text fail to tokenize. */
  lemma {:induction false} TokenizeRejectsLeadingZero(s: string, i: int)
    requires LeadingZeroAt(s, i)
    ensures Tokenize(s) == None
    decreases |s|
  {
    if i == 0 {
      assert DigitRun(s) > 1 by {
        assert s[1..][0] == s[1];
      }
    } else if IsSpace(s[0]) || !IsDigit(s[0]) {
      assert LeadingZeroAt(s[1..], i - 1);
      TokenizeRejectsLeadingZero(s[1..], i - 1);
    } else {
      var n := DigitRun(s);
      assert 0 < n < i;
      assert LeadingZeroAt(s[n..], i - n);
      TokenizeRejectsLeadingZero(s[n..], i - n);
    }
  }

  /*
   * Recursive descent.  Each parser reads from position `i` of `ts` and
   * returns the value and the position after what it read; the ensures
   * clauses (every parser that must read something reads at least one
   * token) are what the termination argument rests on.
   */

  /** expr := term (('+' | '-') term)* */
  function ParseExpr(ts: seq<Token>, i: nat): (r: Option<(int, nat)>)
    requires i <= |ts|
    ensures r.Some? ==> i < r.value.1 <= |ts|
    decreases |ts| - i, 3
  {
    match ParseTerm(ts, i)
    case None => None
    case Some((v, j)) => ParseExprRest(ts, j, v)
  }

  function ParseExprRest(ts: seq<Token>, i: nat, acc: int): (r: Option<(int, nat)>)
    requires i <= |ts|
    ensures r.Some? ==> i <= r.value.1 <= |ts|
    decreases |ts| - i, 2
  {
    if i < |ts| && (ts[i] == Plus || ts[i] == Minus) then
      match ParseTerm(ts, i + 1)
      case None => None
      case Some((v, j)) => ParseExprRest(ts, j, if ts[i] == Plus then acc + v else acc - v)
    else Some((acc, i))
  }

  /** term := factor ('*' factor)* */
  function ParseTerm(ts: seq<Token>, i: nat): (r: Option<(int, nat)>)
    requires i <= |ts|
    ensures r.Some? ==> i < r.value.1 <= |ts|
    decreases |ts| - i, 1
  {
    match ParseFactor(ts, i)
    case None => None
    case Some((v, j)) => ParseTermRest(ts, j, v)
  }

  function ParseTermRest(ts: seq<Token>, i: nat, acc: int): (r: Option<(int, nat)>)
    requires i <= |ts|
    ensures r.Some? ==> i <= r.value.1 <= |ts|
    decreases |ts| - i, 0
  {
    if i < |ts| && ts[i] == Times then
      match ParseFactor(ts, i + 1)
      case None => None
      case Some((v, j)) => ParseTermRest(ts, j, acc * v)
    else Some((acc, i))
  }

  /** factor := number | ('+' | '-') factor | '(' expr ')' */
  function ParseFactor(ts: seq<Token>, i: nat): (r: Option<(int, nat)>)
    requires i <= |ts|
    ensures r.Some? ==> i < r.value.1 <= |ts|
    decreases |ts| - i, 0
  {
    if i == |ts| then None
    else
      match ts[i]
      case Num(n) => Some((n, i + 1))
      case Plus => ParseFactor(ts, i + 1)
      case Minus =>
        (match ParseFactor(ts, i + 1)
         case None => None
         case Some((v, j)) => Some((-v, j)))
      case LParen =>
        (match ParseExpr(ts, i + 1)
         case Some((v, j)) =>
           if j < |ts| && ts[j] == RParen then Some((v, j + 1)) else None
         case None => None)
      case _ => None
  }

  /**
   * The value of `s` as a whole expression; `None` when `s` is blank, holds a
   * character outside the language, or is not one well-formed expression.
   */
  function Eval(s: string): (r: Option<int>)
    ensures (forall k :: 0 <= k < |s| ==> IsSpace(s[k])) ==> r.None?
  {
    BlankTokenizesEmpty(s);
    match Tokenize(s)
    case None => None
    case Some(ts) =>
      if ts == [] then None
      else
        match ParseExpr(ts, 0)
        case Some((v, j)) => if j == |ts| then Some(v) else None
        case None => None
  }

  lemma {:induction false} BlankTokenizesEmpty(s: string)
    ensures (forall k :: 0 <= k < |s| ==> IsSpace(s[k])) ==> Tokenize(s) == Some([])
    decreases |s|
  {
    if s != [] && IsSpace(s[0]) {
      BlankTokenizesEmpty(s[1..]);
      assert (forall k :: 0 <= k < |s| ==> IsSpace(s[k])) ==> (forall k :: 0 <= k < |s[1..]| ==> IsSpace(s[1..][k]));
    }
  }

  /** `eval(x) || 0`: a missing or zero value becomes 0. */
  function OrZero(v: Option<int>): (r: int)
    ensures v.None? ==> r == 0
    ensures v.Some? ==> r == v.value
  {
    v.GetOr(0)
  }

  /** The digits `String(n)` prints read back as `n`. */
  lemma {:induction false} DigitsOfNat(n: nat)
    ensures DigitsValue(NatToString(n)) == n
  {
    var s := NatToString(n);
    if n >= 10 {
      var p := NatToString(n / 10);
      DigitsOfNat(n / 10);
      assert s[..|s| - 1] == p;
    }
  }

  /** A printed natural number followed by a non-digit tokenizes as one number token. */
  lemma TokenizeNat(n: nat, rest: string)
    requires rest == [] || !IsDigit(rest[0])
    ensures Tokenize(NatToString(n) + rest) ==
              if Tokenize(rest).Some? then Some([Num(n)] + Tokenize(rest).value) else None
  {
    var d := NatToString(n);
    var s := d + rest;
    DigitsOfNat(n);
    assert IsDigit(s[0]) && !IsSpace(s[0]);
    DigitRunOfPrefix(d, rest);
    assert s[|d|..] == rest && s[..|d|] == d;
  }

  lemma TokenizeNatAlone(n: nat)
    ensures Tokenize(NatToString(n)) == Some([Num(n)])
  {
    TokenizeNat(n, "");
    assert Tokenize("") == Some([]);
    assert NatToString(n) + "" == NatToString(n);
    assert [Num(n)] + [] == [Num(n)];
  }

  lemma {:induction false} DigitRunOfPrefix(d: string, rest: string)
    requires forall k :: 0 <= k < |d| ==> IsDigit(d[k])
    requires rest == [] || !IsDigit(rest[0])
    ensures DigitRun(d + rest) == |d|
  {
    if d != [] {
      assert (d + rest)[1..] == d[1..] + rest;
      DigitRunOfPrefix(d[1..], rest);
    }
  }

  /** An operator or parenthesis character is one token. */
  lemma TokenizeSymbol(c: char, rest: string)
    requires SymbolToken(c).Some?
    requires (c == '+' || c == '-') && rest != [] ==> rest[0] != c
    ensures Tokenize([c] + rest) ==
              if Tokenize(rest).Some? then Some([SymbolToken(c).value] + Tokenize(rest).value) else None
  {
    var s := [c] + rest;
    assert s[0] == c && s[1..] == rest;
    assert !IsSpace(c) && !IsDigit(c) && !DoubleSignAt(s, 0);
  }

  /** A lone number token parses as that number. */
  lemma ParseNumber(ts: seq<Token>, n: nat)
    requires ts == [Num(n)]
    ensures ParseExpr(ts, 0) == Some((n as int, 1))
  {
    assert ParseFactor(ts, 0) == Some((n as int, 1));
    assert ParseTermRest(ts, 1, n) == Some((n as int, 1));
    assert ParseTerm(ts, 0) == Some((n as int, 1));
    assert ParseExprRest(ts, 1, n) == Some((n as int, 1));
  }

  /**
   * Substituting a number into a formula and evaluating it gives the number
   * back: `eval(String(n)) == n`, negative numbers included.
   */
  lemma EvalIntToString(n: int)
    ensures Eval(IntToString(n)) == Some(n)
  {
    if n < 0 {
      EvalSignedNat('-', -n);
      assert IntToString(n) == ['-'] + NatToString(-n);
    } else {
      TokenizeNatAlone(n);
      ParseNumber([Num(n)], n);
    }
  }

  /** A unary sign in front of a printed natural number applies to it: `eval("+4") == 4`. */
  lemma EvalSignedNat(sign: char, n: nat)
    requires sign == '+' || sign == '-'
    ensures Eval([sign] + NatToString(n)) == Some(if sign == '+' then n as int else -(n as int))
  {
    TokenizeNatAlone(n);
    TokenizeSymbol(sign, NatToString(n));
    var t := if sign == '+' then Plus else Minus;
    var ts := [t, Num(n)];
    assert [t] + [Num(n)] == ts;
    var v: int := if sign == '+' then n else -(n as int);
    assert ParseFactor(ts, 1) == Some((n as int, 2));
    assert ParseFactor(ts, 0) == Some((v, 2));
    assert ParseTermRest(ts, 2, v) == Some((v, 2));
    assert ParseTerm(ts, 0) == Some((v, 2));
    assert ParseExprRest(ts, 2, v) == Some((v, 2));
    assert ParseExpr(ts, 0) == Some((v, 2));
  }

  /** A text holding `++` or `--`, or a number with a leading zero, is a syntax error. */
  lemma EvalRejectsSyntaxErrors(s: string, i: int)
    requires DoubleSignAt(s, i) || LeadingZeroAt(s, i)
    ensures Eval(s) == None
  {
    if DoubleSignAt(s, i) {
      TokenizeRejectsDoubleSign(s, i);
    } else {
      TokenizeRejectsLeadingZero(s, i);
    }
  }

  /**
   * `eval("1--2")`, `eval("--2")`, `eval("1++2")` and `eval("010")` throw,
   * while signs kept apart by white space are two unary or binary operators:
   * `eval("1- -2") == 3`.
   */
  lemma EvalSignExamples()
    ensures Eval("1--2") == None && Eval("--2") == None && Eval("1++2") == None
    ensures Eval("010") == None
    ensures Eval("1- -2") == Some(3)
  {
    EvalRejectsSyntaxErrors("1--2", 1);
    EvalRejectsSyntaxErrors("--2", 0);
    EvalRejectsSyntaxErrors("1++2", 1);
    EvalRejectsSyntaxErrors("010", 0);
    TokenizeSeparatedSigns();
    ParseSeparatedSigns([Num(1), Minus, Minus, Num(2)]);
  }

  lemma ParseSeparatedSigns(ts: seq<Token>)
    requires ts == [Num(1), Minus, Minus, Num(2)]
    ensures ParseExpr(ts, 0) == Some((3, 4))
  {
    assert ParseTerm(ts, 0) == Some((1, 1));
    assert ParseFactor(ts, 3) == Some((2, 4));
    assert ParseFactor(ts, 2) == Some((-2, 4));
    assert ParseTerm(ts, 2) == Some((-2, 4));
    assert ParseExprRest(ts, 4, 3) == Some((3, 4));
    assert ParseExprRest(ts, 1, 1) == Some((3, 4));
  }

  lemma TokenizeSeparatedSigns()
    ensures Tokenize("1- -2") == Some([Num(1), Minus, Minus, Num(2)])
  {
    assert Tokenize(" -2") == Tokenize("-2") by {
      assert " -2"[1..] == "-2";
    }
    hide Tokenize;
    TokenizeNatAlone(2);
    assert NatToString(2) == "2";
    assert Tokenize("-2") == Some([Minus, Num(2)]) by {
      TokenizeSymbol('-', "2");
      assert ['-'] + "2" == "-2" && [Minus] + [Num(2)] == [Minus, Num(2)];
    }
    assert Tokenize("- -2") == Some([Minus, Minus, Num(2)]) by {
      TokenizeSymbol('-', " -2");
      assert ['-'] + " -2" == "- -2" && [Minus] + [Minus, Num(2)] == [Minus, Minus, Num(2)];
    }
    TokenizeNat(1, "- -2");
    assert NatToString(1) + "- -2" == "1- -2";
    assert [Num(1)] + [Minus, Minus, Num(2)] == [Num(1), Minus, Minus, Num(2)];
  }

  /** `*` binds tighter than `+`, as in JavaScript. */
  lemma EvalPrecedence()
    ensures Eval("2*3+1") == Some(7)
  {
    var ts := [Num(2), Times, Num(3), Plus, Num(1)];
    TokenizeProduct();
    ParseProduct(ts);
  }

  lemma TokenizeProduct()
    ensures Tokenize("2*3+1") == Some([Num(2), Times, Num(3), Plus, Num(1)])
  {
    hide Tokenize;
    TokenizeNatAlone(1);
    assert NatToString(1) == "1";
    assert Tokenize("+1") == Some([Plus, Num(1)]) by {
      TokenizeSymbol('+', "1");
      assert ['+'] + "1" == "+1" && [Plus] + [Num(1)] == [Plus, Num(1)];
    }
    assert Tokenize("3+1") == Some([Num(3), Plus, Num(1)]) by {
      TokenizeNat(3, "+1");
      assert NatToString(3) + "+1" == "3+1" && [Num(3)] + [Plus, Num(1)] == [Num(3), Plus, Num(1)];
    }
    assert Tokenize("*3+1") == Some([Times, Num(3), Plus, Num(1)]) by {
      TokenizeSymbol('*', "3+1");
      assert ['*'] + "3+1" == "*3+1" && [Times] + [Num(3), Plus, Num(1)] == [Times, Num(3), Plus, Num(1)];
    }
    TokenizeNat(2, "*3+1");
    assert NatToString(2) + "*3+1" == "2*3+1";
    assert [Num(2)] + [Times, Num(3), Plus, Num(1)] == [Num(2), Times, Num(3), Plus, Num(1)];
  }

  lemma ParseProduct(ts: seq<Token>)
    requires ts == [Num(2), Times, Num(3), Plus, Num(1)]
    ensures ParseExpr(ts, 0) == Some((7, 5))
  {
    assert ParseFactor(ts, 0) == Some((2, 1));
    assert ParseFactor(ts, 2) == Some((3, 3));
    assert ParseTermRest(ts, 3, 6) == Some((6, 3));
    assert ParseTermRest(ts, 1, 2) == Some((6, 3));
    assert ParseTerm(ts, 0) == Some((6, 3));
    assert ParseTerm(ts, 4) == Some((1, 5));
    assert ParseExprRest(ts, 3, 6) == Some((7, 5));
  }

  /** `-` groups to the left, as in JavaScript. */
  lemma EvalLeftAssociative()
    ensures Eval("7-2-3") == Some(2)
  {
    var ts := [Num(7), Minus, Num(2), Minus, Num(3)];
    TokenizeDifference();
    ParseDifference(ts);
  }

  lemma TokenizeDifference()
    ensures Tokenize("7-2-3") == Some([Num(7), Minus, Num(2), Minus, Num(3)])
  {
    hide Tokenize;
    TokenizeNatAlone(3);
    assert NatToString(3) == "3";
    assert Tokenize("-3") == Some([Minus, Num(3)]) by {
      TokenizeSymbol('-', "3");
      assert ['-'] + "3" == "-3" && [Minus] + [Num(3)] == [Minus, Num(3)];
    }
    assert Tokenize("2-3") == Some([Num(2), Minus, Num(3)]) by {
      TokenizeNat(2, "-3");
      assert NatToString(2) + "-3" == "2-3" && [Num(2)] + [Minus, Num(3)] == [Num(2), Minus, Num(3)];
    }
    assert Tokenize("-2-3") == Some([Minus, Num(2), Minus, Num(3)]) by {
      TokenizeSymbol('-', "2-3");
      assert ['-'] + "2-3" == "-2-3" && [Minus] + [Num(2), Minus, Num(3)] == [Minus, Num(2), Minus, Num(3)];
    }
    TokenizeNat(7, "-2-3");
    assert NatToString(7) + "-2-3" == "7-2-3";
    assert [Num(7)] + [Minus, Num(2), Minus, Num(3)] == [Num(7), Minus, Num(2), Minus, Num(3)];
  }

  lemma ParseDifference(ts: seq<Token>)
    requires ts == [Num(7), Minus, Num(2), Minus, Num(3)]
    ensures ParseExpr(ts, 0) == Some((2, 5))
  {
    assert ParseTerm(ts, 0) == Some((7, 1));
    assert ParseTerm(ts, 2) == Some((2, 3));
    assert ParseTerm(ts, 4) == Some((3, 5));
    assert ParseExprRest(ts, 5, 2) == Some((2, 5));
    assert ParseExprRest(ts, 3, 5) == Some((2, 5));
    assert ParseExprRest(ts, 1, 7) == Some((2, 5));
  }
}
