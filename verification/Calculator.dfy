/**
 The calculator's recursive-descent parser (`internal/tool/registry.go`), with numbers as reals.

 `Parser` is the code: a position, loops and mutual recursion.  `ParseExpr` and its companions say
 what it computes on the text that is left.  `Expr`, `Term` and `Factor` are the grammar, with every
 blank and every parenthesis; `Tree` is what an expression means.  The two directions are
 `EvaluatesEveryTree` and `AcceptedHasTree`.
 */
module Calculators {
  import opened Wrappers

  datatype Error = DivisionByZero | Incomplete | MissingParenthesis | BadNumber | TrailingText

  /** A value and the text that is left, or an error. */
  datatype Outcome = Ok(v: real, rest: string) | Fail(e: Error)

  // ---------- Numbers ----------

  predicate IsBlank(c: char) {
    c == ' ' || c == '\t'
  }

  predicate IsNumberChar(c: char) {
    IsDigit(c) || c == '.'
  }

  predicate AllDigits(s: string) {
    forall i :: 0 <= i < |s| ==> IsDigit(s[i])
  }

  function DigitsValue(s: string): nat
    requires AllDigits(s)
  {
    if s == "" then 0
    else
      assert IsDigit(s[|s| - 1]);
      10 * DigitsValue(s[..|s| - 1]) + (s[|s| - 1] as int - '0' as int)
  }

  function PowerOfTen(n: nat): (p: nat)
    ensures p > 0
  {
    if n == 0 then 1 else 10 * PowerOfTen(n - 1)
  }

  /** The position of the first point, or the length. */
  function PointAt(s: string): (n: nat)
    ensures n <= |s| && (n < |s| ==> s[n] == '.')
  {
    if s == "" || s[0] == '.' then 0 else 1 + PointAt(s[1..])
  }

  /** `strconv.ParseFloat` on digits and points: at most one point, at least one digit. */
  function Decimal(s: string): Option<real> {
    var n := PointAt(s);
    var whole, fraction := s[..n], if n < |s| then s[n + 1..] else "";
    if !AllDigits(whole) || !AllDigits(fraction) || (whole == "" && fraction == "") then None
    else Some((DigitsValue(whole) as real) + (DigitsValue(fraction) as real) / (PowerOfTen(|fraction|) as real))
  }

  lemma {:induction false} PowerOfTenTimes(m: nat, n: nat)
    ensures PowerOfTen(0) == 1 && PowerOfTen(1) == 10 && PowerOfTen(m + n) == PowerOfTen(m) * PowerOfTen(n)
  {
    assert PowerOfTen(1) == 10 * PowerOfTen(0);
    if n > 0 {
      PowerOfTenTimes(m, n - 1);
      assert PowerOfTen(m + n) == 10 * PowerOfTen(m + (n - 1));
    }
  }

  lemma DigitsOne(c: char)
    requires IsDigit(c)
    ensures DigitsValue([c]) == c as int - '0' as int
  {
    assert [c][..0] == "";
  }

  /** Digits are read in base ten, the first ones for the most. */
  lemma {:induction false} DigitsConcat(a: string, b: string)
    requires AllDigits(a) && AllDigits(b)
    ensures AllDigits(a + b) && DigitsValue(a + b) == DigitsValue(a) * PowerOfTen(|b|) + DigitsValue(b)
  {
    if b == "" {
      assert a + b == a;
    } else {
      var init, n := b[..|b| - 1], |b| - 1;
      DigitsConcat(a, init);
      assert AllDigits(a + b);
      assert (a + b)[..|a + b| - 1] == a + init;
      assert DigitsValue(a + b) == 10 * DigitsValue(a + init) + (b[n] as int - '0' as int);
      assert DigitsValue(b) == 10 * DigitsValue(init) + (b[n] as int - '0' as int);
      TenTimes(DigitsValue(a), PowerOfTen(n));
    }
  }

  lemma TenTimes(x: int, p: int)
    ensures 10 * (x * p) == x * (10 * p)
  {
  }

  lemma {:induction false} PointIs(w: string, rest: string)
    requires AllDigits(w) && (rest == "" || rest[0] == '.')
    ensures PointAt(w + rest) == |w|
  {
    if w == "" {
      assert w + rest == rest;
    } else {
      assert (w + rest)[1..] == w[1..] + rest;
      PointIs(w[1..], rest);
    }
  }

  lemma WholeValue(w: string)
    requires AllDigits(w) && w != ""
    ensures Decimal(w) == Some(DigitsValue(w) as real)
  {
    PointIs(w, "");
    assert w + "" == w && w[..|w|] == w;
    PowerOfTenTimes(0, 0);
  }

  lemma PointDecimal(w: string, f: string)
    requires AllDigits(w) && AllDigits(f) && w + f != ""
    ensures Decimal(w + "." + f) ==
      Some((DigitsValue(w) as real) + (DigitsValue(f) as real) / (PowerOfTen(|f|) as real))
  {
    hide *;
    var s := w + "." + f;
    assert s == w + ("." + f);
    PointIs(w, "." + f);
    assert s[..|w|] == w && s[|w| + 1..] == f;
    DecimalAt(s, w, f);
  }

  lemma DecimalAt(s: string, w: string, f: string)
    requires AllDigits(w) && AllDigits(f) && w + f != ""
    requires |w| < |s| && PointAt(s) == |w| && s[..|w|] == w && s[|w| + 1..] == f
    ensures Decimal(s) == Some((DigitsValue(w) as real) + (DigitsValue(f) as real) / (PowerOfTen(|f|) as real))
  {
    hide DigitsValue, PowerOfTen, PointAt, AllDigits;
  }

  /** The value of digits, a point and digits is that of all the digits, divided by ten for each after the point. */
  lemma PointValue(w: string, f: string)
    requires AllDigits(w) && AllDigits(f) && w + f != ""
    ensures Decimal(w + "." + f).Some? && AllDigits(w + f)
    ensures Decimal(w + "." + f).value * (PowerOfTen(|f|) as real) == DigitsValue(w + f) as real
  {
    hide *;
    PointDecimal(w, f);
    DigitsConcat(w, f);
    Shifted(DigitsValue(w), DigitsValue(f), PowerOfTen(|f|));
  }

  lemma Shifted(x: int, y: int, p: int)
    requires p > 0
    ensures ((x as real) + (y as real) / (p as real)) * (p as real) == (x * p + y) as real
  {
    assert (y as real) / (p as real) * (p as real) == y as real;
    assert (x * p) as real == (x as real) * (p as real);
  }

  /** Digits, or digits around a point, with at least one digit. */
  ghost predicate IsDecimal(s: string, w: string, f: string) {
    AllDigits(w) && AllDigits(f) && ((s == w && w != "") || (s == w + "." + f && w + f != ""))
  }

  /** Nothing else is a number. */
  lemma DecimalIff(s: string)
    ensures Decimal(s).Some? <==> exists w, f :: IsDecimal(s, w, f)
  {
    if Decimal(s).Some? {
      var n := PointAt(s);
      var w, f := s[..n], if n < |s| then s[n + 1..] else "";
      assert n < |s| ==> s == w + "." + f;
      assert IsDecimal(s, w, f);
    }
    if w, f :| IsDecimal(s, w, f) {
      if s == w + "." + f { PointValue(w, f); } else if w != "" { WholeValue(w); }
    }
  }

  // ---------- Arithmetic ----------

  function Sum(op: char, a: real, b: real): real {
    if op == '+' then a + b else a - b
  }

  /** A product or a quotient; dividing by zero has no value. */
  function Combine(op: char, a: real, b: real): Option<real> {
    if op == '*' then Some(a * b) else if b == 0.0 then None else Some(a / b)
  }

  predicate IsSum(op: char) { op == '+' || op == '-' }

  predicate IsProduct(op: char) { op == '*' || op == '/' }

  /** Combines a value with the next factor. */
  function Combined(o: Outcome, op: char, v: real): Outcome {
    match o
    case Fail(e) => Fail(e)
    case Ok(r, rest) => (match Combine(op, v, r) case None => Fail(DivisionByZero) case Some(x) => Ok(x, rest))
  }

  // ---------- What the parser computes ----------

  function SkipBlanks(t: string): (r: string)
    ensures |r| <= |t|
  {
    if t != "" && IsBlank(t[0]) then SkipBlanks(t[1..]) else t
  }

  /** The longest prefix of digits and points. */
  function NumberPrefix(t: string): (n: nat)
    ensures n <= |t|
  {
    if t != "" && IsNumberChar(t[0]) then 1 + NumberPrefix(t[1..]) else 0
  }

  function ParseExpr(t: string): (o: Outcome)
    ensures o.Ok? ==> |o.rest| < |t|
    decreases |t|, 3
  {
    match ParseTerm(t)
    case Fail(e) => Fail(e)
    case Ok(v, rest) => ExprLoop(rest, v)
  }

  function ExprLoop(t: string, v: real): (o: Outcome)
    ensures o.Ok? ==> |o.rest| <= |t|
    decreases |t|, 4
  {
    var u := SkipBlanks(t);
    if u == "" || !IsSum(u[0]) then Ok(v, u)
    else match ParseTerm(u[1..])
      case Fail(e) => Fail(e)
      case Ok(r, rest) => ExprLoop(rest, Sum(u[0], v, r))
  }

  function ParseTerm(t: string): (o: Outcome)
    ensures o.Ok? ==> |o.rest| < |t|
    decreases |t|, 2
  {
    match ParseFactor(t)
    case Fail(e) => Fail(e)
    case Ok(v, rest) => TermLoop(rest, v)
  }

  function TermLoop(t: string, v: real): (o: Outcome)
    ensures o.Ok? ==> |o.rest| <= |t|
    decreases |t|, 3
  {
    var u := SkipBlanks(t);
    if u == "" || !IsProduct(u[0]) then Ok(v, u)
    else
      var o := Combined(ParseFactor(u[1..]), u[0], v);
      if o.Ok? then TermLoop(o.rest, o.v) else o
  }

  /** An expression between parentheses. */
  function InParentheses(t: string): (o: Outcome)
    requires t != ""
    ensures o.Ok? ==> |o.rest| < |t|
    decreases |t|, 0
  {
    match ParseExpr(t[1..])
    case Fail(e) => Fail(e)
    case Ok(v, rest) =>
      var w := SkipBlanks(rest);
      if w == "" || w[0] != ')' then Fail(MissingParenthesis) else Ok(v, w[1..])
  }

  function ParseFactor(t: string): (o: Outcome)
    ensures o.Ok? ==> |o.rest| < |t|
    decreases |t|, 1
  {
    var u := SkipBlanks(t);
    if u == "" then Fail(Incomplete)
    else if u[0] == '(' then InParentheses(u)
    else if u[0] == '-' then
      match ParseFactor(u[1..])
      case Fail(e) => Fail(e)
      case Ok(v, rest) => Ok(-v, rest)
    else
      var n := NumberPrefix(u);
      match Decimal(u[..n])
      case None => Fail(BadNumber)
      case Some(x) => if n == 0 then Fail(BadNumber) else Ok(x, u[n..])
  }

  function Evaluated(s: string): Outcome {
    match ParseExpr(s)
    case Fail(e) => Fail(e)
    case Ok(v, rest) => if rest == "" then Ok(v, "") else Fail(TrailingText)
  }

  // ---------- The parser ----------

  /** The method's result and new position agree with the specification. */
  ghost predicate Agrees(s: string, pos: nat, r: Result<real, Error>, o: Outcome) {
    match o
    case Ok(v, rest) => r == Success(v) && pos <= |s| && rest == s[pos..]
    case Fail(e) => r == Failure(e)
  }

  lemma Agreement(s: string, pos: nat, r: Result<real, Error>, o: Outcome)
    ensures Agrees(s, pos, r, o) <==>
      (o.Ok? && pos <= |s| && r == Success(o.v) && o.rest == s[pos..]) || (o.Fail? && r == Failure(o.e))
  {
  }

  lemma OperatorAt(s: string, pos: nat)
    requires pos <= |s|
    ensures pos == |s| ==> s[pos..] == ""
    ensures pos < |s| ==> s[pos..] != "" && s[pos..][0] == s[pos] && s[pos..][1..] == s[pos + 1..]
    ensures pos < |s| ==> (IsProduct(s[pos]) <==> s[pos] == '*' || s[pos] == '/')
    ensures pos < |s| ==> (IsSum(s[pos]) <==> s[pos] == '+' || s[pos] == '-')
  {
  }

  lemma TermLoopStep(t: string, v: real)
    ensures TermLoop(t, v) ==
      var u := SkipBlanks(t);
      if u == "" || !IsProduct(u[0]) then Ok(v, u)
      else
        var o := Combined(ParseFactor(u[1..]), u[0], v);
        if o.Ok? then TermLoop(o.rest, o.v) else o
  {
  }

  lemma ExprLoopStep(t: string, v: real)
    ensures ExprLoop(t, v) ==
      var u := SkipBlanks(t);
      if u == "" || !IsSum(u[0]) then Ok(v, u)
      else
        var o := ParseTerm(u[1..]);
        if o.Ok? then ExprLoop(o.rest, Sum(u[0], v, o.v)) else o
  {
  }

  class Parser {
    const s: string
    var pos: nat

    constructor (s: string)
      ensures this.s == s && pos == 0
    {
      this.s := s;
      pos := 0;
    }

    method SkipWhitespace()
      requires pos <= |s|
      modifies this
      ensures old(pos) <= pos <= |s| && s[pos..] == SkipBlanks(s[old(pos)..])
    {
      while pos < |s| && IsBlank(s[pos])
        invariant old(pos) <= pos <= |s| && SkipBlanks(s[pos..]) == SkipBlanks(s[old(pos)..])
      {
        assert s[pos..][1..] == s[pos + 1..];
        pos := pos + 1;
      }
    }

    method Expression() returns (r: Result<real, Error>)
      requires pos <= |s|
      modifies this
      ensures Agrees(s, pos, r, ParseExpr(s[old(pos)..]))
      ensures r.Success? ==> old(pos) < pos <= |s|
      decreases |s| - pos, 6
    {
      r := TermOf();
      if r.Success? {
        r := Terms(r.value);
      }
    }

    /** The loop of `parseExpr`: further terms, added and subtracted from the left. */
    method Terms(v: real) returns (r: Result<real, Error>)
      requires pos <= |s|
      modifies this
      ensures Agrees(s, pos, r, ExprLoop(s[old(pos)..], v))
      ensures r.Success? ==> old(pos) <= pos <= |s|
      decreases |s| - pos, 5
    {
      r := Success(v);
      ghost var start := ExprLoop(s[pos..], v);
      hide *;
      while true
        invariant r.Success? && old(pos) <= pos <= |s| && ExprLoop(s[pos..], r.value) == start
        decreases |s| - pos
      {
        ExprLoopStep(s[pos..], r.value);
        SkipWhitespace();
        OperatorAt(s, pos);
        if pos >= |s| || (s[pos] != '+' && s[pos] != '-') {
          Agreement(s, pos, r, start);
          return;
        }
        var op := s[pos];
        pos := pos + 1;
        ghost var term := ParseTerm(s[pos..]);
        var next := TermOf();
        Agreement(s, pos, next, term);
        if next.Failure? {
          Agreement(s, pos, next, start);
          return next;
        }
        r := Success(Sum(op, r.value, next.value));
      }
    }

    method TermOf() returns (r: Result<real, Error>)
      requires pos <= |s|
      modifies this
      ensures Agrees(s, pos, r, ParseTerm(s[old(pos)..]))
      ensures r.Success? ==> old(pos) < pos <= |s|
      decreases |s| - pos, 4
    {
      r := FactorOf();
      if r.Success? {
        r := Factors(r.value);
      }
    }

    /** The loop of `parseTerm`: further factors, multiplied and divided from the left. */
    method Factors(v: real) returns (r: Result<real, Error>)
      requires pos <= |s|
      modifies this
      ensures Agrees(s, pos, r, TermLoop(s[old(pos)..], v))
      ensures r.Success? ==> old(pos) <= pos <= |s|
      decreases |s| - pos, 3
    {
      r := Success(v);
      ghost var start := TermLoop(s[pos..], v);
      hide *;
      while true
        invariant r.Success? && old(pos) <= pos <= |s| && TermLoop(s[pos..], r.value) == start
        decreases |s| - pos
      {
        TermLoopStep(s[pos..], r.value);
        SkipWhitespace();
        OperatorAt(s, pos);
        if pos >= |s| || (s[pos] != '*' && s[pos] != '/') {
          Agreement(s, pos, r, start);
          return;
        }
        var op := s[pos];
        pos := pos + 1;
        ghost var combined := Combined(ParseFactor(s[pos..]), op, r.value);
        r := NextFactor(op, r.value);
        Agreement(s, pos, r, combined);
        if r.Failure? {
          Agreement(s, pos, r, start);
          return;
        }
      }
    }

    /** Reads a factor and combines it with the value so far. */
    method NextFactor(op: char, v: real) returns (r: Result<real, Error>)
      requires pos <= |s|
      modifies this
      ensures Agrees(s, pos, r, Combined(ParseFactor(s[old(pos)..]), op, v))
      ensures r.Success? ==> old(pos) < pos <= |s|
      decreases |s| - pos, 2
    {
      ghost var factor := ParseFactor(s[pos..]);
      var next := FactorOf();
      hide ParseFactor, Combine;
      if next.Failure? {
        return next;
      }
      match Combine(op, v, next.value) {
        case None => return Failure(DivisionByZero);
        case Some(x) => return Success(x);
      }
    }

    /** A factor that begins with a parenthesis, without blanks before it. */
    method Parenthesized() returns (r: Result<real, Error>)
      requires pos < |s| && s[pos] == '('
      modifies this
      ensures Agrees(s, pos, r, InParentheses(s[old(pos)..]))
      ensures r.Success? ==> old(pos) < pos <= |s|
      decreases |s| - pos, 0
    {
      hide ParseExpr;
      assert s[pos..][1..] == s[pos + 1..];
      pos := pos + 1;
      r := Expression();
      if r.Failure? {
        return;
      }
      SkipWhitespace();
      if pos >= |s| || s[pos] != ')' {
        return Failure(MissingParenthesis);
      }
      assert s[pos..][1..] == s[pos + 1..];
      pos := pos + 1;
    }

    method FactorOf() returns (r: Result<real, Error>)
      requires pos <= |s|
      modifies this
      ensures Agrees(s, pos, r, ParseFactor(s[old(pos)..]))
      ensures r.Success? ==> old(pos) < pos <= |s|
      decreases |s| - pos, 1
    {
      hide Decimal, NumberPrefix, InParentheses;
      SkipWhitespace();
      if pos >= |s| {
        return Failure(Incomplete);
      }
      assert s[pos..][1..] == s[pos + 1..];
      if s[pos] == '(' {
        r := Parenthesized();
        return;
      }
      if s[pos] == '-' {
        pos := pos + 1;
        r := FactorOf();
        if r.Success? {
          r := Success(-r.value);
        }
        return;
      }
      r := Number();
    }

    method Number() returns (r: Result<real, Error>)
      requires pos < |s|
      modifies this
      ensures var u := s[old(pos)..]; var n := NumberPrefix(u);
        if n > 0 && Decimal(u[..n]).Some?
        then r == Success(Decimal(u[..n]).value) && pos == old(pos) + n
        else r == Failure(BadNumber)
      ensures old(pos) <= pos <= |s|
    {
      hide Decimal, IsNumberChar;
      var start := pos;
      while pos < |s| && IsNumberChar(s[pos])
        invariant start <= pos <= |s| && NumberPrefix(s[start..]) == pos - start + NumberPrefix(s[pos..])
      {
        assert s[pos..][1..] == s[pos + 1..];
        pos := pos + 1;
      }
      assert s[start..pos] == s[start..][..pos - start];
      if start == pos {
        return Failure(BadNumber);
      }
      match Decimal(s[start..pos])
      case None => return Failure(BadNumber);
      case Some(x) => return Success(x);
    }
  }

  method EvalExpr(s: string) returns (r: Result<real, Error>)
    ensures r == match Evaluated(s) case Ok(v, _) => Success(v) case Fail(e) => Failure(e)
  {
    var p := new Parser(s);
    assert s[0..] == s;
    r := p.Expression();
    if r.Failure? {
      return;
    }
    if p.pos < |s| {
      return Failure(TrailingText);
    }
  }

  // ---------- The grammar, with every blank and parenthesis ----------

  datatype Expr = First(t: Term) | More(e: Expr, blanks: string, op: char, t: Term)
  datatype Term = Lone(f: Factor) | Chain(t: Term, blanks: string, op: char, f: Factor)
  datatype Factor =
    | Paren(blanks: string, e: Expr, closing: string)
    | Minus(blanks: string, f: Factor)
    | Number(blanks: string, text: string)

  /** What an expression means, without blanks and parentheses. */
  datatype Tree = Literal(text: string) | Negated(t: Tree) | Binary(op: char, l: Tree, r: Tree)

  ghost predicate Blank(s: string) {
    forall i :: 0 <= i < |s| ==> IsBlank(s[i])
  }

  ghost predicate IsNumber(text: string) {
    text != "" && (forall i :: 0 <= i < |text| ==> IsNumberChar(text[i])) && Decimal(text).Some?
  }

  ghost predicate GoodExpr(e: Expr) {
    match e
    case First(t) => GoodTerm(t)
    case More(e', b, op, t) => GoodExpr(e') && Blank(b) && IsSum(op) && GoodTerm(t)
  }

  ghost predicate GoodTerm(t: Term) {
    match t
    case Lone(f) => GoodFactor(f)
    case Chain(t', b, op, f) => GoodTerm(t') && Blank(b) && IsProduct(op) && GoodFactor(f)
  }

  ghost predicate GoodFactor(f: Factor) {
    match f
    case Paren(b, e, c) => Blank(b) && GoodExpr(e) && Blank(c)
    case Minus(b, f') => Blank(b) && GoodFactor(f')
    case Number(b, text) => Blank(b) && IsNumber(text)
  }

  function ShowExpr(e: Expr): string {
    match e
    case First(t) => ShowTerm(t)
    case More(e', b, op, t) => ShowExpr(e') + (b + ([op] + ShowTerm(t)))
  }

  function ShowTerm(t: Term): string {
    match t
    case Lone(f) => ShowFactor(f)
    case Chain(t', b, op, f) => ShowTerm(t') + (b + ([op] + ShowFactor(f)))
  }

  function ShowFactor(f: Factor): string {
    match f
    case Paren(b, e, c) => b + (['('] + (ShowExpr(e) + (c + [')'])))
    case Minus(b, f') => b + (['-'] + ShowFactor(f'))
    case Number(b, text) => b + text
  }

  function TreeOfExpr(e: Expr): Tree {
    match e
    case First(t) => TreeOfTerm(t)
    case More(e', _, op, t) => Binary(op, TreeOfExpr(e'), TreeOfTerm(t))
  }

  function TreeOfTerm(t: Term): Tree {
    match t
    case Lone(f) => TreeOfFactor(f)
    case Chain(t', _, op, f) => Binary(op, TreeOfTerm(t'), TreeOfFactor(f))
  }

  function TreeOfFactor(f: Factor): Tree {
    match f
    case Paren(_, e, _) => TreeOfExpr(e)
    case Minus(_, f') => Negated(TreeOfFactor(f'))
    case Number(_, text) => Literal(text)
  }

  /** What the four operators mean; a quotient by zero has no value. */
  function Applied(op: char, x: real, y: real): Option<real> {
    match op
    case '+' => Some(x + y)
    case '-' => Some(x - y)
    case '*' => Some(x * y)
    case '/' => if y != 0.0 then Some(x / y) else None
    case _ => None
  }

  /** The value of a tree; none if it divides by zero somewhere. */
  function TreeValue(t: Tree): Option<real> {
    match t
    case Literal(text) => Decimal(text)
    case Negated(u) => (match TreeValue(u) case None => None case Some(x) => Some(-x))
    case Binary(op, l, r) =>
      match (TreeValue(l), TreeValue(r))
      case (Some(x), Some(y)) => Applied(op, x, y)
      case _ => None
  }

  // ---------- Every tree is evaluated ----------

  /** The number at the end of a factor ends there. */
  ghost predicate EndsNumber(rest: string) {
    rest == "" || !IsNumberChar(rest[0])
  }

  /** After blanks, no product operator follows. */
  ghost predicate EndsTerm(rest: string) {
    var u := SkipBlanks(rest);
    EndsNumber(rest) && (u == "" || !IsProduct(u[0]))
  }

  lemma {:induction false} SkipsBlanks(b: string, t: string)
    requires Blank(b) && (t == "" || !IsBlank(t[0]))
    ensures SkipBlanks(b + t) == t
  {
    if b == "" {
      assert b + t == t;
    } else {
      assert (b + t)[1..] == b[1..] + t;
      SkipsBlanks(b[1..], t);
    }
  }

  lemma {:induction false} SkipBlanksTwice(t: string)
    ensures SkipBlanks(SkipBlanks(t)) == SkipBlanks(t)
    ensures EndsNumber(SkipBlanks(t)) || !EndsNumber(t) || SkipBlanks(t) != t
  {
    if t != "" && IsBlank(t[0]) { SkipBlanksTwice(t[1..]); }
  }

  lemma {:induction false} TakesNumber(text: string, rest: string)
    requires (forall i :: 0 <= i < |text| ==> IsNumberChar(text[i])) && EndsNumber(rest)
    ensures NumberPrefix(text + rest) == |text|
  {
    if text == "" {
      assert text + rest == rest;
    } else {
      assert (text + rest)[1..] == text[1..] + rest;
      TakesNumber(text[1..], rest);
    }
  }

  /** Blanks before a character that no number contains end a number and are skipped. */
  lemma EndsAfterBlanks(b: string, c: char, rest: string)
    requires Blank(b) && !IsBlank(c) && !IsNumberChar(c)
    ensures EndsNumber(b + ([c] + rest)) && SkipBlanks(b + ([c] + rest)) == [c] + rest
  {
    SkipsBlanks(b, [c] + rest);
    assert b != "" ==> (b + ([c] + rest))[0] == b[0];
  }

  lemma NumberReads(b: string, text: string, rest: string)
    requires Blank(b) && IsNumber(text) && EndsNumber(rest)
    ensures Decimal(text).Some? && ParseFactor((b + text) + rest) == Ok(Decimal(text).value, rest)
  {
    assert (b + text) + rest == b + (text + rest);
    assert IsNumberChar(text[0]);
    SkipsBlanks(b, text + rest);
    TakesNumber(text, rest);
    assert (text + rest)[..|text|] == text && (text + rest)[|text|..] == rest;
    hide Decimal, SkipBlanks, NumberPrefix;
  }

  lemma MinusReads(b: string, shown: string, rest: string)
    requires Blank(b)
    ensures ParseFactor((b + (['-'] + shown)) + rest) == match ParseFactor(shown + rest)
      case Fail(e) => Fail(e)
      case Ok(v, r) => Ok(-v, r)
  {
    assert (b + (['-'] + shown)) + rest == b + (['-'] + (shown + rest));
    EndsAfterBlanks(b, '-', shown + rest);
    assert (['-'] + (shown + rest))[1..] == shown + rest;
    hide Decimal, SkipBlanks, NumberPrefix;
  }

  lemma ParenReads(b: string, shown: string, c: string, rest: string, v: Option<real>)
    requires Blank(b) && Blank(c)
    requires var tail := c + ([')'] + rest);
      ParseExpr(shown + tail) == match v case None => Fail(DivisionByZero) case Some(x) => ExprLoop(tail, x)
    ensures ParseFactor((b + (['('] + (shown + (c + [')'])))) + rest) == match v
      case None => Fail(DivisionByZero)
      case Some(x) => Ok(x, rest)
  {
    var tail := c + ([')'] + rest);
    assert (b + (['('] + (shown + (c + [')'])))) + rest == b + (['('] + (shown + tail));
    EndsAfterBlanks(b, '(', shown + tail);
    EndsAfterBlanks(c, ')', rest);
    assert (['('] + (shown + tail))[1..] == shown + tail;
    assert ([')'] + rest)[1..] == rest;
    SkipBlanksTwice(tail);
    hide Decimal, SkipBlanks, NumberPrefix;
  }

  lemma {:induction false} FactorReads(f: Factor, rest: string)
    requires GoodFactor(f) && EndsNumber(rest)
    ensures ParseFactor(ShowFactor(f) + rest) == match TreeValue(TreeOfFactor(f))
      case None => Fail(DivisionByZero)
      case Some(x) => Ok(x, rest)
    decreases f, 0
  {
    match f
    case Number(b, text) => NumberReads(b, text, rest);
    case Minus(b, g) =>
      FactorReads(g, rest);
      MinusReads(b, ShowFactor(g), rest);
    case Paren(b, e, c) =>
      EndsAfterBlanks(c, ')', rest);
      ExprReads(e, c + ([')'] + rest));
      ParenReads(b, ShowExpr(e), c, rest, TreeValue(TreeOfExpr(e)));
  }

  /** The loop meets the operator and the factor that it combines. */
  lemma TermLoopReads(b: string, op: char, shown: string, v: real)
    requires Blank(b) && IsProduct(op)
    ensures TermLoop(b + ([op] + shown), v) ==
      var o := Combined(ParseFactor(shown), op, v);
      if o.Ok? then TermLoop(o.rest, o.v) else o
  {
    EndsAfterBlanks(b, op, shown);
    assert ([op] + shown)[1..] == shown;
    TermLoopStep(b + ([op] + shown), v);
    hide *;
  }

  lemma ProductValue(op: char, l: Tree, r: Tree)
    requires IsProduct(op)
    ensures TreeValue(Binary(op, l, r)) ==
      if TreeValue(l).None? || TreeValue(r).None? then None
      else Combine(op, TreeValue(l).value, TreeValue(r).value)
  {
  }

  lemma SumValue(op: char, l: Tree, r: Tree)
    requires IsSum(op)
    ensures TreeValue(Binary(op, l, r)) ==
      if TreeValue(l).None? || TreeValue(r).None? then None else Some(Sum(op, TreeValue(l).value, TreeValue(r).value))
  {
  }

  lemma {:induction false} TermReads(t: Term, rest: string)
    requires GoodTerm(t) && EndsNumber(rest)
    ensures ParseTerm(ShowTerm(t) + rest) == match TreeValue(TreeOfTerm(t))
      case None => Fail(DivisionByZero)
      case Some(x) => TermLoop(rest, x)
    decreases t, 1
  {
    match t
    case Lone(f) => FactorReads(f, rest);
    case Chain(t', b, op, f) =>
      var shown := ShowFactor(f) + rest;
      var tail := b + ([op] + shown);
      assert ShowTerm(t) + rest == ShowTerm(t') + tail;
      EndsAfterBlanks(b, op, shown);
      TermReads(t', tail);
      FactorReads(f, rest);
      ProductValue(op, TreeOfTerm(t'), TreeOfFactor(f));
      if TreeValue(TreeOfTerm(t')).Some? {
        TermLoopReads(b, op, shown, TreeValue(TreeOfTerm(t')).value);
      }
      hide ParseFactor, ParseTerm, SkipBlanks, Combine, TermLoop, TreeValue;
  }

  lemma {:induction false} ExprReads(e: Expr, rest: string)
    requires GoodExpr(e) && EndsTerm(rest)
    ensures ParseExpr(ShowExpr(e) + rest) == match TreeValue(TreeOfExpr(e))
      case None => Fail(DivisionByZero)
      case Some(x) => ExprLoop(rest, x)
    decreases e, 2
  {
    match e
    case First(t) =>
      TermReads(t, rest);
      SkipBlanksTwice(rest);
    case More(e', b, op, t) =>
      var tail := b + ([op] + (ShowTerm(t) + rest));
      assert ShowExpr(e) + rest == ShowExpr(e') + tail;
      EndsAfterBlanks(b, op, ShowTerm(t) + rest);
      ExprReads(e', tail);
      TermReads(t, rest);
      assert ([op] + (ShowTerm(t) + rest))[1..] == ShowTerm(t) + rest;
      SkipBlanksTwice(rest);
  }

  /** Any writing of any tree, with blanks anywhere, is evaluated to the tree's value, or to the division error. */
  lemma EvaluatesEveryTree(e: Expr, blanks: string)
    requires GoodExpr(e) && Blank(blanks)
    ensures Evaluated(ShowExpr(e) + blanks) == match TreeValue(TreeOfExpr(e))
      case None => Fail(DivisionByZero)
      case Some(x) => Ok(x, "")
  {
    SkipsBlanks(blanks, "");
    assert blanks + "" == blanks;
    ExprReads(e, blanks);
  }

  lemma NumberWrites(a: string)
    requires IsNumber(a)
    ensures GoodTerm(Lone(Number("", a))) && GoodFactor(Number("", a))
    ensures ShowTerm(Lone(Number("", a))) == ShowFactor(Number("", a)) == a
    ensures TreeOfTerm(Lone(Number("", a))) == TreeOfFactor(Number("", a)) == Literal(a)
      && TreeValue(Literal(a)) == Decimal(a)
  {
    assert "" + a == a;
  }

  lemma ChainWrites(t: Term, b: string, op: char, f: Factor)
    requires GoodTerm(t) && Blank(b) && GoodFactor(f) && IsProduct(op)
    ensures GoodTerm(Chain(t, b, op, f))
    ensures ShowTerm(Chain(t, b, op, f)) == ShowTerm(t) + (b + ([op] + ShowFactor(f)))
    ensures TreeOfTerm(Chain(t, b, op, f)) == Binary(op, TreeOfTerm(t), TreeOfFactor(f))
  {
  }

  lemma MoreWrites(e: Expr, b: string, op: char, t: Term)
    requires GoodExpr(e) && Blank(b) && GoodTerm(t) && IsSum(op)
    ensures GoodExpr(More(e, b, op, t))
    ensures ShowExpr(More(e, b, op, t)) == ShowExpr(e) + (b + ([op] + ShowTerm(t)))
    ensures TreeOfExpr(More(e, b, op, t)) == Binary(op, TreeOfExpr(e), TreeOfTerm(t))
  {
  }

  lemma NoBlanks(s: string)
    ensures Blank("") && "" + s == s
  {
  }

  lemma FirstWrites(t: Term)
    requires GoodTerm(t)
    ensures GoodExpr(First(t)) && ShowExpr(First(t)) == ShowTerm(t) && TreeOfExpr(First(t)) == TreeOfTerm(t)
  {
  }

  lemma WrittenValue(e: Expr)
    requires GoodExpr(e)
    ensures Evaluated(ShowExpr(e)) == match TreeValue(TreeOfExpr(e))
      case None => Fail(DivisionByZero)
      case Some(x) => Ok(x, "")
  {
    EvaluatesEveryTree(e, "");
    assert ShowExpr(e) + "" == ShowExpr(e);
  }

  lemma OperationMeans(op: char, l: Tree, r: Tree, x: real, y: real)
    requires TreeValue(l) == Some(x) && TreeValue(r) == Some(y)
    ensures TreeValue(Binary(op, l, r)) == Applied(op, x, y)
  {
    hide Applied;
  }

  lemma SumsMean(l: Tree, r: Tree, x: real, y: real)
    requires TreeValue(l) == Some(x) && TreeValue(r) == Some(y)
    ensures TreeValue(Binary('+', l, r)) == Some(x + y) && TreeValue(Binary('-', l, r)) == Some(x - y)
  {
    assert Applied('+', x, y) == Some(x + y) && Applied('-', x, y) == Some(x - y);
    hide *;
    OperationMeans('+', l, r, x, y);
    OperationMeans('-', l, r, x, y);
  }

  lemma ProductsMean(l: Tree, r: Tree, x: real, y: real)
    requires TreeValue(l) == Some(x) && TreeValue(r) == Some(y)
    ensures TreeValue(Binary('*', l, r)) == Some(x * y)
    ensures TreeValue(Binary('/', l, r)) == if y != 0.0 then Some(x / y) else None
  {
    assert Applied('*', x, y) == Some(x * y) && Applied('/', x, y) == if y != 0.0 then Some(x / y) else None;
    hide *;
    OperationMeans('*', l, r, x, y);
    OperationMeans('/', l, r, x, y);
  }

  /** A product binds closer than the sum before it. */
  lemma SumOfProduct(a: string, b: string, c: string, x: real, y: real, z: real)
    requires IsNumber(a) && IsNumber(b) && IsNumber(c)
    requires Decimal(a) == Some(x) && Decimal(b) == Some(y) && Decimal(c) == Some(z)
    ensures Evaluated(a + (['+'] + (b + (['*'] + c)))) == Ok(x + y * z, "")
  {
    hide *;
    NumberWrites(a);
    NumberWrites(b);
    NumberWrites(c);
    var p, q, r := Number("", a), Number("", b), Number("", c);
    var product := Chain(Lone(q), "", '*', r);
    NoBlanks(['*'] + c);
    NoBlanks(['+'] + ShowTerm(product));
    ChainWrites(Lone(q), "", '*', r);
    FirstWrites(Lone(p));
    MoreWrites(First(Lone(p)), "", '+', product);
    ProductsMean(Literal(b), Literal(c), y, z);
    SumsMean(Literal(a), TreeOfTerm(product), x, y * z);
    WrittenValue(More(First(Lone(p)), "", '+', product));
  }

  /** Sums associate to the left. */
  lemma LeftToRight(a: string, b: string, c: string, x: real, y: real, z: real)
    requires IsNumber(a) && IsNumber(b) && IsNumber(c)
    requires Decimal(a) == Some(x) && Decimal(b) == Some(y) && Decimal(c) == Some(z)
    ensures Evaluated((a + (['-'] + b)) + (['-'] + c)) == Ok((x - y) - z, "")
  {
    hide *;
    NumberWrites(a);
    NumberWrites(b);
    NumberWrites(c);
    var p, q, r := Number("", a), Number("", b), Number("", c);
    var first := More(First(Lone(p)), "", '-', Lone(q));
    FirstWrites(Lone(p));
    NoBlanks(['-'] + b);
    NoBlanks(['-'] + c);
    MoreWrites(First(Lone(p)), "", '-', Lone(q));
    MoreWrites(first, "", '-', Lone(r));
    SumsMean(Literal(a), Literal(b), x, y);
    SumsMean(TreeOfExpr(first), Literal(c), x - y, z);
    WrittenValue(More(first, "", '-', Lone(r)));
  }

  /** So do products. */
  lemma QuotientFirst(a: string, b: string, c: string, x: real, y: real, z: real)
    requires IsNumber(a) && IsNumber(b) && IsNumber(c)
    requires Decimal(a) == Some(x) && Decimal(b) == Some(y) && Decimal(c) == Some(z)
    ensures y != 0.0 ==> Evaluated((a + (['/'] + b)) + (['*'] + c)) == Ok((x / y) * z, "")
  {
    hide *;
    NumberWrites(a);
    NumberWrites(b);
    NumberWrites(c);
    var p, q, r := Number("", a), Number("", b), Number("", c);
    var quotient := Chain(Lone(p), "", '/', q);
    NoBlanks(['/'] + b);
    NoBlanks(['*'] + c);
    ChainWrites(Lone(p), "", '/', q);
    ChainWrites(quotient, "", '*', r);
    FirstWrites(Chain(quotient, "", '*', r));
    ProductsMean(Literal(a), Literal(b), x, y);
    if y != 0.0 {
      ProductsMean(TreeOfTerm(quotient), Literal(c), x / y, z);
      WrittenValue(First(Chain(quotient, "", '*', r)));
    }
  }

  lemma NothingRejected(blanks: string)
    requires Blank(blanks)
    ensures Evaluated(blanks) == Fail(Incomplete)
  {
    SkipsBlanks(blanks, "");
    assert blanks + "" == blanks;
    assert ParseFactor(blanks) == Fail(Incomplete);
    assert ParseTerm(blanks) == Fail(Incomplete);
  }

  /** What goes on after an expression with neither an operator nor an end is refused. */
  lemma TrailingRejected(e: Expr, rest: string)
    requires GoodExpr(e) && TreeValue(TreeOfExpr(e)).Some? && EndsTerm(rest)
    requires SkipBlanks(rest) != "" && !IsSum(SkipBlanks(rest)[0])
    ensures Evaluated(ShowExpr(e) + rest) == Fail(TrailingText)
  {
    ExprReads(e, rest);
    ExprLoopStep(rest, TreeValue(TreeOfExpr(e)).value);
    hide *;
    EvaluatedIs(ShowExpr(e) + rest);
  }

  lemma EvaluatedIs(s: string)
    ensures Evaluated(s) == match ParseExpr(s)
      case Fail(err) => Fail(err)
      case Ok(v, rest) => if rest == "" then Ok(v, "") else Fail(TrailingText)
  {
    hide ParseExpr;
  }

  // ---------- Every accepted text has a tree ----------

  lemma {:induction false} LeadingBlanks(t: string) returns (b: string)
    ensures Blank(b) && t == b + SkipBlanks(t)
  {
    b := "";
    if t != "" && IsBlank(t[0]) {
      b := LeadingBlanks(t[1..]);
      b := [t[0]] + b;
    }
  }

  lemma {:induction false} LeadingNumber(t: string)
    ensures forall i :: 0 <= i < NumberPrefix(t) ==> IsNumberChar(t[i])
  {
    if t != "" && IsNumberChar(t[0]) {
      LeadingNumber(t[1..]);
      forall i | 0 < i < NumberPrefix(t) ensures IsNumberChar(t[i]) { assert t[i] == t[1..][i - 1]; }
    }
  }

  lemma ChainFits(acc: Term, c: string, op: char, f: Factor, rest: string, v: real, r: real)
    requires GoodTerm(acc) && Blank(c) && IsProduct(op) && GoodFactor(f)
    requires TreeValue(TreeOfTerm(acc)) == Some(v) && TreeValue(TreeOfFactor(f)) == Some(r)
    ensures GoodTerm(Chain(acc, c, op, f)) && TreeValue(TreeOfTerm(Chain(acc, c, op, f))) == Combine(op, v, r)
    ensures ShowTerm(acc) + (c + ([op] + (ShowFactor(f) + rest))) == ShowTerm(Chain(acc, c, op, f)) + rest
  {
    hide *;
    ChainWrites(acc, c, op, f);
    ProductValue(op, TreeOfTerm(acc), TreeOfFactor(f));
    assert ShowTerm(acc) + (c + ([op] + (ShowFactor(f) + rest)))
      == (ShowTerm(acc) + (c + ([op] + ShowFactor(f)))) + rest;
  }

  lemma MoreFits(acc: Expr, c: string, op: char, m: Term, rest: string, v: real, r: real)
    requires GoodExpr(acc) && Blank(c) && IsSum(op) && GoodTerm(m)
    requires TreeValue(TreeOfExpr(acc)) == Some(v) && TreeValue(TreeOfTerm(m)) == Some(r)
    ensures GoodExpr(More(acc, c, op, m)) && TreeValue(TreeOfExpr(More(acc, c, op, m))) == Some(Sum(op, v, r))
    ensures ShowExpr(acc) + (c + ([op] + (ShowTerm(m) + rest))) == ShowExpr(More(acc, c, op, m)) + rest
  {
    hide *;
    MoreWrites(acc, c, op, m);
    SumValue(op, TreeOfExpr(acc), TreeOfTerm(m));
    assert ShowExpr(acc) + (c + ([op] + (ShowTerm(m) + rest))) == (ShowExpr(acc) + (c + ([op] + ShowTerm(m)))) + rest;
  }

  lemma ParenFits(b: string, e: Expr, c: string, rest: string)
    requires Blank(b) && GoodExpr(e) && Blank(c)
    ensures GoodFactor(Paren(b, e, c)) && TreeOfFactor(Paren(b, e, c)) == TreeOfExpr(e)
    ensures b + (['('] + (ShowExpr(e) + (c + ([')'] + rest)))) == ShowFactor(Paren(b, e, c)) + rest
  {
    assert ['('] + (ShowExpr(e) + (c + ([')'] + rest))) == (['('] + (ShowExpr(e) + (c + [')']))) + rest;
  }

  lemma MinusFits(b: string, g: Factor, rest: string, v: real)
    requires Blank(b) && GoodFactor(g) && TreeValue(TreeOfFactor(g)) == Some(v)
    ensures GoodFactor(Minus(b, g)) && TreeValue(TreeOfFactor(Minus(b, g))) == Some(-v)
    ensures b + (['-'] + (ShowFactor(g) + rest)) == ShowFactor(Minus(b, g)) + rest
  {
    var shown := ShowFactor(g);
    assert ['-'] + (shown + rest) == (['-'] + shown) + rest;
    assert b + ((['-'] + shown) + rest) == (b + (['-'] + shown)) + rest;
    hide Blank, GoodFactor;
  }

  lemma OpText(t: string, b: string, u: string, op: char, shown: string, rest: string)
    requires t == b + u && u != "" && u[0] == op && u[1..] == shown + rest
    ensures t == b + ([op] + (shown + rest))
  {
    assert u == [u[0]] + u[1..];
  }

  lemma ParenText(t: string, b: string, u: string, shown: string, c: string, d: string, w: string, rest: string)
    requires t == b + u && u != "" && u[0] == '(' && u[1..] == shown + (c + (d + w))
    requires w != "" && w[0] == ')' && rest == w[1..]
    ensures t == b + (['('] + (shown + ((c + d) + ([')'] + rest))))
  {
    assert w == [')'] + rest;
    assert c + (d + w) == (c + d) + w;
    OpText(t, b, u, '(', shown, (c + d) + w);
  }

  /** What `ParseFactor` does, case by case. */
  lemma FactorCases(t: string)
    requires ParseFactor(t).Ok?
    ensures var u := SkipBlanks(t);
      && u != ""
      && (u[0] == '(' ==>
            && ParseExpr(u[1..]).Ok?
            && var w := SkipBlanks(ParseExpr(u[1..]).rest);
               w != "" && w[0] == ')' && ParseFactor(t) == Ok(ParseExpr(u[1..]).v, w[1..]))
      && (u[0] == '-' ==>
            ParseFactor(u[1..]).Ok? && ParseFactor(t) == Ok(-ParseFactor(u[1..]).v, ParseFactor(u[1..]).rest))
  {
    hide SkipBlanks, Decimal, NumberPrefix;
  }

  lemma NumberTree(t: string, b: string) returns (f: Factor)
    requires Blank(b) && t == b + SkipBlanks(t) && ParseFactor(t).Ok?
    requires SkipBlanks(t) != "" && SkipBlanks(t)[0] != '(' && SkipBlanks(t)[0] != '-'
    ensures GoodFactor(f) && t == ShowFactor(f) + ParseFactor(t).rest
    ensures TreeValue(TreeOfFactor(f)) == Some(ParseFactor(t).v)
  {
    var u := SkipBlanks(t);
    var n := NumberPrefix(u);
    LeadingNumber(u);
    hide SkipBlanks, NumberPrefix, Decimal;
    f := Number(b, u[..n]);
    assert u == u[..n] + u[n..];
  }

  lemma ParenTree(t: string, b: string, e: Expr, c: string) returns (f: Factor)
    requires Blank(b) && t == b + SkipBlanks(t) && ParseFactor(t).Ok?
    requires SkipBlanks(t) != "" && SkipBlanks(t)[0] == '(' && ParseExpr(SkipBlanks(t)[1..]).Ok?
    requires var o := ParseExpr(SkipBlanks(t)[1..]);
      && GoodExpr(e) && Blank(c) && SkipBlanks(t)[1..] == ShowExpr(e) + (c + o.rest)
      && TreeValue(TreeOfExpr(e)) == Some(o.v)
    ensures GoodFactor(f) && t == ShowFactor(f) + ParseFactor(t).rest
    ensures TreeValue(TreeOfFactor(f)) == Some(ParseFactor(t).v)
  {
    FactorCases(t);
    hide *;
    var o := ParseExpr(SkipBlanks(t)[1..]);
    var d := LeadingBlanks(o.rest);
    var rest := ParseFactor(t).rest;
    BlankConcat(c, d);
    ParenFits(b, e, c + d, rest);
    f := Paren(b, e, c + d);
    ParenText(t, b, SkipBlanks(t), ShowExpr(e), c, d, SkipBlanks(o.rest), rest);
  }

  lemma MinusTree(t: string, b: string, g: Factor) returns (f: Factor)
    requires Blank(b) && t == b + SkipBlanks(t) && ParseFactor(t).Ok?
    requires SkipBlanks(t) != "" && SkipBlanks(t)[0] == '-' && ParseFactor(SkipBlanks(t)[1..]).Ok?
    requires var o := ParseFactor(SkipBlanks(t)[1..]);
      && GoodFactor(g) && SkipBlanks(t)[1..] == ShowFactor(g) + o.rest
      && TreeValue(TreeOfFactor(g)) == Some(o.v)
    ensures GoodFactor(f) && t == ShowFactor(f) + ParseFactor(t).rest
    ensures TreeValue(TreeOfFactor(f)) == Some(ParseFactor(t).v)
  {
    FactorCases(t);
    hide *;
    MinusFits(b, g, ParseFactor(t).rest, ParseFactor(SkipBlanks(t)[1..]).v);
    f := Minus(b, g);
    OpText(t, b, SkipBlanks(t), '-', ShowFactor(g), ParseFactor(t).rest);
  }

  lemma {:induction false} FactorTree(t: string) returns (f: Factor)
    requires ParseFactor(t).Ok?
    ensures GoodFactor(f) && t == ShowFactor(f) + ParseFactor(t).rest
    ensures TreeValue(TreeOfFactor(f)) == Some(ParseFactor(t).v)
    decreases |t|, 0
  {
    var b := LeadingBlanks(t);
    FactorCases(t);
    hide *;
    var u := SkipBlanks(t);
    if u[0] == '(' {
      var e, c := ExprTree(u[1..]);
      f := ParenTree(t, b, e, c);
    } else if u[0] == '-' {
      var g := FactorTree(u[1..]);
      f := MinusTree(t, b, g);
    } else {
      f := NumberTree(t, b);
    }
  }

  lemma BlankConcat(a: string, b: string)
    requires Blank(a) && Blank(b)
    ensures Blank(a + b)
  {
  }

  lemma {:induction false} TermLoopTree(acc: Term, t: string, v: real) returns (m: Term, b: string)
    requires GoodTerm(acc) && TreeValue(TreeOfTerm(acc)) == Some(v) && TermLoop(t, v).Ok?
    ensures GoodTerm(m) && Blank(b) && ShowTerm(acc) + t == ShowTerm(m) + (b + TermLoop(t, v).rest)
    ensures TreeValue(TreeOfTerm(m)) == Some(TermLoop(t, v).v)
    decreases |t|, 2
  {
    var c := LeadingBlanks(t);
    TermLoopStep(t, v);
    var u := SkipBlanks(t);
    if u == "" || !IsProduct(u[0]) {
      m, b := acc, c;
    } else {
      var o := ParseFactor(u[1..]);
      var x := Combined(o, u[0], v);
      assert o.Ok? && x.Ok? && x.rest == o.rest && Combine(u[0], v, o.v) == Some(x.v);
      hide *;
      var f := FactorTree(u[1..]);
      ChainFits(acc, c, u[0], f, o.rest, v, o.v);
      OpText(t, c, u, u[0], ShowFactor(f), o.rest);
      m, b := TermLoopTree(Chain(acc, c, u[0], f), o.rest, x.v);
    }
  }

  lemma {:induction false} TermTree(t: string) returns (m: Term, b: string)
    requires ParseTerm(t).Ok?
    ensures GoodTerm(m) && Blank(b) && t == ShowTerm(m) + (b + ParseTerm(t).rest)
    ensures TreeValue(TreeOfTerm(m)) == Some(ParseTerm(t).v)
    decreases |t|, 3
  {
    var f := FactorTree(t);
    m, b := TermLoopTree(Lone(f), ParseFactor(t).rest, ParseFactor(t).v);
  }

  lemma {:induction false} ExprLoopTree(acc: Expr, t: string, v: real) returns (e: Expr, b: string)
    requires GoodExpr(acc) && TreeValue(TreeOfExpr(acc)) == Some(v) && ExprLoop(t, v).Ok?
    ensures GoodExpr(e) && Blank(b) && ShowExpr(acc) + t == ShowExpr(e) + (b + ExprLoop(t, v).rest)
    ensures TreeValue(TreeOfExpr(e)) == Some(ExprLoop(t, v).v)
    decreases |t|, 4
  {
    var c := LeadingBlanks(t);
    ExprLoopStep(t, v);
    var u := SkipBlanks(t);
    if u == "" || !IsSum(u[0]) {
      e, b := acc, c;
    } else {
      var o := ParseTerm(u[1..]);
      hide *;
      var m, d := TermTree(u[1..]);
      MoreFits(acc, c, u[0], m, d + o.rest, v, o.v);
      LoopIgnoresBlanks(d, o.rest, Sum(u[0], v, o.v));
      OpText(t, c, u, u[0], ShowTerm(m), d + o.rest);
      e, b := ExprLoopTree(More(acc, c, u[0], m), d + o.rest, Sum(u[0], v, o.v));
    }
  }

  lemma {:induction false} SkipsAll(d: string, t: string)
    requires Blank(d)
    ensures SkipBlanks(d + t) == SkipBlanks(t)
  {
    if d == "" {
      assert d + t == t;
    } else {
      assert (d + t)[1..] == d[1..] + t;
      SkipsAll(d[1..], t);
    }
  }

  lemma LoopIgnoresBlanks(d: string, t: string, v: real)
    requires Blank(d)
    ensures ExprLoop(d + t, v) == ExprLoop(t, v)
  {
    SkipsAll(d, t);
    hide SkipBlanks, ParseTerm;
  }

  lemma {:induction false} ExprTree(t: string) returns (e: Expr, b: string)
    requires ParseExpr(t).Ok?
    ensures GoodExpr(e) && Blank(b) && t == ShowExpr(e) + (b + ParseExpr(t).rest)
    ensures TreeValue(TreeOfExpr(e)) == Some(ParseExpr(t).v)
    decreases |t|, 5
  {
    var o := ParseTerm(t);
    assert o.Ok? && ParseExpr(t) == ExprLoop(o.rest, o.v);
    var m, d := TermTree(t);
    FirstFits(m);
    hide *;
    LoopIgnoresBlanks(d, o.rest, o.v);
    e, b := ExprLoopTree(First(m), d + o.rest, o.v);
  }

  lemma FirstFits(m: Term)
    ensures GoodExpr(First(m)) <==> GoodTerm(m)
    ensures ShowExpr(First(m)) == ShowTerm(m) && TreeOfExpr(First(m)) == TreeOfTerm(m)
  {
  }

  /** Every accepted text is the writing of a tree, and the answer is that tree's value. */
  lemma AcceptedHasTree(s: string) returns (e: Expr, blanks: string)
    requires Evaluated(s).Ok?
    ensures GoodExpr(e) && Blank(blanks) && s == ShowExpr(e) + blanks
    ensures TreeValue(TreeOfExpr(e)) == Some(Evaluated(s).v)
  {
    e, blanks := ExprTree(s);
    assert blanks + "" == blanks;
  }

  // ---------- Writing a tree with the parentheses it needs ----------

  ghost predicate GoodTree(t: Tree) {
    match t
    case Literal(text) => IsNumber(text)
    case Negated(u) => GoodTree(u)
    case Binary(op, l, r) => (IsSum(op) || IsProduct(op)) && GoodTree(l) && GoodTree(r)
  }

  function WriteExpr(t: Tree): Expr
    decreases t, 2
  {
    if t.Binary? && IsSum(t.op) then More(WriteExpr(t.l), "", t.op, WriteTerm(t.r)) else First(WriteTerm(t))
  }

  /** A sum inside a product needs parentheses. */
  function WriteTerm(t: Tree): Term
    decreases t, 1
  {
    if t.Binary? && IsProduct(t.op) then Chain(WriteTerm(t.l), "", t.op, WriteFactor(t.r)) else Lone(WriteFactor(t))
  }

  /** So does any operation to the right of a product, or under a minus. */
  function WriteFactor(t: Tree): Factor
    decreases t, 0
  {
    match t
    case Literal(text) => Number("", text)
    case Negated(u) => Minus("", WriteFactor(u))
    case Binary(op, l, r) =>
      Paren("", if IsProduct(op) then First(Chain(WriteTerm(l), "", op, WriteFactor(r)))
                else More(WriteExpr(l), "", op, WriteTerm(r)), "")
  }

  /** A tree is written as itself at each of the three levels. */
  ghost predicate Written(t: Tree) {
    && GoodExpr(WriteExpr(t)) && TreeOfExpr(WriteExpr(t)) == t
    && GoodTerm(WriteTerm(t)) && TreeOfTerm(WriteTerm(t)) == t
    && GoodFactor(WriteFactor(t)) && TreeOfFactor(WriteFactor(t)) == t
  }

  lemma {:induction false} WritesTree(t: Tree)
    requires GoodTree(t)
    ensures Written(t)
  {
    match t
    case Literal(text) => WritesSimple(t);
    case Negated(u) =>
      WritesTree(u);
      WritesSimple(t);
    case Binary(op, l, r) =>
      WritesTree(l);
      WritesTree(r);
      if IsSum(op) { WritesSum(op, l, r); } else { WritesProduct(op, l, r); }
  }

  lemma WritesSimple(t: Tree)
    requires GoodTree(t) && !t.Binary? && (t.Negated? ==> Written(t.t))
    ensures Written(t)
  {
    var f := WriteFactor(t);
    assert GoodFactor(f) && TreeOfFactor(f) == t;
    assert WriteTerm(t) == Lone(f) && WriteExpr(t) == First(Lone(f));
    assert GoodTerm(Lone(f)) && TreeOfTerm(Lone(f)) == t;
  }

  lemma WritesSum(op: char, l: Tree, r: Tree)
    requires IsSum(op) && Written(l) && Written(r)
    ensures Written(Binary(op, l, r))
  {
    var t := Binary(op, l, r);
    var e := More(WriteExpr(l), "", op, WriteTerm(r));
    assert GoodExpr(e) && TreeOfExpr(e) == t && WriteExpr(t) == e;
    assert WriteFactor(t) == Paren("", e, "") && WriteTerm(t) == Lone(Paren("", e, ""));
    assert GoodFactor(Paren("", e, "")) && TreeOfFactor(Paren("", e, "")) == t;
  }

  lemma WritesProduct(op: char, l: Tree, r: Tree)
    requires IsProduct(op) && Written(l) && Written(r)
    ensures Written(Binary(op, l, r))
  {
    var t := Binary(op, l, r);
    var m := Chain(WriteTerm(l), "", op, WriteFactor(r));
    assert GoodTerm(m) && TreeOfTerm(m) == t && WriteTerm(t) == m;
    assert GoodExpr(First(m)) && TreeOfExpr(First(m)) == t && WriteExpr(t) == First(m);
    assert WriteFactor(t) == Paren("", First(m), "");
  }

  /** Written with the parentheses that precedence and left associativity require, a tree keeps its value. */
  lemma WrittenTreeKeepsValue(t: Tree)
    requires GoodTree(t)
    ensures Evaluated(ShowExpr(WriteExpr(t))) == match TreeValue(t)
      case None => Fail(DivisionByZero)
      case Some(x) => Ok(x, "")
  {
    WritesTree(t);
    EvaluatesEveryTree(WriteExpr(t), "");
    assert ShowExpr(WriteExpr(t)) + "" == ShowExpr(WriteExpr(t));
  }
}
