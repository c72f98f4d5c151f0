/**
 What the operators of an expression compute, said with Dafny's own arithmetic and by the
 laws that tie them to each other; and how each of them is written in a formula text.
 */
module FormulaMeaning {
  import opened Wrappers
  import opened Text
  import opened FormulaSyntax
  import opened FormulaCompiler

  /** `x op y` as a user writes it. */
  function Of(lib: Library, op: PyOp, x: Expr, y: Expr, row: Row): Value {
    Eval(lib, Bin(op, x, y), row)
  }

  // --- numbers ---

  lemma ArithmeticValues(lib: Library, x: Expr, y: Expr, row: Row, a: real, b: real)
    requires Eval(lib, x, row) == Num(a) && Eval(lib, y, row) == Num(b)
    ensures Of(lib, Add, x, y, row) == Num(a + b)
    ensures Of(lib, Sub, x, y, row) == Num(a - b)
    ensures Of(lib, Mul, x, y, row) == Num(a * b)
    ensures Eval(lib, Neg(x), row) == Num(-a)
  {
  }

  lemma ComparisonValues(lib: Library, x: Expr, y: Expr, row: Row, a: real, b: real)
    requires Eval(lib, x, row) == Num(a) && Eval(lib, y, row) == Num(b)
    ensures Of(lib, PyEq, x, y, row) == Bool(a == b) && Of(lib, PyNe, x, y, row) == Bool(a != b)
    ensures Of(lib, PyLt, x, y, row) == Bool(a < b) && Of(lib, PyLe, x, y, row) == Bool(a <= b)
    ensures Of(lib, PyGt, x, y, row) == Bool(a > b) && Of(lib, PyGe, x, y, row) == Bool(a >= b)
  {
  }

  /** A quotient times the divisor is the dividend; the floor quotient is the integer that
      is at most the quotient and less than one below it; the remainder is what is left of
      the dividend, and has the sign of the divisor.  None of them has a value for zero. */
  lemma DivisionValues(lib: Library, x: Expr, y: Expr, row: Row, a: real, b: real)
    requires Eval(lib, x, row) == Num(a) && Eval(lib, y, row) == Num(b)
    ensures b == 0.0 ==> Of(lib, TrueDiv, x, y, row) == Of(lib, FloorDiv, x, y, row) == Of(lib, Mod, x, y, row) ==
                         Undefined
    ensures b != 0.0 ==>
              var exact, rest := Of(lib, TrueDiv, x, y, row), Of(lib, Mod, x, y, row);
              var floor := Of(lib, FloorDiv, x, y, row);
              exact.Num? && floor.Num? && rest.Num? && Divides(a, b, exact.r, floor.r, rest.r)
  {
    if b != 0.0 {
      QuotientShape(lib, x, y, row, a, b);
      QuotientFacts(a, b);
    }
  }

  predicate Divides(a: real, b: real, exact: real, floor: real, rest: real) {
    && exact * b == a
    && floor == floor.Floor as real && floor <= exact < floor + 1.0
    && a == b * floor + rest
    && (if b > 0.0 then 0.0 <= rest < b else b < rest <= 0.0)
  }

  lemma QuotientShape(lib: Library, x: Expr, y: Expr, row: Row, a: real, b: real)
    requires Eval(lib, x, row) == Num(a) && Eval(lib, y, row) == Num(b) && b != 0.0
    ensures Of(lib, TrueDiv, x, y, row) == Num(a / b)
    ensures Of(lib, FloorDiv, x, y, row) == Num(FloorQuotient(a, b) as real)
    ensures Of(lib, Mod, x, y, row) == Num(a - b * FloorQuotient(a, b) as real)
  {
  }

  lemma QuotientFacts(a: real, b: real)
    requires b != 0.0
    ensures var q := FloorQuotient(a, b) as real; Divides(a, b, a / b, q, a - b * q)
  {
    var q, exact := FloorQuotient(a, b) as real, a / b;
    QuotientTimes(a, b);
    Remainder(a, b, exact, q);
  }

  lemma Remainder(a: real, b: real, exact: real, q: real)
    requires exact * b == a && q <= exact < q + 1.0
    ensures b > 0.0 ==> 0.0 <= a - b * q < b
    ensures b < 0.0 ==> b < a - b * q <= 0.0
  {
    var f := exact - q;
    var rest := b * f;
    SmallMultiple(b, f);
    assert b > 0.0 ==> rest < b;
    assert rest == exact * b - q * b;
    assert rest == a - b * q;
  }

  lemma QuotientTimes(a: real, b: real)
    requires b != 0.0
    ensures a / b * b == a
  {
  }

  /** A part of `b` lies between zero and `b`. */
  lemma SmallMultiple(b: real, f: real)
    requires 0.0 <= f < 1.0
    ensures b > 0.0 ==> 0.0 <= b * f < b
    ensures b < 0.0 ==> b < b * f <= 0.0
  {
    if b > 0.0 {
      assert b * f < b * 1.0;
    } else if b < 0.0 {
      assert (-b) * f < (-b) * 1.0;
    }
  }

  // --- the operators undo and reflect each other ---

  lemma SumLaws(lib: Library, x: Expr, y: Expr, row: Row)
    requires Eval(lib, x, row).Num? && Eval(lib, y, row).Num?
    ensures Of(lib, Add, Bin(Sub, x, y), y, row) == Eval(lib, x, row)
    ensures Of(lib, Add, x, y, row) == Of(lib, Add, y, x, row)
    ensures Of(lib, Add, x, Lit(Int(0)), row) == Eval(lib, x, row)
  {
    var a, b := Eval(lib, x, row).r, Eval(lib, y, row).r;
    assert Of(lib, Sub, x, y, row) == Num(a - b);
    assert Eval(lib, Lit(Int(0)), row) == Num(0.0);
  }

  lemma NegationLaws(lib: Library, x: Expr, y: Expr, row: Row)
    requires Eval(lib, x, row).Num? && Eval(lib, y, row).Num?
    ensures Of(lib, Add, Neg(x), x, row) == Num(0.0)
    ensures Of(lib, Sub, x, y, row) == Of(lib, Add, x, Neg(y), row)
    ensures Eval(lib, Neg(Neg(x)), row) == Eval(lib, x, row)
  {
    var a, b := Eval(lib, x, row).r, Eval(lib, y, row).r;
    assert Eval(lib, Neg(x), row) == Num(-a) && Eval(lib, Neg(y), row) == Num(-b);
  }

  lemma ProductValue(lib: Library, x: Expr, y: Expr, row: Row, a: real, b: real)
    requires Eval(lib, x, row) == Num(a) && Eval(lib, y, row) == Num(b)
    ensures Of(lib, Mul, x, y, row) == Num(a * b)
  {
  }

  /** Dividing and multiplying again gives the number back. */
  lemma QuotientLaw(lib: Library, x: Expr, y: Expr, row: Row)
    requires Eval(lib, x, row).Num? && Eval(lib, y, row).Num? && Eval(lib, y, row) != Num(0.0)
    ensures Of(lib, Mul, Bin(TrueDiv, x, y), y, row) == Eval(lib, x, row)
  {
    var a, b := Eval(lib, x, row).r, Eval(lib, y, row).r;
    var q := TrueQuotient(lib, x, y, row, a, b);
    ProductValue(lib, Bin(TrueDiv, x, y), y, row, q, b);
  }

  lemma TrueQuotient(lib: Library, x: Expr, y: Expr, row: Row, a: real, b: real) returns (q: real)
    requires Eval(lib, x, row) == Num(a) && Eval(lib, y, row) == Num(b) && b != 0.0
    ensures Of(lib, TrueDiv, x, y, row) == Num(q) && q * b == a
  {
    q := a / b;
    QuotientTimes(a, b);
  }

  /** The remainder is what the floor quotient leaves. */
  lemma RemainderLaw(lib: Library, x: Expr, y: Expr, row: Row)
    requires Eval(lib, x, row).Num? && Eval(lib, y, row).Num? && Eval(lib, y, row) != Num(0.0)
    ensures Of(lib, Mod, x, y, row) == Of(lib, Sub, x, Bin(Mul, y, Bin(FloorDiv, x, y)), row)
  {
    var a, b := Eval(lib, x, row).r, Eval(lib, y, row).r;
    var q := FloorAndRest(lib, x, y, row, a, b);
    TakesAway(lib, x, y, Bin(FloorDiv, x, y), row, a, b, q);
  }

  lemma FloorAndRest(lib: Library, x: Expr, y: Expr, row: Row, a: real, b: real) returns (q: real)
    requires Eval(lib, x, row) == Num(a) && Eval(lib, y, row) == Num(b) && b != 0.0
    ensures Of(lib, FloorDiv, x, y, row) == Num(q) && Of(lib, Mod, x, y, row) == Num(a - b * q)
  {
    q := FloorQuotient(a, b) as real;
  }

  lemma TakesAway(lib: Library, x: Expr, y: Expr, z: Expr, row: Row, a: real, b: real, c: real)
    requires Eval(lib, x, row) == Num(a) && Eval(lib, y, row) == Num(b) && Eval(lib, z, row) == Num(c)
    ensures Of(lib, Sub, x, Bin(Mul, y, z), row) == Num(a - b * c)
  {
    ProductValue(lib, y, z, row, b, c);
    DifferenceValue(lib, x, Bin(Mul, y, z), row, a, b * c);
  }

  lemma DifferenceValue(lib: Library, x: Expr, y: Expr, row: Row, a: real, b: real)
    requires Eval(lib, x, row) == Num(a) && Eval(lib, y, row) == Num(b)
    ensures Of(lib, Sub, x, y, row) == Num(a - b)
  {
  }

  /** `x < y` holds exactly when `x - y` is negative; the other comparisons are its
      converse, its negation and the negation of its converse. */
  lemma OrderLaws(lib: Library, x: Expr, y: Expr, row: Row)
    requires Eval(lib, x, row).Num? && Eval(lib, y, row).Num?
    ensures Of(lib, PyLt, x, y, row) == Of(lib, PyLt, Bin(Sub, x, y), Lit(Int(0)), row)
    ensures Of(lib, Sub, x, y, row).Num? && Of(lib, PyLt, x, y, row) == Bool(Of(lib, Sub, x, y, row).r < 0.0)
    ensures Of(lib, PyGt, x, y, row) == Of(lib, PyLt, y, x, row)
    ensures Of(lib, PyLe, x, y, row) == Bool(Of(lib, PyGt, x, y, row) != Bool(true))
    ensures Of(lib, PyGe, x, y, row) == Bool(Of(lib, PyLt, x, y, row) != Bool(true))
    ensures Of(lib, PyEq, x, y, row) == Bool(Eval(lib, x, row) == Eval(lib, y, row))
    ensures Of(lib, PyNe, x, y, row) == Bool(Eval(lib, x, row) != Eval(lib, y, row))
  {
    var a, b := Eval(lib, x, row).r, Eval(lib, y, row).r;
    ComparisonValues(lib, x, y, row, a, b);
    ComparisonValues(lib, y, x, row, b, a);
    DifferenceValue(lib, x, y, row, a, b);
    ComparisonValues(lib, Bin(Sub, x, y), Lit(Int(0)), row, a - b, 0.0);
  }

  // --- null, truth values and strings ---

  /** An operator other than `&`, `|` and `**` has null for a null operand. */
  lemma NullOperand(lib: Library, op: PyOp, x: Expr, y: Expr, row: Row)
    requires !op.BitAnd? && !op.BitOr? && !op.Pow?
    requires Eval(lib, x, row).Null? || Eval(lib, y, row).Null?
    requires !Eval(lib, x, row).Undefined? && !Eval(lib, y, row).Undefined?
    ensures Of(lib, op, x, y, row) == Null
  {
  }

  /** `&` and `|` are the Kleene connectives: the result is a truth value exactly when every
      choice for the unknown operands gives it. */
  lemma ThreeValued(lib: Library, x: Expr, y: Expr, row: Row, b: bool)
    requires Truthy(Eval(lib, x, row)) && Truthy(Eval(lib, y, row))
    ensures Of(lib, BitAnd, x, y, row) == Bool(b) <==> SurelyBoth(Eval(lib, x, row), Eval(lib, y, row), b)
    ensures Of(lib, BitOr, x, y, row) == Bool(b) <==> SurelyEither(Eval(lib, x, row), Eval(lib, y, row), b)
    ensures Truthy(Of(lib, BitAnd, x, y, row)) && Truthy(Of(lib, BitOr, x, y, row))
  {
    BothKnown(Eval(lib, x, row), Eval(lib, y, row), b);
    OneKnown(Eval(lib, x, row), Eval(lib, y, row), b);
  }

  lemma BothKnown(u: Value, v: Value, b: bool)
    requires Truthy(u) && Truthy(v)
    ensures Logic(BitAnd, u, v) == Bool(b) <==> SurelyBoth(u, v, b)
  {
    Choices(u);
    Choices(v);
  }

  lemma OneKnown(u: Value, v: Value, b: bool)
    requires Truthy(u) && Truthy(v)
    ensures Logic(BitOr, u, v) == Bool(b) <==> SurelyEither(u, v, b)
  {
    Choices(u);
    Choices(v);
  }

  lemma Choices(v: Value)
    requires Truthy(v)
    ensures May(v, true) <==> v == Bool(true) || v == Null
    ensures May(v, false) <==> v == Bool(false) || v == Null
  {
  }

  predicate Truthy(v: Value) {
    v.Null? || v.Bool?
  }

  ghost predicate SurelyBoth(u: Value, v: Value, b: bool) {
    forall p, q :: May(u, p) && May(v, q) ==> (p && q) == b
  }

  ghost predicate SurelyEither(u: Value, v: Value, b: bool) {
    forall p, q :: May(u, p) && May(v, q) ==> (p || q) == b
  }

  /** The truth values that `v` may stand for. */
  predicate May(v: Value, p: bool) {
    v == Bool(p) || v.Null?
  }

  /** `+` joins strings. */
  lemma JoinValue(lib: Library, x: Expr, y: Expr, row: Row, s: string, t: string)
    requires Eval(lib, x, row) == Str(s) && Eval(lib, y, row) == Str(t)
    ensures Of(lib, Add, x, y, row) == Str(s + t)
  {
  }

  /** Strings, and truth values, are equal if they are the same. */
  lemma EqualityValue(lib: Library, x: Expr, y: Expr, row: Row)
    requires var u, v := Eval(lib, x, row), Eval(lib, y, row); (u.Str? && v.Str?) || (u.Bool? && v.Bool?)
    ensures Of(lib, PyEq, x, y, row) == Bool(Eval(lib, x, row) == Eval(lib, y, row))
    ensures Of(lib, PyNe, x, y, row) == Bool(Eval(lib, x, row) != Eval(lib, y, row))
  {
  }

  /** Tests for null are exact opposites, filling null leaves nothing else changed, and a
      floor is the integer at or below. */
  lemma MethodValues(lib: Library, x: Expr, y: Expr, row: Row)
    ensures Eval(lib, Apply(IsEmpty, x), row) == Bool(Eval(lib, x, row) == Null)
    ensures Eval(lib, Apply(IsNotEmpty, x), row) == Bool(Eval(lib, x, row) != Null)
    ensures Eval(lib, Apply2(Coalesce, x, y), row) ==
            if Eval(lib, x, row) == Null then Eval(lib, y, row) else Eval(lib, x, row)
    ensures Eval(lib, x, row).Num? ==>
              var floor := Eval(lib, Apply(Floor, x), row);
              floor.Num? && floor.r == floor.r.Floor as real && floor.r <= Eval(lib, x, row).r < floor.r + 1.0
  {
    if Eval(lib, x, row).Num? {
      var whole := Eval(lib, x, row).r.Floor;
      assert (whole as real).Floor == whole;
    }
  }

  /** A column has the value of its cell, a literal its own, and an alias changes nothing. */
  lemma LeafValues(lib: Library, x: Expr, name: string, n: int, s: string, b: bool, row: Row)
    ensures name in row ==> Eval(lib, Col(name), row) == row[name]
    ensures Eval(lib, Lit(Int(n)), row) == Num(n as real) && Eval(lib, Lit(Chars(s)), row) == Str(s)
    ensures Eval(lib, Lit(Flag(b)), row) == Bool(b) && Eval(lib, Lit(NoLiteral), row) == Null
    ensures Eval(lib, Alias(x, name), row) == Eval(lib, x, row)
  {
  }

  /** Every other function gets its operand. */
  lemma UnaryValue(lib: Library, f: Func, x: Expr, row: Row)
    requires !f.IsEmpty? && !f.IsNotEmpty? && !f.Floor?
    ensures Eval(lib, Apply(f, x), row) == lib.one(f, Eval(lib, x, row))
  {
  }

  /** With two of them, in the order they are written. */
  lemma BinaryValue(lib: Library, f: Func, x: Expr, y: Expr, row: Row)
    requires !f.Coalesce?
    ensures Eval(lib, Apply2(f, x, y), row) == lib.two(f, Eval(lib, x, row), Eval(lib, y, row))
    ensures Of(lib, Pow, x, y, row) == lib.two(Power, Eval(lib, x, row), Eval(lib, y, row))
  {
  }

  // --- how an operator is written ---

  /** A column is written in brackets, a string in quotes, with a backslash before a quote
      or a backslash. */
  lemma LeafTexts(name: string, s: string, rest: Text)
    ensures Print(Column(name), rest) == Put("[" + name + "]", rest)
    ensures Print(Quoted(s), rest) == Put("\"" + Escape(s) + "\"", rest)
    ensures Print(Truth(true), rest) == Put("true", rest) && Print(Truth(false), rest) == Put("false", rest)
    ensures Escape("\"") == "\\\"" && Escape("\\") == "\\\\"
    ensures forall c :: c != '"' && c != '\\' ==> Escape([c]) == [c]
  {
    Enclosed('[', name, ']', rest);
    Enclosed('"', Escape(s), '"', rest);
    EscapeCons("\"");
    EscapeCons("\\");
    forall c | c != '"' && c != '\\' ensures Escape([c]) == [c] { EscapeCons([c]); }
  }

  lemma Enclosed(left: char, s: string, right: char, rest: Text)
    ensures Put([left] + s + [right], rest) == T(left, Put(s, T(right, rest)))
  {
    assert [left] + s + [right] == [left] + (s + [right]);
    assert ([left] + (s + [right]))[1..] == s + [right];
    PutConcat(s, [right], rest);
    assert [right][1..] == "";
  }


  /** Two formulas with a sign between them, in parentheses. */
  function Between(x: Formula, sign: string, y: Formula, rest: Text): Text {
    T('(', Print(x, Put(sign, Print(y, T(')', rest)))))
  }

  lemma SpacedSign(sign: string, rest: Text)
    ensures Put(" " + sign + " ", rest) == T(' ', Put(sign, T(' ', rest)))
  {
    PutConcat(" " + sign, " ", rest);
    PutConcat(" ", sign, Put(" ", rest));
    assert " "[1..] == "";
  }

  lemma SignBetween(op: PyOp, sign: string, x: Expr, y: Expr, rest: Text)
    requires Compile(x).Some? && Compile(y).Some?
    requires SymbolFor(op).Some? && SymbolText(SymbolFor(op).value) == sign
    ensures Prints(op, sign, x, y, rest)
  {
    SpacedSign(sign, Print(Compile(y).value, T(')', rest)));
  }

  /** The arithmetic operators print their sign. */
  lemma ArithmeticTexts(x: Expr, y: Expr, rest: Text)
    requires Compile(x).Some? && Compile(y).Some?
    ensures Prints(Add, "+", x, y, rest) && Prints(Sub, "-", x, y, rest) && Prints(Mul, "*", x, y, rest)
    ensures Prints(TrueDiv, "/", x, y, rest) && Prints(Mod, "%", x, y, rest)
  {
    SignBetween(Add, "+", x, y, rest);
    SignBetween(Sub, "-", x, y, rest);
    SignBetween(Mul, "*", x, y, rest);
    SignBetween(TrueDiv, "/", x, y, rest);
    SignBetween(Mod, "%", x, y, rest);
  }

  /** So do the comparisons. */
  lemma OrderTexts(x: Expr, y: Expr, rest: Text)
    requires Compile(x).Some? && Compile(y).Some?
    ensures Prints(PyLt, "<", x, y, rest) && Prints(PyLe, "<=", x, y, rest)
    ensures Prints(PyGt, ">", x, y, rest) && Prints(PyGe, ">=", x, y, rest)
  {
    SignBetween(PyLt, "<", x, y, rest);
    SignBetween(PyLe, "<=", x, y, rest);
    SignBetween(PyGt, ">", x, y, rest);
    SignBetween(PyGe, ">=", x, y, rest);
  }

  /** `&` and `|` print words. */
  lemma TruthTexts(x: Expr, y: Expr, rest: Text)
    requires Compile(x).Some? && Compile(y).Some?
    ensures Prints(PyEq, "==", x, y, rest) && Prints(PyNe, "!=", x, y, rest)
    ensures Prints(BitAnd, "and", x, y, rest) && Prints(BitOr, "or", x, y, rest)
  {
    SignBetween(PyEq, "==", x, y, rest);
    SignBetween(PyNe, "!=", x, y, rest);
    SignBetween(BitAnd, "and", x, y, rest);
    SignBetween(BitOr, "or", x, y, rest);
  }

  predicate Prints(op: PyOp, sign: string, x: Expr, y: Expr, rest: Text)
    requires Compile(x).Some? && Compile(y).Some?
  {
    Compile(Bin(op, x, y)).Some? &&
    Print(Compile(Bin(op, x, y)).value, rest) == Between(Compile(x).value, " " + sign + " ", Compile(y).value, rest)
  }

  /** `//` prints the floor of a quotient. */
  lemma FloorDivText(x: Expr, y: Expr, rest: Text)
    requires Compile(x).Some? && Compile(y).Some?
    ensures Compile(Bin(FloorDiv, x, y)).Some?
    ensures Print(Compile(Bin(FloorDiv, x, y)).value, rest) ==
            Put("floor" + "(", Between(Compile(x).value, " / ", Compile(y).value, T(')', rest)))
  {
    var quotient := Infix(Over, Compile(x).value, Compile(y).value);
    CallPrints(Floor, quotient, quotient, rest);
    SignBetween(TrueDiv, "/", x, y, T(')', rest));
    assert " " + "/" + " " == " / ";
  }

  /** `**` prints a call. */
  lemma PowerText(x: Expr, y: Expr, rest: Text)
    requires Compile(x).Some? && Compile(y).Some?
    ensures Compile(Bin(Pow, x, y)).Some?
    ensures Print(Compile(Bin(Pow, x, y)).value, rest) ==
            Put("power" + "(", Print(Compile(x).value, Put(", ", Print(Compile(y).value, T(')', rest)))))
  {
    CallPrints(Power, Compile(x).value, Compile(y).value, rest);
  }

  lemma Opens(word: string, rest: Text)
    ensures Put(word + "(", rest) == Put(word, T('(', rest))
  {
    PutConcat(word, "(", rest);
    assert "("[1..] == "";
  }

  lemma Comma(rest: Text)
    ensures Put(", ", rest) == T(',', T(' ', rest))
  {
    assert ", "[1..] == " " && " "[1..] == "";
    assert Put(" ", rest) == T(' ', rest);
  }

  /** A call prints the name of its function and its arguments in parentheses. */
  lemma CallPrints(f: Func, x: Formula, y: Formula, rest: Text)
    ensures Print(Call(f, Last(x)), rest) == Put(FuncText(f) + "(", Print(x, T(')', rest)))
    ensures Print(Call(f, More(x, Last(y))), rest) ==
            Put(FuncText(f) + "(", Print(x, Put(", ", Print(y, T(')', rest)))))
  {
    Opens(FuncText(f), Print(x, T(')', rest)));
    Opens(FuncText(f), Print(x, Put(", ", Print(y, T(')', rest)))));
    Comma(Print(y, T(')', rest)));
    assert PrintArgs(Last(y), T(')', rest)) == Print(y, T(')', rest));
  }

  lemma FunctionNames()
    ensures FuncText(Floor) == "floor" && FuncText(Ceil) == "ceil" && FuncText(Abs) == "abs"
    ensures FuncText(Round) == "round" && FuncText(Power) == "power" && FuncText(Coalesce) == "coalesce"
    ensures FuncText(IsEmpty) == "is_empty" && FuncText(IsNotEmpty) == "is_not_empty"
    ensures FuncText(Uppercase) == "uppercase" && FuncText(Lowercase) == "lowercase"
    ensures FuncText(Titlecase) == "titlecase" && FuncText(Len) == "length"
    ensures FuncText(StartsWith) == "starts_with" && FuncText(EndsWith) == "ends_with"
    ensures FuncText(LeftTrim) == "left_trim" && FuncText(RightTrim) == "right_trim"
  {
  }

  // --- what the text computes ---

  /** The value of an expression as its formula text gives it. */
  function TextValue(lib: Library, e: Expr, row: Row): Option<Value> {
    if Compile(e).Some? then EvalText(lib, Print(Compile(e).value, End), row) else None
  }

  predicate Written(e: Expr) {
    Expressible(e) && forall name :: name in Reads(e) ==> ']' !in name
  }

  lemma TextIsMeant(lib: Library, op: PyOp, x: Expr, y: Expr, row: Row)
    requires Written(x) && Written(y)
    ensures TextValue(lib, Bin(op, x, y), row) == Some(Of(lib, op, x, y, row))
  {
    CompilesIff(Bin(op, x, y));
    FormulaTextMeansExpression(lib, Bin(op, x, y), row);
  }

  /** The text of a sum, difference, product or comparison, read back and evaluated, gives
      the sum, difference, product or comparison of the numbers. */
  lemma TextComputes(lib: Library, x: Expr, y: Expr, row: Row, a: real, b: real)
    requires Written(x) && Written(y) && Eval(lib, x, row) == Num(a) && Eval(lib, y, row) == Num(b)
    ensures TextValue(lib, Bin(Add, x, y), row) == Some(Num(a + b))
    ensures TextValue(lib, Bin(Sub, x, y), row) == Some(Num(a - b))
    ensures TextValue(lib, Bin(Mul, x, y), row) == Some(Num(a * b))
    ensures b != 0.0 ==> TextValue(lib, Bin(TrueDiv, x, y), row) == Some(Num(a / b))
    ensures TextValue(lib, Bin(PyLt, x, y), row) == Some(Bool(a < b))
    ensures TextValue(lib, Bin(PyLe, x, y), row) == Some(Bool(a <= b))
    ensures TextValue(lib, Bin(PyEq, x, y), row) == Some(Bool(a == b))
  {
    ArithmeticValues(lib, x, y, row, a, b);
    ComparisonValues(lib, x, y, row, a, b);
    if b != 0.0 { QuotientShape(lib, x, y, row, a, b); }
    TextIsMeant(lib, Add, x, y, row);
    TextIsMeant(lib, Sub, x, y, row);
    TextIsMeant(lib, Mul, x, y, row);
    TextIsMeant(lib, TrueDiv, x, y, row);
    TextIsMeant(lib, PyLt, x, y, row);
    TextIsMeant(lib, PyLe, x, y, row);
    TextIsMeant(lib, PyEq, x, y, row);
  }
}
