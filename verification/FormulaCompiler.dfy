/**
 The second text an expression carries: `_ff_repr`, a formula, when one exists.  The
 formula text, read back, has the value of the expression on every row.

 Arithmetic is exact.  An operation without an exact value (a division by zero, mixed
 types) gives Undefined on both sides.
 */
module FormulaCompiler {
  import opened Wrappers
  import opened Text
  import opened FormulaSyntax

  datatype Value = Null | Num(r: real) | Bool(b: bool) | Str(s: string) | Undefined

  type Row = map<string, Value>

  datatype PyOp =
    | Add | Sub | Mul | TrueDiv | FloorDiv | Pow | Mod
    | PyEq | PyNe | PyLt | PyGt | PyLe | PyGe | BitAnd | BitOr

  datatype Literal = Int(n: int) | Chars(s: string) | Flag(b: bool) | NoLiteral

  /** What a user builds.  The two operands of `Bin` may come from either the direct or
      the reflected operator; a plain Python value is a `Lit`.  `Opaque` is any method
      without a formula counterpart. */
  datatype Expr =
    | Col(name: string)
    | Lit(value: Literal)
    | Bin(op: PyOp, l: Expr, r: Expr)
    | Apply(f: Func, e: Expr)
    | Apply2(f: Func, e: Expr, arg: Expr)
    | Alias(e: Expr, name: string)
    | Neg(e: Expr)
    | Inv(e: Expr)
    | Opaque(e: Expr, call: string)

  /** Polars functions that a formula can also name, and those it cannot. */
  datatype Library = Library(one: (Func, Value) -> Value, two: (Func, Value, Value) -> Value, other: (string,
      Value) -> Value)

  // --- the value of an expression ---

  function LiteralValue(v: Literal): Value {
    match v
    case Int(n) => Num(n as real)
    case Chars(s) => Str(s)
    case Flag(b) => Bool(b)
    case NoLiteral => Null
  }

  /** `//`: the integer below the exact quotient. */
  function FloorQuotient(a: real, b: real): (q: int)
    requires b != 0.0
    ensures q as real <= a / b < q as real + 1.0
  {
    (a / b).Floor
  }

  function Arithmetic(op: PyOp, a: real, b: real): Value {
    match op
    case Add => Num(a + b)
    case Sub => Num(a - b)
    case Mul => Num(a * b)
    case TrueDiv => if b == 0.0 then Undefined else Num(a / b)
    case FloorDiv => if b == 0.0 then Undefined else Num(FloorQuotient(a, b) as real)
    case Mod => if b == 0.0 then Undefined else Num(a - b * FloorQuotient(a, b) as real)
    case PyEq => Bool(a == b)
    case PyNe => Bool(a != b)
    case PyLt => Bool(a < b)
    case PyGt => Bool(a > b)
    case PyLe => Bool(a <= b)
    case PyGe => Bool(a >= b)
    case _ => Undefined
  }

  /** Three-valued and/or: null stands for an unknown truth value. */
  function Logic(op: PyOp, x: Value, y: Value): Value {
    if !(x.Null? || x.Bool?) || !(y.Null? || y.Bool?) then Undefined
    else if op.BitAnd? then
      if x == Bool(false) || y == Bool(false) then Bool(false)
      else if x.Null? || y.Null? then Null else Bool(true)
    else
      if x == Bool(true) || y == Bool(true) then Bool(true)
      else if x.Null? || y.Null? then Null else Bool(false)
  }

  function Operate(lib: Library, op: PyOp, x: Value, y: Value): Value {
    if op.Pow? then lib.two(Power, x, y)
    else if op.BitAnd? || op.BitOr? then Logic(op, x, y)
    else if x.Undefined? || y.Undefined? then Undefined
    else if x.Null? || y.Null? then Null
    else if x.Num? && y.Num? then Arithmetic(op, x.r, y.r)
    else if x.Str? && y.Str? then
      (match op
       case Add => Str(x.s + y.s)
       case PyEq => Bool(x.s == y.s)
       case PyNe => Bool(x.s != y.s)
       case _ => Undefined)
    else if x.Bool? && y.Bool? && (op.PyEq? || op.PyNe?) then Bool((x.b == y.b) == op.PyEq?)
    else Undefined
  }

  function Unary(lib: Library, f: Func, x: Value): Value {
    match f
    case IsEmpty => Bool(x.Null?)
    case IsNotEmpty => Bool(!x.Null?)
    case Floor => if x.Num? then Num(x.r.Floor as real) else if x.Null? then Null else Undefined
    case _ => lib.one(f, x)
  }

  function Binary(lib: Library, f: Func, x: Value, y: Value): Value {
    if f.Coalesce? then if x.Null? then y else x
    else lib.two(f, x, y)
  }

  function Lookup(row: Row, name: string): Value {
    if name in row then row[name] else Undefined
  }

  function Eval(lib: Library, e: Expr, row: Row): Value {
    match e
    case Col(name) => Lookup(row, name)
    case Lit(v) => LiteralValue(v)
    case Bin(op, l, r) => Operate(lib, op, Eval(lib, l, row), Eval(lib, r, row))
    case Apply(f, x) => Unary(lib, f, Eval(lib, x, row))
    case Apply2(f, x, arg) => Binary(lib, f, Eval(lib, x, row), Eval(lib, arg, row))
    case Alias(x, _) => Eval(lib, x, row)
    case Neg(x) => Operate(lib, Sub, Num(0.0), Eval(lib, x, row))
    case Inv(x) => lib.other("not", Eval(lib, x, row))
    case Opaque(x, m) => lib.other(m, Eval(lib, x, row))
  }

  /** The columns an expression reads. */
  function Reads(e: Expr): set<string> {
    match e
    case Col(name) => {name}
    case Lit(_) => {}
    case Bin(_, l, r) => Reads(l) + Reads(r)
    case Apply(_, x) => Reads(x)
    case Apply2(_, x, arg) => Reads(x) + Reads(arg)
    case Alias(x, _) => Reads(x)
    case Neg(x) => Reads(x)
    case Inv(x) => Reads(x)
    case Opaque(x, _) => Reads(x)
  }

  // --- the value of a formula ---

  function PyOpOf(op: Symbol): PyOp {
    match op
    case Plus => Add case Minus => Sub case Times => Mul case Over => TrueDiv case Modulo => Mod
    case Eq => PyEq case Ne => PyNe case Lt => PyLt case Gt => PyGt case Le => PyLe case Ge => PyGe
    case And => BitAnd case Or => BitOr
  }

  function EvalFormula(lib: Library, f: Formula, row: Row): Value {
    match f
    case Column(name) => Lookup(row, name)
    case Number(n) => Num(n as real)
    case Quoted(s) => Str(s)
    case Truth(b) => Bool(b)
    case Infix(op, l, r) => Operate(lib, PyOpOf(op), EvalFormula(lib, l, row), EvalFormula(lib, r, row))
    case Call(func, Last(x)) => Unary(lib, func, EvalFormula(lib, x, row))
    case Call(func, More(x, Last(y))) => Binary(lib, func, EvalFormula(lib, x, row), EvalFormula(lib, y, row))
    case Call(_, _) => Undefined
  }

  /** What the formula node computes from its text. */
  function EvalText(lib: Library, text: Text, row: Row): Option<Value> {
    match ParseFormula(text)
    case Fail => None
    case Ok(f, _) => Some(EvalFormula(lib, f, row))
  }

  // --- the compiler ---

  /** FF_OPERATOR_MAP. */
  function SymbolFor(op: PyOp): Option<Symbol> {
    match op
    case Add => Some(Plus) case Sub => Some(Minus) case Mul => Some(Times) case TrueDiv => Some(Over)
    case Mod => Some(Modulo) case PyEq => Some(Eq) case PyNe => Some(Ne) case PyLt => Some(Lt) case PyGt => Some(Gt)
    case PyLe => Some(Le) case PyGe => Some(Ge) case BitAnd => Some(And) case BitOr => Some(Or)
    case FloorDiv => None case Pow => None
  }

  function Combine(op: PyOp, x: Formula, y: Formula): Formula {
    if op.FloorDiv? then Call(Floor, Last(Infix(Over, x, y)))
    else if op.Pow? then Call(Power, More(x, Last(y)))
    else Infix(SymbolFor(op).value, x, y)
  }

  /** `//` becomes the floor of a quotient and `**` a call, with the same value. */
  lemma CombineKeepsValue(lib: Library, op: PyOp, x: Formula, y: Formula, row: Row)
    ensures EvalFormula(lib, Combine(op, x, y), row) ==
            Operate(lib, op, EvalFormula(lib, x, row), EvalFormula(lib, y, row))
    ensures NamesOk(Combine(op, x, y)) <==> NamesOk(x) && NamesOk(y)
  {
    if op.FloorDiv? {
      var quotient := Infix(Over, x, y);
      assert EvalFormula(lib, quotient, row) ==
             Operate(lib, TrueDiv, EvalFormula(lib, x, row), EvalFormula(lib, y, row));
      assert NamesOkAll(Last(quotient)) <==> NamesOk(quotient);
    } else if op.Pow? {
      assert NamesOkAll(More(x, Last(y))) <==> NamesOk(x) && NamesOk(y);
    }
  }

  function Compile(e: Expr): Option<Formula> {
    match e
    case Col(name) => Some(Column(name))
    case Lit(Int(n)) => Some(Number(n))
    case Lit(Chars(s)) => Some(Quoted(s))
    case Lit(Flag(b)) => Some(Truth(b))
    case Lit(NoLiteral) => None
    case Bin(op, l, r) =>
      var x, y := Compile(l), Compile(r);
      if x.None? || y.None? then None
      else Some(Combine(op, x.value, y.value))
    case Apply(f, x) =>
      if Compile(x).None? then None else Some(Call(f, Last(Compile(x).value)))
    case Apply2(f, x, arg) =>
      if Compile(x).None? || Compile(arg).None? then None
      else Some(Call(f, More(Compile(x).value, Last(Compile(arg).value))))
    case Alias(x, _) => Compile(x)
    case Neg(_) => None
    case Inv(_) => None
    case Opaque(_, _) => None
  }

  /** Compilation keeps the value, on every row. */
  lemma {:induction false} CompileKeepsValue(lib: Library, e: Expr, row: Row)
    requires Compile(e).Some?
    ensures EvalFormula(lib, Compile(e).value, row) == Eval(lib, e, row)
  {
    match e
    case Bin(op, l, r) =>
      CompileKeepsValue(lib, l, row);
      CompileKeepsValue(lib, r, row);
      CombineKeepsValue(lib, op, Compile(l).value, Compile(r).value, row);
    case Apply(_, x) => CompileKeepsValue(lib, x, row);
    case Apply2(f, x, arg) =>
      CompileKeepsValue(lib, x, row);
      CompileKeepsValue(lib, arg, row);
    case Alias(x, _) => CompileKeepsValue(lib, x, row);
    case _ =>
  }

  lemma {:induction false} CompileKeepsNames(lib: Library, e: Expr)
    requires Compile(e).Some?
    ensures NamesOk(Compile(e).value) <==> forall name :: name in Reads(e) ==> ']' !in name
  {
    match e
    case Bin(op, l, r) =>
      CompileKeepsNames(lib, l);
      CompileKeepsNames(lib, r);
      CombineKeepsValue(lib, op, Compile(l).value, Compile(r).value, map[]);
    case Apply(_, x) => CompileKeepsNames(lib, x);
    case Apply2(f, x, arg) =>
      CompileKeepsNames(lib, x);
      CompileKeepsNames(lib, arg);
      var y := Compile(arg).value;
      assert NamesOkAll(More(Compile(x).value, Last(y))) <==> NamesOk(Compile(x).value) && NamesOk(y);
    case Alias(x, _) => CompileKeepsNames(lib, x);
    case _ =>
  }

  /** Whenever there is a formula text, and the columns read have no closing bracket in
      their names, the text evaluates on every row to the value of the expression. */
  lemma FormulaTextMeansExpression(lib: Library, e: Expr, row: Row)
    requires Compile(e).Some? && forall name :: name in Reads(e) ==> ']' !in name
    ensures EvalText(lib, Print(Compile(e).value, End), row) == Some(Eval(lib, e, row))
  {
    CompileKeepsNames(lib, e);
    CompileKeepsValue(lib, e, row);
    FormulaRoundTripIff(Compile(e).value);
  }

  /** There is a formula exactly when nothing in the expression lacks a counterpart. */
  lemma {:induction false} CompilesIff(e: Expr)
    ensures Compile(e).Some? <==> Expressible(e)
  {
    match e
    case Bin(_, l, r) =>
      CompilesIff(l);
      CompilesIff(r);
    case Apply(_, x) => CompilesIff(x);
    case Apply2(_, x, arg) =>
      CompilesIff(x);
      CompilesIff(arg);
    case Alias(x, _) => CompilesIff(x);
    case _ =>
  }

  predicate Expressible(e: Expr) {
    match e
    case Col(_) => true
    case Lit(v) => !v.NoLiteral?
    case Bin(_, l, r) => Expressible(l) && Expressible(r)
    case Apply(_, x) => Expressible(x)
    case Apply2(_, x, arg) => Expressible(x) && Expressible(arg)
    case Alias(x, _) => Expressible(x)
    case _ => false
  }

  /** An expression depends only on the columns it reads. */
  lemma {:induction false} EvalReadsOnly(lib: Library, e: Expr, row: Row, row': Row)
    requires forall name :: name in Reads(e) ==> Lookup(row, name) == Lookup(row', name)
    ensures Eval(lib, e, row) == Eval(lib, e, row')
  {
    match e
    case Bin(_, l, r) =>
      EvalReadsOnly(lib, l, row, row');
      EvalReadsOnly(lib, r, row, row');
    case Apply(_, x) => EvalReadsOnly(lib, x, row, row');
    case Apply2(_, x, arg) =>
      EvalReadsOnly(lib, x, row, row');
      EvalReadsOnly(lib, arg, row, row');
    case Alias(x, _) => EvalReadsOnly(lib, x, row, row');
    case Neg(x) => EvalReadsOnly(lib, x, row, row');
    case Inv(x) => EvalReadsOnly(lib, x, row, row');
    case Opaque(x, _) => EvalReadsOnly(lib, x, row, row');
    case _ =>
  }
}
