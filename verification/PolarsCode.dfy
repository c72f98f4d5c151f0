/**
 The Polars code text of a FlowFrame expression (`_repr_str` in expr.py): what Python
 reads when it evaluates the text, for every expression, and exactly which
 expressions are read back as they were meant.
 */
module PolarsCode {
  import opened Wrappers
  import opened PythonSyntax

  /** An expression as built by the operators of `Expr`.  `Leaf` is anything whose text
      is one Python primary (`pl.col('a')`, `pl.lit(1)`, a string argument); `Num` is a
      plain Python number used as an operand, an argument or a reversed left operand. */
  datatype Expr =
    | Leaf(text: string)
    | Num(value: int)
    | Bin(op: BinOp, l: Expr, r: Expr)
    | Neg(e: Expr)
    | Inv(e: Expr)
    | Method(recv: Expr, name: string, args: Exprs)

  datatype Exprs = NoArgs | Arg(head: Expr, tail: Exprs)

  /** The tree that the expression denotes. */
  function Meaning(e: Expr): Tree {
    match e
    case Leaf(text) => Atom(text)
    case Num(n) => if n < 0 then Unary(Minus, Number(-n)) else Number(n)
    case Bin(op, l, r) => Binary(op, Meaning(l), Meaning(r))
    case Neg(x) => Unary(Minus, Meaning(x))
    case Inv(x) => Unary(Invert, Meaning(x))
    case Method(recv, name, args) => Call(Meaning(recv), name, Meanings(args))
  }

  function Meanings(es: Exprs): Trees {
    match es
    case NoArgs => Nil
    case Arg(head, tail) => Cons(Meaning(head), Meanings(tail))
  }

  // --- the printer ---

  /** The generated text of `e`, in front of `rest`: a binary operation is parenthesised
      as a whole, a negation not at all, an inversion only inside. */
  function Print(e: Expr, rest: Tokens): Tokens {
    match e
    case Leaf(text) => T(Word(text), rest)
    case Num(n) => if n < 0 then T(Op(Sub), T(Digits(-n), rest)) else T(Digits(n), rest)
    case Bin(op, l, r) => T(LParen, Print(l, T(Op(op), Print(r, T(RParen, rest)))))
    case Neg(x) => T(Op(Sub), Print(x, rest))
    case Inv(x) => T(Tilde, T(LParen, Print(x, T(RParen, rest))))
    case Method(recv, name, args) => Print(recv, T(Attr(name), T(LParen, PrintArgs(args, T(RParen, rest)))))
  }

  function PrintArgs(es: Exprs, rest: Tokens): Tokens {
    match es
    case NoArgs => rest
    case Arg(head, NoArgs) => Print(head, rest)
    case Arg(head, tail) => Print(head, T(Comma, PrintArgs(tail, rest)))
  }

  function Text(e: Expr): Tokens {
    Print(e, End)
  }

  // --- what the text says ---

  /** The leading unary operators of the text, and the primary that follows them. */
  function SignsOf(e: Expr): Signs {
    match e
    case Num(n) => if n < 0 then Sign(Minus, NoSign) else NoSign
    case Neg(x) => Sign(Minus, SignsOf(x))
    case Inv(_) => Sign(Invert, NoSign)
    case Method(recv, _, _) => SignsOf(recv)
    case _ => NoSign
  }

  function Core(e: Expr, rest: Tokens): Tokens {
    match e
    case Leaf(text) => T(Word(text), rest)
    case Num(n) => T(Digits(if n < 0 then -n else n), rest)
    case Bin(op, l, r) => T(LParen, Print(l, T(Op(op), Print(r, T(RParen, rest)))))
    case Neg(x) => Core(x, rest)
    case Inv(x) => T(LParen, Print(x, T(RParen, rest)))
    case Method(recv, name, args) => Core(recv, T(Attr(name), T(LParen, PrintArgs(args, T(RParen, rest)))))
  }

  /** The tree of that primary as Python reads it. */
  function CoreTree(e: Expr): Tree
    decreases e, 0
  {
    match e
    case Leaf(text) => Atom(text)
    case Num(n) => Number(if n < 0 then -n else n)
    case Bin(op, l, r) =>
      // `-x ** y` is `-(x ** y)`: the signs of the base end up outside
      Paren(if op.Pow? then Wrap(SignsOf(l), Binary(Pow, CoreTree(l), Read(r))) else Binary(op, Read(l), Read(r)))
    case Neg(x) => CoreTree(x)
    case Inv(x) => Paren(Read(x))
    case Method(recv, name, args) => Call(CoreTree(recv), name, ReadArgs(args))
  }

  function Read(e: Expr): Tree
    decreases e, 1
  {
    Wrap(SignsOf(e), CoreTree(e))
  }

  function ReadArgs(es: Exprs): Trees
    decreases es, 2
  {
    match es
    case NoArgs => Nil
    case Arg(head, tail) => Cons(Read(head), ReadArgs(tail))
  }

  lemma {:induction false} PrintIsSignsAndCore(e: Expr, rest: Tokens)
    ensures Print(e, rest) == SignText(SignsOf(e), Core(e, rest)) && StartsPrimary(Core(e, rest))
  {
    match e
    case Neg(x) => PrintIsSignsAndCore(x, rest);
    case Method(recv, name, args) =>
      PrintIsSignsAndCore(recv, T(Attr(name), T(LParen, PrintArgs(args, T(RParen, rest)))));
    case _ =>
  }

  lemma {:induction false} CoreIsPrimary(e: Expr, rest: Tokens)
    ensures ParsePrimary(Core(e, rest)) == ParseTrailers(CoreTree(e), rest)
    decreases e, 0, 1
  {
    match e
    case Leaf(_) =>
    case Num(_) =>
    case Neg(x) => CoreIsPrimary(x, rest);
    case Inv(x) => TextIsExpression(x, T(RParen, rest));
    case Bin(op, l, r) => GroupedOperation(op, l, r, T(RParen, rest));
    case Method(recv, name, args) =>
      CoreIsPrimary(recv, T(Attr(name), T(LParen, PrintArgs(args, T(RParen, rest)))));
      ArgsText(args, rest);
  }

  /** The text of an operand that nothing binds to more tightly. */
  lemma {:induction false} TextIsUnary(e: Expr, rest: Tokens)
    requires rest.T? ==> !rest.head.Attr? && rest.head != Op(Pow)
    ensures ParseUnary(Print(e, rest)) == Ok(Read(e), rest)
    decreases e, 1, 0
  {
    PrintIsSignsAndCore(e, rest);
    CoreIsPrimary(e, rest);
    SignsThenPrimary(SignsOf(e), Core(e, rest));
  }

  lemma {:induction false} TextIsExpression(e: Expr, rest: Tokens)
    requires Ends(rest)
    ensures ParseLevel(1, Print(e, rest)) == Ok(Read(e), rest)
    decreases e, 2, 0
  {
    TextIsUnary(e, rest);
    LevelFromUnary(1, Print(e, rest));
  }

  lemma {:induction false} GroupedOperation(op: BinOp, l: Expr, r: Expr, rest: Tokens)
    requires Ends(rest)
    ensures ParseLevel(1, Print(l, T(Op(op), Print(r, rest)))) == Ok(CoreTree(Bin(op, l, r)).inner, rest)
    decreases Bin(op, l, r), 0, 0
  {
    TextIsUnary(r, rest);
    var ts := Print(l, T(Op(op), Print(r, rest)));
    if op.Pow? {
      PrintIsSignsAndCore(l, T(Op(op), Print(r, rest)));
      CoreIsPrimary(l, T(Op(op), Print(r, rest)));
      SignsThenPrimary(SignsOf(l), Core(l, T(Op(op), Print(r, rest))));
      LevelFromUnary(1, ts);
    } else {
      TextIsUnary(l, T(Op(op), Print(r, rest)));
      BinaryText(ts, op, Print(r, rest), rest, Read(l), Read(r));
    }
  }

  lemma {:induction false} ArgsText(es: Exprs, rest: Tokens)
    ensures ParseArgs(PrintArgs(es, T(RParen, rest))) == Ok(ReadArgs(es), rest)
    decreases es, 3, 0
  {
    if es.Arg? {
      var after := if es.tail.NoArgs? then T(RParen, rest) else T(Comma, PrintArgs(es.tail, T(RParen, rest)));
      PrintIsSignsAndCore(es.head, after);
      ArgListText(es, rest);
    }
  }

  lemma {:induction false} ArgListText(es: Exprs, rest: Tokens)
    requires es.Arg?
    ensures ParseArgList(PrintArgs(es, T(RParen, rest))) == Ok(ReadArgs(es), rest)
    decreases es, 2, 0
  {
    if es.tail.NoArgs? {
      TextIsExpression(es.head, T(RParen, rest));
    } else {
      TextIsExpression(es.head, T(Comma, PrintArgs(es.tail, T(RParen, rest))));
      ArgListText(es.tail, rest);
    }
  }

  /** Every generated text is one Python expression, and `Read` is what it says. */
  lemma PrintedTextReads(e: Expr)
    ensures Parse(Text(e)) == Ok(Read(e), End)
  {
    TextIsExpression(e, End);
  }

  // --- which texts say what was meant ---

  /** Printed with a leading unary operator. */
  predicate Signed(e: Expr) {
    e.Neg? || e.Inv? || (e.Num? && e.value < 0)
  }

  /** No negation, inversion or negative number receives a method call or is the base of
      a power. */
  predicate Faithful(e: Expr) {
    match e
    case Leaf(_) => true
    case Num(_) => true
    case Neg(x) => Faithful(x)
    case Inv(x) => Faithful(x)
    case Bin(op, l, r) => Faithful(l) && Faithful(r) && (op.Pow? ==> !Signed(l))
    case Method(recv, _, args) => Faithful(recv) && !Signed(recv) && FaithfulArgs(args)
  }

  predicate FaithfulArgs(es: Exprs) {
    match es
    case NoArgs => true
    case Arg(head, tail) => Faithful(head) && FaithfulArgs(tail)
  }

  /** A text says what was meant if and only if it is faithful: the exact reach of the
      missing parentheses. */
  lemma {:induction false} ReadsAsMeantIff(e: Expr)
    ensures Erase(Read(e)) == Meaning(e) <==> Faithful(e)
    ensures Faithful(e) ==> (SignsOf(e).Sign? <==> Signed(e))
  {
    match e
    case Leaf(_) =>
    case Num(_) => WrapSign(Minus, NoSign, CoreTree(e));
    case Neg(x) => ReadsAsMeantIff(x);
    case Inv(x) =>
      ReadsAsMeantIff(x);
      WrapSign(Invert, NoSign, CoreTree(e));
    case Bin(op, l, r) =>
      ReadsAsMeantIff(l);
      ReadsAsMeantIff(r);
    case Method(recv, name, args) =>
      ReadsAsMeantIff(recv);
      ArgsReadAsMeantIff(args);
  }

  lemma {:induction false} ArgsReadAsMeantIff(es: Exprs)
    ensures EraseAll(ReadArgs(es)) == Meanings(es) <==> FaithfulArgs(es)
  {
    if es.Arg? {
      ReadsAsMeantIff(es.head);
      ArgsReadAsMeantIff(es.tail);
    }
  }

  /** Round trip: printing and parsing gives the expression back exactly for the
      faithful expressions. */
  lemma RoundTripIff(e: Expr)
    ensures Parse(Text(e)).Ok?
    ensures Erase(Parse(Text(e)).tree) == Meaning(e) <==> Faithful(e)
  {
    PrintedTextReads(e);
    ReadsAsMeantIff(e);
  }

  // --- what a text computes ---

  /** Any interpretation of the operators, such as Polars'. */
  datatype Algebra<!V> = Algebra(
    leaf: string -> V, number: int -> V, binary: (BinOp, V, V) -> V, negate: V -> V, invert: V -> V,
    call: (V, string, seq<V>) -> V)

  /** A negative number is a negated one. */
  ghost predicate Lawful<V(!new)>(a: Algebra<V>) {
    forall n: int :: 0 <= n ==> a.negate(a.number(n)) == a.number(-n)
  }

  /** The value of an expression as it was built. */
  function Value<V>(a: Algebra<V>, e: Expr): V {
    match e
    case Leaf(text) => a.leaf(text)
    case Num(n) => a.number(n)
    case Bin(op, l, r) => a.binary(op, Value(a, l), Value(a, r))
    case Neg(x) => a.negate(Value(a, x))
    case Inv(x) => a.invert(Value(a, x))
    case Method(recv, name, args) => a.call(Value(a, recv), name, Values(a, args))
  }

  function Values<V>(a: Algebra<V>, es: Exprs): seq<V> {
    match es
    case NoArgs => []
    case Arg(head, tail) => [Value(a, head)] + Values(a, tail)
  }

  /** The value of a Python expression. */
  function TreeValue<V>(a: Algebra<V>, t: Tree): V {
    match t
    case Atom(text) => a.leaf(text)
    case Number(n) => a.number(n)
    case Paren(inner) => TreeValue(a, inner)
    case Unary(Minus, arg) => a.negate(TreeValue(a, arg))
    case Unary(Invert, arg) => a.invert(TreeValue(a, arg))
    case Binary(op, l, r) => a.binary(op, TreeValue(a, l), TreeValue(a, r))
    case Call(recv, name, args) => a.call(TreeValue(a, recv), name, TreeValues(a, args))
  }

  function TreeValues<V>(a: Algebra<V>, ts: Trees): seq<V> {
    match ts
    case Nil => []
    case Cons(head, tail) => [TreeValue(a, head)] + TreeValues(a, tail)
  }

  lemma {:induction false} EraseKeepsValue<V>(a: Algebra<V>, t: Tree)
    ensures TreeValue(a, Erase(t)) == TreeValue(a, t)
  {
    match t
    case Paren(inner) => EraseKeepsValue(a, inner);
    case Unary(_, arg) => EraseKeepsValue(a, arg);
    case Binary(_, l, r) =>
      EraseKeepsValue(a, l);
      EraseKeepsValue(a, r);
    case Call(recv, _, args) =>
      EraseKeepsValue(a, recv);
      EraseAllKeepsValues(a, args);
    case _ =>
  }

  lemma {:induction false} EraseAllKeepsValues<V>(a: Algebra<V>, ts: Trees)
    ensures TreeValues(a, EraseAll(ts)) == TreeValues(a, ts)
  {
    if ts.Cons? {
      EraseKeepsValue(a, ts.head);
      EraseAllKeepsValues(a, ts.tail);
    }
  }

  lemma {:induction false} MeaningHasValue<V(!new)>(a: Algebra<V>, e: Expr)
    requires Lawful(a)
    ensures TreeValue(a, Meaning(e)) == Value(a, e)
  {
    match e
    case Leaf(_) =>
    case Num(n) => if n < 0 { assert a.negate(a.number(-n)) == a.number(n); }
    case Bin(_, l, r) =>
      MeaningHasValue(a, l);
      MeaningHasValue(a, r);
    case Neg(x) => MeaningHasValue(a, x);
    case Inv(x) => MeaningHasValue(a, x);
    case Method(recv, _, args) =>
      MeaningHasValue(a, recv);
      MeaningsHaveValues(a, args);
  }

  lemma {:induction false} MeaningsHaveValues<V(!new)>(a: Algebra<V>, es: Exprs)
    requires Lawful(a)
    ensures TreeValues(a, Meanings(es)) == Values(a, es)
  {
    if es.Arg? {
      MeaningHasValue(a, es.head);
      MeaningsHaveValues(a, es.tail);
    }
  }

  /** The text of a faithful expression, evaluated by Python, has the value of the
      expression in every interpretation of the operators. */
  lemma FaithfulTextValue<V(!new)>(a: Algebra<V>, e: Expr)
    requires Lawful(a) && Faithful(e)
    ensures Parse(Text(e)).Ok? && TreeValue(a, Parse(Text(e)).tree) == Value(a, e)
  {
    RoundTripIff(e);
    EraseKeepsValue(a, Parse(Text(e)).tree);
    MeaningHasValue(a, e);
  }

  /** `(-x).name(args)` is read as `-(x.name(args))`, for every x. */
  lemma NegatedReceiver(x: Expr, name: string, args: Exprs)
    ensures Parse(Text(Method(Neg(x), name, args))) == Ok(Unary(Minus, Read(Method(x, name, args))), End)
  {
    PrintedTextReads(Method(Neg(x), name, args));
    assert SignsOf(Method(Neg(x), name, args)) == SignsOf(Neg(x)) == Sign(Minus, SignsOf(x));
    assert CoreTree(Method(Neg(x), name, args)) == Call(CoreTree(Neg(x)), name, ReadArgs(args));
    assert CoreTree(Neg(x)) == CoreTree(x) && SignsOf(Method(x, name, args)) == SignsOf(x);
    WrapSign(Minus, SignsOf(x), CoreTree(Method(x, name, args)));
  }

  /** `(-x) ** y` is read as `-(x ** y)`, for every x and y. */
  lemma NegatedBase(x: Expr, y: Expr)
    ensures Parse(Text(Bin(Pow, Neg(x), y))).Ok?
    ensures var t := Parse(Text(Bin(Pow, Neg(x), y))).tree;
            t == Paren(Unary(Minus, Wrap(SignsOf(x), Binary(Pow, CoreTree(x), Read(y)))))
  {
    PrintedTextReads(Bin(Pow, Neg(x), y));
    assert SignsOf(Neg(x)) == Sign(Minus, SignsOf(x)) && CoreTree(Neg(x)) == CoreTree(x);
    WrapSign(Minus, SignsOf(x), Binary(Pow, CoreTree(x), Read(y)));
  }

  // --- selectors.py ---

  datatype SetOp = Union | Intersection | Difference | SymmetricDifference

  /** A column selector; `Basic` is one whose text is a call such as `pl.selectors.numeric()`. */
  datatype Selector =
    | Basic(text: string)
    | Compound(op: SetOp, l: Selector, r: Selector)
    | Complement(s: Selector)

  function Symbol(op: SetOp): BinOp {
    match op
    case Union => BitOr
    case Intersection => BitAnd
    case Difference => Sub
    case SymmetricDifference => BitXor
  }

  function SelectorMeaning(s: Selector): Tree {
    match s
    case Basic(text) => Atom(text)
    case Compound(op, l, r) => Binary(Symbol(op), SelectorMeaning(l), SelectorMeaning(r))
    case Complement(x) => Unary(Invert, SelectorMeaning(x))
  }

  /** A compound selector is parenthesised by the selector around it, not by itself. */
  function PrintSelector(s: Selector, rest: Tokens): Tokens
    decreases s, 0
  {
    match s
    case Basic(text) => T(Word(text), rest)
    case Compound(op, l, r) => PrintPart(l, T(Op(Symbol(op)), PrintPart(r, rest)))
    case Complement(x) => T(Tilde, PrintPart(x, rest))
  }

  function PrintPart(s: Selector, rest: Tokens): Tokens
    decreases s, 1
  {
    if s.Compound? then T(LParen, PrintSelector(s, T(RParen, rest))) else PrintSelector(s, rest)
  }

  function ReadSelector(s: Selector): Tree
    decreases s, 0
  {
    match s
    case Basic(text) => Atom(text)
    case Compound(op, l, r) => Binary(Symbol(op), ReadPart(l), ReadPart(r))
    case Complement(x) => Unary(Invert, ReadPart(x))
  }

  function ReadPart(s: Selector): Tree
    decreases s, 1
  {
    if s.Compound? then Paren(ReadSelector(s)) else ReadSelector(s)
  }

  lemma {:induction false} SelectorText(s: Selector, rest: Tokens)
    requires Ends(rest)
    ensures ParseLevel(1, PrintSelector(s, rest)) == Ok(ReadSelector(s), rest)
    decreases s, 0
  {
    match s
    case Compound(op, l, r) =>
      PartText(r, rest);
      PartText(l, T(Op(Symbol(op)), PrintPart(r, rest)));
      BinaryText(PrintSelector(s, rest), Symbol(op), PrintPart(r, rest), rest, ReadPart(l), ReadPart(r));
    case Basic(text) =>
      WordText(text, rest);
      LevelFromUnary(1, PrintSelector(s, rest));
    case Complement(x) =>
      PartText(x, rest);
      LevelFromUnary(1, PrintSelector(s, rest));
  }

  lemma {:induction false} PartText(s: Selector, rest: Tokens)
    requires rest.T? ==> !rest.head.Attr? && rest.head != Op(Pow)
    ensures ParseUnary(PrintPart(s, rest)) == Ok(ReadPart(s), rest)
    decreases s, 1
  {
    match s
    case Basic(text) => WordText(text, rest);
    case Compound(_, _, _) =>
      SelectorText(s, T(RParen, rest));
      GroupText(PrintSelector(s, T(RParen, rest)), ReadSelector(s), rest);
    case Complement(x) => PartText(x, rest);
  }

  lemma {:induction false} SelectorReadsAsMeant(s: Selector)
    ensures Erase(ReadSelector(s)) == Erase(ReadPart(s)) == SelectorMeaning(s)
  {
    match s
    case Basic(_) =>
    case Compound(_, l, r) =>
      SelectorReadsAsMeant(l);
      SelectorReadsAsMeant(r);
    case Complement(x) =>
      SelectorReadsAsMeant(x);
  }

  /** Selector texts round-trip unconditionally. */
  lemma SelectorRoundTrip(s: Selector)
    ensures Parse(PrintSelector(s, End)).Ok?
    ensures Erase(Parse(PrintSelector(s, End)).tree) == SelectorMeaning(s)
  {
    SelectorText(s, End);
    SelectorReadsAsMeant(s);
  }

  // --- which columns a selector selects ---

  /** The columns that a selector stands for, among `all`; `basic` says it of the texts of
      basic selectors. */
  function Selected(s: Selector, basic: string -> set<string>, all: set<string>): set<string> {
    match s
    case Basic(text) => basic(text)
    case Compound(Union, l, r) => Selected(l, basic, all) + Selected(r, basic, all)
    case Compound(Intersection, l, r) => Selected(l, basic, all) * Selected(r, basic, all)
    case Compound(Difference, l, r) => Selected(l, basic, all) - Selected(r, basic, all)
    case Compound(SymmetricDifference, l, r) =>
      set c | c in Selected(l, basic, all) + Selected(r, basic, all) &&
              ((c in Selected(l, basic, all)) != (c in Selected(r, basic, all)))
    case Complement(x) => all - Selected(x, basic, all)
  }

  /** The columns that Polars selects for a Python expression over selectors: its operators
      are `|`, `&`, `-`, `^` and `~`, and no other makes a selector. */
  function Selects(t: Tree, basic: string -> set<string>, all: set<string>): Option<set<string>> {
    match t
    case Atom(text) => Some(basic(text))
    case Paren(inner) => Selects(inner, basic, all)
    case Unary(Invert, arg) =>
      if Selects(arg, basic, all).None? then None else Some(all - Selects(arg, basic, all).value)
    case Binary(op, l, r) =>
      var x, y := Selects(l, basic, all), Selects(r, basic, all);
      if x.None? || y.None? then None
      else
        (match op
         case BitOr => Some(x.value + y.value)
         case BitAnd => Some(x.value * y.value)
         case Sub => Some(x.value - y.value)
         case BitXor => Some((x.value - y.value) + (y.value - x.value))
         case _ => None)
    case _ => None
  }

  lemma {:induction false} ReadSelects(s: Selector, basic: string -> set<string>, all: set<string>)
    ensures Selects(ReadSelector(s), basic, all) == Selects(ReadPart(s), basic, all) == Some(Selected(s, basic, all))
  {
    match s
    case Basic(_) =>
    case Compound(op, l, r) =>
      ReadSelects(l, basic, all);
      ReadSelects(r, basic, all);
      var x, y := Selected(l, basic, all), Selected(r, basic, all);
      assert op.SymmetricDifference? ==> Selected(s, basic, all) == (x - y) + (y - x);
    case Complement(x) => ReadSelects(x, basic, all);
  }

  /** The text of a selector, as Python reads it, selects exactly the columns that the
      selector stands for: the union, intersection, difference, symmetric difference or
      complement that was asked for. */
  lemma SelectorTextSelects(s: Selector, basic: string -> set<string>, all: set<string>)
    ensures Parse(PrintSelector(s, End)).Ok?
    ensures Selects(Parse(PrintSelector(s, End)).tree, basic, all) == Some(Selected(s, basic, all))
  {
    SelectorText(s, End);
    ReadSelects(s, basic, all);
  }

  /** `Expr` with a selector and an aggregation: `selector.sum()`, without parentheses. */
  function PrintAggregate(s: Selector, agg: string): Tokens {
    PrintSelector(s, T(Attr(agg), T(LParen, T(RParen, End))))
  }

  function AggregateMeaning(s: Selector, agg: string): Tree {
    Call(SelectorMeaning(s), agg, Nil)
  }

  /** Aggregating a selector says what was meant only for a basic one: with any other the
      call goes to its last part. */
  lemma AggregateReadsAsMeantIff(s: Selector, agg: string)
    ensures Parse(PrintAggregate(s, agg)).Ok?
    ensures Erase(Parse(PrintAggregate(s, agg)).tree) == AggregateMeaning(s, agg) <==> s.Basic?
  {
    var call := T(Attr(agg), T(LParen, T(RParen, End)));
    match s
    case Basic(text) =>
      CalledPart(s, agg);
      LevelFromUnary(1, PrintAggregate(s, agg));
    case Complement(x) =>
      CalledPart(s, agg);
      LevelFromUnary(1, PrintAggregate(s, agg));
    case Compound(op, l, r) =>
      CalledPart(r, agg);
      PartText(l, T(Op(Symbol(op)), PrintPart(r, call)));
      BinaryText(PrintAggregate(s, agg), Symbol(op), PrintPart(r, call), End,
        ReadPart(l), ParseUnary(PrintPart(r, call)).tree);
  }

  lemma {:induction false} CalledPart(s: Selector, agg: string)
    ensures var r := ParseUnary(PrintPart(s, T(Attr(agg), T(LParen, T(RParen, End)))));
            r.Ok? && r.rest == End &&
            match s
            case Basic(text) => r.tree == Call(Atom(text), agg, Nil)
            case Compound(_, _, _) => r.tree == Call(ReadPart(s), agg, Nil)
            case Complement(_) => r.tree.Unary?
  {
    var call := T(Attr(agg), T(LParen, T(RParen, End)));
    match s
    case Basic(text) =>
      CallText(Atom(text), agg);
      WordText(text, call);
    case Compound(_, _, _) =>
      SelectorText(s, T(RParen, call));
      CallText(ReadPart(s), agg);
      GroupText(PrintSelector(s, T(RParen, call)), ReadSelector(s), call);
    case Complement(x) =>
      CalledPart(x, agg);
  }
}
