/**
 The part of Python's expression grammar that generated Polars code is made of, with
 the operator precedences of section 6.17 of the Python Language Reference, as a
 recursive-descent parser over token lists.
 */
module PythonSyntax {

  datatype BinOp =
    | Eq | Ne | Lt | Gt | Le | Ge
    | BitOr | BitXor | BitAnd
    | Add | Sub
    | Mul | Div | FloorDiv | Mod
    | Pow

  datatype UnOp = Minus | Invert

  /** An atom is a whole token here: `pl.col('a')`, a string, `True`. */
  datatype Token =
    | Word(text: string)
    | Digits(n: nat)
    | Attr(name: string)   // a dot and a name
    | Op(op: BinOp)
    | Tilde
    | LParen
    | RParen
    | Comma

  datatype Tokens = End | T(head: Token, tail: Tokens)

  function Length(ts: Tokens): nat {
    match ts
    case End => 0
    case T(_, tail) => 1 + Length(tail)
  }

  datatype Tree =
    | Atom(text: string)
    | Number(n: nat)
    | Paren(inner: Tree)
    | Unary(uop: UnOp, arg: Tree)
    | Binary(bop: BinOp, left: Tree, right: Tree)
    | Call(recv: Tree, name: string, args: Trees)

  datatype Trees = Nil | Cons(head: Tree, tail: Trees)

  datatype Parsed<+T> = Fail | Ok(tree: T, rest: Tokens)

  /** 1 comparisons, 2 `|`, 3 `^`, 4 `&`, 5 sums, 6 products, 7 unary operators;
      `**` binds tighter than a unary operator on its left. */
  function Level(op: BinOp): nat {
    match op
    case Eq | Ne | Lt | Gt | Le | Ge => 1
    case BitOr => 2
    case BitXor => 3
    case BitAnd => 4
    case Add | Sub => 5
    case Mul | Div | FloorDiv | Mod => 6
    case Pow => 8
  }

  predicate AtLevel(ts: Tokens, k: nat) {
    ts.T? && ts.head.Op? && Level(ts.head.op) == k
  }

  function ParseLevel(k: nat, ts: Tokens): (r: Parsed<Tree>)
    requires 1 <= k <= 7
    ensures r.Ok? ==> Length(r.rest) < Length(ts)
    decreases Length(ts), 20 - k
  {
    if k == 7 then ParseUnary(ts)
    else
      match ParseLevel(k + 1, ts)
      case Fail => Fail
      case Ok(t, rest) => ParseMore(k, t, rest)
  }

  /** Left-associative operators of level `k`; comparisons do not associate. */
  function ParseMore(k: nat, left: Tree, ts: Tokens): (r: Parsed<Tree>)
    requires 1 <= k < 7
    ensures r.Ok? ==> Length(r.rest) <= Length(ts)
    decreases Length(ts), 30
  {
    if !AtLevel(ts, k) then Ok(left, ts)
    else
      match ParseLevel(k + 1, ts.tail)
      case Fail => Fail
      case Ok(right, rest) =>
        if k == 1 && AtLevel(rest, 1) then Fail else ParseMore(k, Binary(ts.head.op, left, right), rest)
  }

  function ParseUnary(ts: Tokens): (r: Parsed<Tree>)
    ensures r.Ok? ==> Length(r.rest) < Length(ts)
    decreases Length(ts), 10
  {
    if ts.End? then Fail
    else if ts.head == Op(Sub) then Signed(Minus, ParseUnary(ts.tail))
    else if ts.head == Tilde then Signed(Invert, ParseUnary(ts.tail))
    else
      match ParsePrimary(ts)
      case Fail => Fail
      case Ok(base, rest) => ParsePower(base, rest)
  }

  function Signed(op: UnOp, r: Parsed<Tree>): Parsed<Tree> {
    match r
    case Fail => Fail
    case Ok(t, rest) => Ok(Unary(op, t), rest)
  }

  function ParsePower(base: Tree, ts: Tokens): (r: Parsed<Tree>)
    ensures r.Ok? ==> Length(r.rest) <= Length(ts)
    decreases Length(ts), 30
  {
    if ts.End? || ts.head != Op(Pow) then Ok(base, ts)
    else
      match ParseUnary(ts.tail)
      case Fail => Fail
      case Ok(exponent, rest) => Ok(Binary(Pow, base, exponent), rest)
  }

  function ParsePrimary(ts: Tokens): (r: Parsed<Tree>)
    ensures r.Ok? ==> Length(r.rest) < Length(ts)
    decreases Length(ts), 9
  {
    match ParseAtom(ts)
    case Fail => Fail
    case Ok(t, rest) => ParseTrailers(t, rest)
  }

  function ParseAtom(ts: Tokens): (r: Parsed<Tree>)
    ensures r.Ok? ==> Length(r.rest) < Length(ts)
    decreases Length(ts), 8
  {
    if ts.End? then Fail
    else
      match ts.head
      case Word(text) => Ok(Atom(text), ts.tail)
      case Digits(n) => Ok(Number(n), ts.tail)
      case LParen =>
        (match ParseLevel(1, ts.tail)
         case Fail => Fail
         case Ok(t, rest) => if rest.T? && rest.head == RParen then Ok(Paren(t), rest.tail) else Fail)
      case _ => Fail
  }

  /** Method calls: `.name(args)`, any number of them. */
  function ParseTrailers(t: Tree, ts: Tokens): (r: Parsed<Tree>)
    ensures r.Ok? ==> Length(r.rest) <= Length(ts)
    decreases Length(ts), 30
  {
    if ts.End? || !ts.head.Attr? then Ok(t, ts)
    else if ts.tail.End? || ts.tail.head != LParen then Fail
    else
      assert Length(ts) == 2 + Length(ts.tail.tail);
      match ParseArgs(ts.tail.tail)
      case Fail => Fail
      case Ok(args, rest) => ParseTrailers(Call(t, ts.head.name, args), rest)
  }

  /** The arguments and the closing parenthesis. */
  function ParseArgs(ts: Tokens): (r: Parsed<Trees>)
    ensures r.Ok? ==> Length(r.rest) < Length(ts)
    decreases Length(ts), 31
  {
    if ts.End? then Fail
    else if ts.head == RParen then Ok(Nil, ts.tail)
    else ParseArgList(ts)
  }

  function ParseArgList(ts: Tokens): (r: Parsed<Trees>)
    ensures r.Ok? ==> Length(r.rest) < Length(ts)
    decreases Length(ts), 30
  {
    match ParseLevel(1, ts)
    case Fail => Fail
    case Ok(t, rest) =>
      if rest.End? then Fail
      else if rest.head == RParen then Ok(Cons(t, Nil), rest.tail)
      else if rest.head == Comma then
        match ParseArgList(rest.tail)
        case Fail => Fail
        case Ok(tail, rest') => Ok(Cons(t, tail), rest')
      else Fail
  }

  /** The syntax tree of a whole text; Fail if the text is not one expression. */
  function Parse(ts: Tokens): Parsed<Tree> {
    match ParseLevel(1, ts)
    case Fail => Fail
    case Ok(t, rest) => if rest.End? then Ok(t, End) else Fail
  }

  /** Parentheses only group. */
  function Erase(t: Tree): Tree {
    match t
    case Atom(_) => t
    case Number(_) => t
    case Paren(inner) => Erase(inner)
    case Unary(op, arg) => Unary(op, Erase(arg))
    case Binary(op, l, r) => Binary(op, Erase(l), Erase(r))
    case Call(recv, name, args) => Call(Erase(recv), name, EraseAll(args))
  }

  function EraseAll(ts: Trees): Trees {
    match ts
    case Nil => Nil
    case Cons(head, tail) => Cons(Erase(head), EraseAll(tail))
  }

  // --- parsing a text that is a unary expression, followed by something ---

  datatype Signs = NoSign | Sign(op: UnOp, more: Signs)

  function Wrap(signs: Signs, t: Tree): Tree {
    match signs
    case NoSign => t
    case Sign(op, more) => Unary(op, Wrap(more, t))
  }

  lemma WrapSign(op: UnOp, more: Signs, t: Tree)
    ensures Wrap(Sign(op, more), t) == Unary(op, Wrap(more, t))
    ensures more == NoSign ==> Wrap(Sign(op, more), t) == Unary(op, t)
  {
  }

  /** The signs as text, in front of `rest`. */
  function SignText(signs: Signs, rest: Tokens): Tokens {
    match signs
    case NoSign => rest
    case Sign(op, more) => T(if op.Minus? then Op(Sub) else Tilde, SignText(more, rest))
  }

  predicate StartsPrimary(ts: Tokens) {
    ts.T? && (ts.head.Word? || ts.head.Digits? || ts.head.LParen?)
  }

  /** The end of a text, of a group or of an argument. */
  predicate Ends(ts: Tokens) {
    ts.End? || ts.head.RParen? || ts.head.Comma?
  }

  /** The text after a complete operand of level `k` and tighter. */
  predicate StopsAt(ts: Tokens, k: nat) {
    Ends(ts) || (ts.head.Op? && Level(ts.head.op) < k)
  }

  /** Signs go around the power expression that follows them. */
  lemma {:induction false} SignsThenPrimary(signs: Signs, core: Tokens)
    requires StartsPrimary(core)
    ensures ParseUnary(SignText(signs, core)) ==
            match ParsePrimary(core)
            case Fail => Fail
            case Ok(base, rest) =>
              (match ParsePower(base, rest)
               case Fail => Fail
               case Ok(t, rest') => Ok(Wrap(signs, t), rest'))
  {
    if signs.Sign? { SignsThenPrimary(signs.more, core); }
  }

  lemma WordText(text: string, rest: Tokens)
    ensures ParsePrimary(T(Word(text), rest)) == ParseTrailers(Atom(text), rest)
    ensures ParseTrailers(Atom(text), rest).Ok? ==>
              ParseUnary(T(Word(text), rest)) ==
              ParsePower(ParseTrailers(Atom(text), rest).tree, ParseTrailers(Atom(text), rest).rest)
  {
    assert ParseAtom(T(Word(text), rest)) == Ok(Atom(text), rest);
  }

  lemma GroupText(inner: Tokens, t: Tree, rest: Tokens)
    requires ParseLevel(1, inner) == Ok(t, T(RParen, rest))
    ensures ParsePrimary(T(LParen, inner)) == ParseTrailers(Paren(t), rest)
    ensures ParseTrailers(Paren(t), rest).Ok? ==>
              ParseUnary(T(LParen, inner)) ==
              ParsePower(ParseTrailers(Paren(t), rest).tree, ParseTrailers(Paren(t), rest).rest)
  {
    assert ParseAtom(T(LParen, inner)) == Ok(Paren(t), rest);
  }

  lemma CallText(t: Tree, name: string)
    ensures ParseTrailers(t, T(Attr(name), T(LParen, T(RParen, End)))) == Ok(Call(t, name, Nil), End)
  {
    var trailing := T(RParen, End);
    assert ParseArgs(trailing) == Ok(Nil, End);
    assert ParseTrailers(Call(t, name, Nil), End) == Ok(Call(t, name, Nil), End);
  }

  /** A unary expression is an expression of every looser level, if nothing continues it. */
  lemma {:induction false} LevelFromUnary(k: nat, ts: Tokens)
    requires 1 <= k <= 7 && ParseUnary(ts).Ok? && StopsAt(ParseUnary(ts).rest, k)
    ensures ParseLevel(k, ts) == ParseUnary(ts)
    decreases 7 - k
  {
    if k < 7 { LevelFromUnary(k + 1, ts); }
  }

  lemma {:induction false} LevelFromTighter(k: nat, m: nat, ts: Tokens)
    requires 1 <= k <= m <= 7 && ParseLevel(m, ts).Ok? && StopsAt(ParseLevel(m, ts).rest, k)
    ensures ParseLevel(k, ts) == ParseLevel(m, ts)
    decreases m - k
  {
    if k < m { LevelFromTighter(k + 1, m, ts); }
  }

  /** One operator between two unary expressions, followed by nothing or a looser operator. */
  lemma TightBinary(k: nat, ts: Tokens, op: BinOp, right: Tokens, rest: Tokens, l: Tree, r: Tree)
    requires op != Pow && 1 <= k <= Level(op) && StopsAt(rest, k)
    requires ParseUnary(ts) == Ok(l, T(Op(op), right)) && ParseUnary(right) == Ok(r, rest)
    ensures ParseLevel(k, ts) == Ok(Binary(op, l, r), rest)
  {
    var m := Level(op);
    LevelFromUnary(m + 1, ts);
    LevelFromUnary(m + 1, right);
    assert ParseMore(m, Binary(op, l, r), rest) == Ok(Binary(op, l, r), rest);
    assert ParseMore(m, l, T(Op(op), right)) == Ok(Binary(op, l, r), rest);
    LevelFromTighter(k, m, ts);
  }

  /** The same at the end of a group. */
  lemma BinaryText(ts: Tokens, op: BinOp, right: Tokens, rest: Tokens, l: Tree, r: Tree)
    requires op != Pow && Ends(rest)
    requires ParseUnary(ts) == Ok(l, T(Op(op), right)) && ParseUnary(right) == Ok(r, rest)
    ensures ParseLevel(1, ts) == Ok(Binary(op, l, r), rest)
  {
    TightBinary(1, ts, op, right, rest, l, r);
  }

  // --- the precedences, operator by operator ---

  predicate IsProduct(op: BinOp) {
    op.Mul? || op.Div? || op.FloorDiv? || op.Mod?
  }

  predicate IsArithmetic(op: BinOp) {
    op.Add? || op.Sub? || IsProduct(op)
  }

  /** `q` binds its operands more tightly than `p`. */
  predicate Binds(q: BinOp, p: BinOp) {
    match p
    case Eq | Ne | Lt | Gt | Le | Ge => q.BitOr? || q.BitXor? || q.BitAnd? || IsArithmetic(q)
    case BitOr => q.BitXor? || q.BitAnd? || IsArithmetic(q)
    case BitXor => q.BitAnd? || IsArithmetic(q)
    case BitAnd => IsArithmetic(q)
    case Add | Sub => IsProduct(q)
    case _ => false
  }

  /** Without parentheses the tighter operator takes the middle operand, on either side. */
  lemma Precedence(p: BinOp, q: BinOp, a: string, b: string, c: string)
    requires Binds(q, p)
    ensures Parse(T(Word(a), T(Op(p), T(Word(b), T(Op(q), T(Word(c), End)))))) ==
            Ok(Binary(p, Atom(a), Binary(q, Atom(b), Atom(c))), End)
    ensures Parse(T(Word(a), T(Op(q), T(Word(b), T(Op(p), T(Word(c), End)))))) ==
            Ok(Binary(p, Binary(q, Atom(a), Atom(b)), Atom(c)), End)
  {
    LooserFirst(p, q, a, b, c);
    TighterFirst(p, q, a, b, c);
  }

  lemma LooserFirst(p: BinOp, q: BinOp, a: string, b: string, c: string)
    requires Binds(q, p)
    ensures ParseLevel(1, T(Word(a), T(Op(p), T(Word(b), T(Op(q), T(Word(c), End)))))) ==
            Ok(Binary(p, Atom(a), Binary(q, Atom(b), Atom(c))), End)
  {
    var k := Level(p);
    var last := T(Word(c), End);
    var right := T(Word(b), T(Op(q), last));
    var ts := T(Word(a), T(Op(p), right));
    WordText(a, T(Op(p), right));
    WordText(b, T(Op(q), last));
    WordText(c, End);
    LevelFromUnary(k + 1, ts);
    TightBinary(k + 1, right, q, last, End, Atom(b), Atom(c));
    var whole := Binary(p, Atom(a), Binary(q, Atom(b), Atom(c)));
    assert ParseMore(k, whole, End) == Ok(whole, End);
    assert ParseMore(k, Atom(a), T(Op(p), right)) == Ok(whole, End);
    LevelFromTighter(1, k, ts);
  }

  lemma TighterFirst(p: BinOp, q: BinOp, a: string, b: string, c: string)
    requires Binds(q, p)
    ensures ParseLevel(1, T(Word(a), T(Op(q), T(Word(b), T(Op(p), T(Word(c), End)))))) ==
            Ok(Binary(p, Binary(q, Atom(a), Atom(b)), Atom(c)), End)
  {
    var k := Level(p);
    var last := T(Word(c), End);
    var right := T(Word(b), T(Op(p), last));
    var ts := T(Word(a), T(Op(q), right));
    WordText(a, T(Op(q), right));
    WordText(b, T(Op(p), last));
    WordText(c, End);
    TightBinary(k + 1, ts, q, right, T(Op(p), last), Atom(a), Atom(b));
    LevelFromUnary(k + 1, last);
    var whole := Binary(p, Binary(q, Atom(a), Atom(b)), Atom(c));
    assert ParseMore(k, whole, End) == Ok(whole, End);
    assert ParseLevel(k, ts) == Ok(whole, End);
    LevelFromTighter(1, k, ts);
  }
}
