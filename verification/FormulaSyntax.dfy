/**
 The formula texts that expr.py generates (`_ff_repr`), character by character, and a
 parser that gives back the formula they were generated from.
 */
module FormulaSyntax {
  import opened Wrappers
  import opened Text

  datatype Symbol = Plus | Minus | Times | Over | Modulo | Eq | Ne | Lt | Gt | Le | Ge | And | Or

  datatype Func =
    | Floor | Ceil | Abs | Round | Power | Coalesce | IsEmpty | IsNotEmpty
    | Uppercase | Lowercase | Titlecase | Len | StartsWith | EndsWith | LeftTrim | RightTrim

  datatype Formula =
    | Column(name: string)
    | Number(n: int)
    | Quoted(s: string)
    | Truth(b: bool)
    | Infix(op: Symbol, l: Formula, r: Formula)
    | Call(f: Func, args: Formulas)

  datatype Formulas = Last(only: Formula) | More(first: Formula, others: Formulas)

  function SymbolText(op: Symbol): string {
    match op
    case Plus => "+" case Minus => "-" case Times => "*" case Over => "/" case Modulo => "%"
    case Eq => "==" case Ne => "!=" case Lt => "<" case Gt => ">" case Le => "<=" case Ge => ">="
    case And => "and" case Or => "or"
  }

  function SymbolOf(s: string): Option<Symbol> {
    if s == "+" then Some(Plus) else if s == "-" then Some(Minus) else if s == "*" then Some(Times)
    else if s == "/" then Some(Over) else if s == "%" then Some(Modulo)
    else if s == "==" then Some(Eq) else if s == "!=" then Some(Ne)
    else if s == "<" then Some(Lt) else if s == ">" then Some(Gt)
    else if s == "<=" then Some(Le) else if s == ">=" then Some(Ge)
    else if s == "and" then Some(And) else if s == "or" then Some(Or)
    else None
  }

  function FuncText(f: Func): string {
    match f
    case Floor => "floor" case Ceil => "ceil" case Abs => "abs" case Round => "round"
    case Power => "power" case Coalesce => "coalesce" case IsEmpty => "is_empty" case IsNotEmpty => "is_not_empty"
    case Uppercase => "uppercase" case Lowercase => "lowercase" case Titlecase => "titlecase" case Len => "length"
    case StartsWith => "starts_with" case EndsWith => "ends_with"
    case LeftTrim => "left_trim" case RightTrim => "right_trim"
  }

  function FuncOf(s: string): Option<Func> {
    if s == "floor" then Some(Floor) else if s == "ceil" then Some(Ceil) else if s == "abs" then Some(Abs)
    else if s == "round" then Some(Round) else if s == "power" then Some(Power)
    else if s == "coalesce" then Some(Coalesce) else if s == "is_empty" then Some(IsEmpty)
    else if s == "is_not_empty" then Some(IsNotEmpty) else if s == "uppercase" then Some(Uppercase)
    else if s == "lowercase" then Some(Lowercase) else if s == "titlecase" then Some(Titlecase)
    else if s == "length" then Some(Len) else if s == "starts_with" then Some(StartsWith)
    else if s == "ends_with" then Some(EndsWith) else if s == "left_trim" then Some(LeftTrim)
    else if s == "right_trim" then Some(RightTrim)
    else None
  }

  // --- the printer ---

  /** Python's `str.replace` for a one-character pattern. */
  function Replace(s: string, c: char, with: string): string {
    if s == "" then "" else (if s[0] == c then with else [s[0]]) + Replace(s[1..], c, with)
  }

  function Escape(s: string): string {
    Replace(Replace(s, '\\', "\\\\"), '"', "\\\"")
  }

  function Print(f: Formula, rest: Text): Text {
    match f
    case Column(name) => T('[', Put(name, T(']', rest)))
    case Number(n) => Put(IntText(n), rest)
    case Quoted(s) => T('"', Put(Escape(s), T('"', rest)))
    case Truth(b) => Put(if b then "true" else "false", rest)
    case Infix(op, l, r) => T('(', Print(l, T(' ', Put(SymbolText(op), T(' ', Print(r, T(')', rest)))))))
    case Call(f, args) => Put(FuncText(f), T('(', PrintArgs(args, T(')', rest))))
  }

  function PrintArgs(args: Formulas, rest: Text): Text {
    match args
    case Last(only) => Print(only, rest)
    case More(first, others) => Print(first, T(',', T(' ', PrintArgs(others, rest))))
  }

  // --- the parser ---

  datatype Parsed<+A> = Fail | Ok(tree: A, rest: Text)

  predicate InName(c: char) { c != ']' }
  predicate InNumber(c: char) { IsDigit(c) || c == '-' }
  predicate InWord(c: char) { 'a' <= c <= 'z' || c == '_' }
  predicate InSymbol(c: char) { c != ' ' }

  /** A quoted string after its opening quote; a backslash takes the next character as it is. */
  function ReadQuoted(t: Text): (r: Parsed<string>)
    ensures r.Ok? ==> Length(r.rest) < Length(t)
  {
    if t.End? then Fail
    else if t.head == '"' then Ok("", t.tail)
    else if t.head != '\\' then Prefixed(t.head, ReadQuoted(t.tail))
    else if t.tail.End? then Fail
    else Prefixed(t.tail.head, ReadQuoted(t.tail.tail))
  }

  function Prefixed(c: char, r: Parsed<string>): Parsed<string> {
    if r.Ok? then Ok([c] + r.tree, r.rest) else Fail
  }

  function Parse(t: Text): (r: Parsed<Formula>)
    ensures r.Ok? ==> Length(r.rest) < Length(t) && NamesOk(r.tree)
    decreases Length(t), 1
  {
    if t.End? then Fail
    else if t.head == '[' then
      var (name, rest) := Span(InName, t.tail);
      if rest.T? then Ok(Column(name), rest.tail) else Fail
    else if t.head == '"' then
      match ReadQuoted(t.tail)
      case Fail => Fail
      case Ok(s, rest) => Ok(Quoted(s), rest)
    else if t.head == '(' then ParseInfix(t.tail)
    else if InNumber(t.head) then ParseNumber(t)
    else if InWord(t.head) then ParseWord(t)
    else Fail
  }

  function ParseNumber(t: Text): (r: Parsed<Formula>)
    requires t.T? && InNumber(t.head)
    ensures r.Ok? ==> Length(r.rest) < Length(t) && NamesOk(r.tree)
  {
    var (digits, rest) := Span(InNumber, t);
    if IntValue(digits).Some? then Ok(Number(IntValue(digits).value), rest) else Fail
  }

  function ParseWord(t: Text): (r: Parsed<Formula>)
    requires t.T? && InWord(t.head)
    ensures r.Ok? ==> Length(r.rest) < Length(t) && NamesOk(r.tree)
    decreases Length(t), 0
  {
    var (word, rest) := Span(InWord, t);
    if word == "true" then Ok(Truth(true), rest)
    else if word == "false" then Ok(Truth(false), rest)
    else if FuncOf(word).None? || rest.End? || rest.head != '(' then Fail
    else
      match ParseArgs(rest.tail)
      case Fail => Fail
      case Ok(args, rest') => Ok(Call(FuncOf(word).value, args), rest')
  }

  function ParseInfix(t: Text): (r: Parsed<Formula>)
    ensures r.Ok? ==> Length(r.rest) < Length(t) && NamesOk(r.tree)
    decreases Length(t), 2
  {
    match Parse(t)
    case Fail => Fail
    case Ok(l, rest) =>
      if rest.End? || rest.head != ' ' then Fail
      else
        var (symbol, rest2) := Span(InSymbol, rest.tail);
        if SymbolOf(symbol).None? || rest2.End? then Fail
        else
          match Parse(rest2.tail)
          case Fail => Fail
          case Ok(r, rest3) =>
            if rest3.End? || rest3.head != ')' then Fail
            else Ok(Infix(SymbolOf(symbol).value, l, r), rest3.tail)
  }

  function ParseArgs(t: Text): (r: Parsed<Formulas>)
    ensures r.Ok? ==> Length(r.rest) < Length(t) && NamesOkAll(r.tree)
    decreases Length(t), 2
  {
    match Parse(t)
    case Fail => Fail
    case Ok(f, rest) =>
      if rest.End? then Fail
      else if rest.head == ')' then Ok(Last(f), rest.tail)
      else if rest.head != ',' || rest.tail.End? || rest.tail.head != ' ' then Fail
      else
        assert Length(rest) == 2 + Length(rest.tail.tail);
        match ParseArgs(rest.tail.tail)
        case Fail => Fail
        case Ok(others, rest') => Ok(More(f, others), rest')
  }

  /** The text as a whole. */
  function ParseFormula(t: Text): Parsed<Formula> {
    var r := Parse(t);
    if r.Ok? && r.rest == End then r else Fail
  }

  predicate NamesOk(f: Formula) {
    match f
    case Column(name) => ']' !in name
    case Infix(_, l, r) => NamesOk(l) && NamesOk(r)
    case Call(_, args) => NamesOkAll(args)
    case _ => true
  }

  predicate NamesOkAll(fs: Formulas) {
    match fs
    case Last(only) => NamesOk(only)
    case More(first, others) => NamesOk(first) && NamesOkAll(others)
  }

  // --- the round trip ---

  function EscapeChar(c: char): string {
    if c == '\\' then "\\\\" else if c == '"' then "\\\"" else [c]
  }

  lemma {:induction false} ReplaceConcat(a: string, b: string, c: char, with: string)
    ensures Replace(a + b, c, with) == Replace(a, c, with) + Replace(b, c, with)
  {
    if a == "" {
      assert a + b == b;
    } else {
      assert (a + b)[1..] == a[1..] + b;
      ReplaceConcat(a[1..], b, c, with);
    }
  }

  /** The two replacements, one after the other, escape each character once. */
  lemma EscapeCons(s: string)
    requires s != ""
    ensures Escape(s) == EscapeChar(s[0]) + Escape(s[1..])
  {
    var first := if s[0] == '\\' then "\\\\" else [s[0]];
    ReplaceConcat(first, Replace(s[1..], '\\', "\\\\"), '"', "\\\"");
    if s[0] == '\\' {
      assert "\\\\"[1..] == "\\" && "\\"[1..] == "";
      assert Replace("\\", '"', "\\\"") == "\\";
      assert Replace("\\\\", '"', "\\\"") == "\\\\";
    } else {
      assert [s[0]][1..] == "";
      assert Replace([s[0]], '"', "\\\"") == EscapeChar(s[0]);
    }
  }

  lemma {:induction false} QuotedRoundTrip(s: string, rest: Text)
    ensures ReadQuoted(Put(Escape(s), T('"', rest))) == Ok(s, rest)
  {
    if s != "" {
      EscapeCons(s);
      PutConcat(EscapeChar(s[0]), Escape(s[1..]), T('"', rest));
      QuotedRoundTrip(s[1..], rest);
      var more := Put(Escape(s[1..]), T('"', rest));
      if s[0] == '\\' || s[0] == '"' {
        assert EscapeChar(s[0])[1..] == [s[0]] && [s[0]][1..] == "";
        assert Put(EscapeChar(s[0]), more) == T('\\', T(s[0], more));
      } else {
        assert [s[0]][1..] == "";
        assert Put(EscapeChar(s[0]), more) == T(s[0], more);
      }
      assert [s[0]] + s[1..] == s;
    }
  }

  /** What may follow a formula inside a formula. */
  predicate Delimited(rest: Text) {
    rest.T? ==> rest.head in {' ', ')', ','}
  }

  lemma SymbolRoundTrip(op: Symbol)
    ensures SymbolOf(SymbolText(op)) == Some(op) && forall c :: c in SymbolText(op) ==> InSymbol(c)
  {
  }

  lemma FuncRoundTrip(f: Func)
    ensures FuncOf(FuncText(f)) == Some(f) && FuncText(f) !in {"true", "false", ""}
    ensures forall c :: c in FuncText(f) ==> InWord(c)
  {
  }

  lemma PutHead(s: string, rest: Text)
    requires s != ""
    ensures Put(s, rest).T? && Put(s, rest).head == s[0]
  {
  }

  lemma NumberText(n: int, rest: Text)
    requires Delimited(rest)
    ensures Parse(Put(IntText(n), rest)) == Ok(Number(n), rest)
  {
    var s := IntText(n);
    IntRoundTrip(n);
    SpanOfPut(InNumber, s, rest);
    PutHead(s, rest);
    assert ParseNumber(Put(s, rest)) == Ok(Number(n), rest);
  }

  lemma WordText(word: string, rest: Text)
    requires word != "" && (forall c :: c in word ==> InWord(c)) && (rest.T? ==> !InWord(rest.head))
    ensures var t := Put(word, rest);
            t.T? && InWord(t.head) && Span(InWord, t) == (word, rest)
  {
    SpanOfPut(InWord, word, rest);
    PutHead(word, rest);
    assert word[0] in word;
  }

  lemma InfixText(t: Text, l: Formula, op: Symbol, right: Text, r: Formula, rest: Text)
    requires Parse(t) == Ok(l, T(' ', Put(SymbolText(op), T(' ', right))))
    requires Parse(right) == Ok(r, T(')', rest))
    ensures ParseInfix(t) == Ok(Infix(op, l, r), rest)
  {
    SymbolRoundTrip(op);
    SpanOfPut(InSymbol, SymbolText(op), T(' ', right));
  }

  lemma CallText(word: string, f: Func, arguments: Text, args: Formulas, rest: Text)
    requires FuncOf(word) == Some(f) && word !in {"true", "false", ""} && forall c :: c in word ==> InWord(c)
    requires ParseArgs(arguments) == Ok(args, rest)
    ensures Parse(Put(word, T('(', arguments))) == Ok(Call(f, args), rest)
  {
    WordText(word, T('(', arguments));
    assert ParseWord(Put(word, T('(', arguments))) == Ok(Call(f, args), rest);
  }

  lemma TruthText(b: bool, rest: Text)
    requires Delimited(rest)
    ensures Parse(Put(if b then "true" else "false", rest)) == Ok(Truth(b), rest)
  {
    WordText(if b then "true" else "false", rest);
  }

  lemma {:induction false} PrintedFormulaParses(f: Formula, rest: Text)
    requires NamesOk(f) && Delimited(rest)
    ensures Parse(Print(f, rest)) == Ok(f, rest)
    decreases f, 0
  {
    match f
    case Column(name) => SpanOfPut(InName, name, T(']', rest));
    case Number(n) => NumberText(n, rest);
    case Quoted(s) => QuotedRoundTrip(s, rest);
    case Truth(b) => TruthText(b, rest);
    case Infix(op, l, r) =>
      var right := Print(r, T(')', rest));
      PrintedFormulaParses(r, T(')', rest));
      PrintedFormulaParses(l, T(' ', Put(SymbolText(op), T(' ', right))));
      InfixText(Print(l, T(' ', Put(SymbolText(op), T(' ', right)))), l, op, right, r, rest);
    case Call(func, args) =>
      PrintedArgsParse(args, rest);
      FuncRoundTrip(func);
      CallText(FuncText(func), func, PrintArgs(args, T(')', rest)), args, rest);
  }

  lemma {:induction false} PrintedArgsParse(args: Formulas, rest: Text)
    requires NamesOkAll(args)
    ensures ParseArgs(PrintArgs(args, T(')', rest))) == Ok(args, rest)
    decreases args, 1
  {
    match args
    case Last(only) => PrintedFormulaParses(only, T(')', rest));
    case More(first, others) =>
      PrintedArgsParse(others, rest);
      PrintedFormulaParses(first, T(',', T(' ', PrintArgs(others, T(')', rest)))));
  }

  /** Printing and parsing gives the formula back if and only if no column name in it
      contains a closing bracket. */
  lemma FormulaRoundTripIff(f: Formula)
    ensures ParseFormula(Print(f, End)) == Ok(f, End) <==> NamesOk(f)
  {
    if NamesOk(f) { PrintedFormulaParses(f, End); }
  }
}
