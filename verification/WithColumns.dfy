/**
 `FlowFrame.with_columns`: when every expression has a formula, the call becomes a
 chain of formula nodes, one after the other, where Polars would evaluate all of them
 on the input.  The two agree when no expression reads what an earlier one writes.
 */
module WithColumns {
  import opened Wrappers
  import opened Text
  import opened FormulaSyntax
  import opened FormulaCompiler

  datatype Frame = Frame(columns: seq<string>, rows: seq<Row>)

  /** Polars' output name: the alias, or the name of the leftmost leaf. */
  function OutputName(e: Expr): string {
    match e
    case Col(name) => name
    case Lit(_) => "literal"
    case Bin(_, l, _) => OutputName(l)
    case Apply(_, x) => OutputName(x)
    case Apply2(_, x, _) => OutputName(x)
    case Alias(_, name) => name
    case Neg(x) => OutputName(x)
    case Inv(x) => OutputName(x)
    case Opaque(x, _) => OutputName(x)
  }

  /** A column that exists keeps its place, a new one goes to the end. */
  function AddName(columns: seq<string>, name: string): seq<string> {
    if name in columns then columns else columns + [name]
  }

  function AddNames(columns: seq<string>, exprs: seq<Expr>): seq<string> {
    if exprs == [] then columns
    else AddName(AddNames(columns, exprs[..|exprs| - 1]), OutputName(exprs[|exprs| - 1]))
  }

  /** All expressions evaluated on the input row. */
  function TogetherRow(lib: Library, exprs: seq<Expr>, row: Row): Row {
    if exprs == [] then row
    else
      var e := exprs[|exprs| - 1];
      TogetherRow(lib, exprs[..|exprs| - 1], row)[OutputName(e) := Eval(lib, e, row)]
  }

  /** Each expression evaluated on what the ones before it left. */
  function ChainRow(lib: Library, exprs: seq<Expr>, row: Row): Row {
    if exprs == [] then row
    else
      var e := exprs[|exprs| - 1];
      var before := ChainRow(lib, exprs[..|exprs| - 1], row);
      before[OutputName(e) := Eval(lib, e, before)]
  }

  function MapRows(rows: seq<Row>, f: Row -> Row): seq<Row> {
    seq(|rows|, k requires 0 <= k < |rows| => f(rows[k]))
  }

  predicate DistinctOutputs(exprs: seq<Expr>) {
    forall i, j :: 0 <= i < j < |exprs| ==> OutputName(exprs[i]) != OutputName(exprs[j])
  }

  /** What Polars' `with_columns` computes; two outputs of one name are an error. */
  function Together(lib: Library, frame: Frame, exprs: seq<Expr>): Option<Frame> {
    if !DistinctOutputs(exprs) then None
    else Some(Frame(AddNames(frame.columns, exprs), MapRows(frame.rows, row => TogetherRow(lib, exprs, row))))
  }

  function Chain(lib: Library, frame: Frame, exprs: seq<Expr>): Frame {
    Frame(AddNames(frame.columns, exprs), MapRows(frame.rows, row => ChainRow(lib, exprs, row)))
  }

  // --- what the two computations leave ---

  /** On every row, each output of a Polars call has the value of its expression on the
      input row, and every other column is as it was. */
  lemma {:induction false} TogetherSets(lib: Library, exprs: seq<Expr>, row: Row)
    requires DistinctOutputs(exprs)
    ensures SetsOutputs(lib, exprs, row, TogetherRow(lib, exprs, row))
  {
    if exprs != [] {
      TogetherSets(lib, exprs[..|exprs| - 1], row);
      OneMoreSet(lib, exprs, row, TogetherRow(lib, exprs[..|exprs| - 1], row));
    }
  }

  ghost predicate SetsOutputs(lib: Library, exprs: seq<Expr>, row: Row, after: Row) {
    && (forall k :: 0 <= k < |exprs| ==> Holds(after, OutputName(exprs[k]), Eval(lib, exprs[k], row)))
    && (forall name :: IsOther(exprs, name) ==> SameCell(after, row, name))
  }

  predicate Holds(row: Row, name: string, v: Value) {
    name in row && row[name] == v
  }

  predicate SameCell(after: Row, row: Row, name: string) {
    (name in after <==> name in row) && (name in row ==> after[name] == row[name])
  }

  lemma OneMoreSet(lib: Library, exprs: seq<Expr>, row: Row, before: Row)
    requires DistinctOutputs(exprs) && exprs != [] && SetsOutputs(lib, exprs[..|exprs| - 1], row, before)
    ensures var last := exprs[|exprs| - 1];
            SetsOutputs(lib, exprs, row, before[OutputName(last) := Eval(lib, last, row)])
  {
    var rest, last := exprs[..|exprs| - 1], exprs[|exprs| - 1];
    var after := before[OutputName(last) := Eval(lib, last, row)];
    forall k | 0 <= k < |exprs| ensures Holds(after, OutputName(exprs[k]), Eval(lib, exprs[k], row)) {
      if k < |rest| { assert rest[k] == exprs[k]; }
    }
    forall name | IsOther(exprs, name) ensures SameCell(after, row, name) {
      OneMore(exprs, name);
    }
  }

  predicate IsOther(exprs: seq<Expr>, name: string) {
    forall k :: 0 <= k < |exprs| ==> OutputName(exprs[k]) != name
  }

  /** Existing columns keep their places; the outputs that are new follow, each once. */
  lemma {:induction false} ColumnsAfter(columns: seq<string>, exprs: seq<Expr>)
    ensures var after := AddNames(columns, exprs);
            && |columns| <= |after| && after[..|columns|] == columns
            && (forall name :: name in after <==> name in columns || !IsOther(exprs, name))
            && (forall i, j :: 0 <= i < j < |after| && |columns| <= j ==> after[i] != after[j])
  {
    if exprs != [] {
      var rest, last := exprs[..|exprs| - 1], exprs[|exprs| - 1];
      ColumnsAfter(columns, rest);
      forall name ensures !IsOther(exprs, name) <==> !IsOther(rest, name) || name == OutputName(last) {
        OneMore(exprs, name);
      }
    }
  }

  lemma OneMore(exprs: seq<Expr>, name: string)
    requires exprs != []
    ensures IsOther(exprs, name) <==>
            IsOther(exprs[..|exprs| - 1], name) && name != OutputName(exprs[|exprs| - 1])
  {
    assert forall k :: 0 <= k < |exprs| - 1 ==> exprs[..|exprs| - 1][k] == exprs[k];
  }

  predicate InOrder(names: seq<string>, first: string, second: string) {
    exists i, j :: 0 <= i < j < |names| && names[i] == first && names[j] == second
  }

  lemma OrderStays(names: seq<string>, name: string, first: string, second: string)
    requires InOrder(names, first, second)
    ensures InOrder(AddName(names, name), first, second)
  {
    var i, j :| 0 <= i < j < |names| && names[i] == first && names[j] == second;
    var after := AddName(names, name);
    assert after[i] == first && after[j] == second;
  }

  /** New outputs come in the order of their expressions. */
  lemma {:induction false} NewColumnsInOrder(columns: seq<string>, exprs: seq<Expr>, p: nat, q: nat)
    requires DistinctOutputs(exprs) && p < q < |exprs|
    requires OutputName(exprs[p]) !in columns && OutputName(exprs[q]) !in columns
    ensures InOrder(AddNames(columns, exprs), OutputName(exprs[p]), OutputName(exprs[q]))
  {
    var rest, last := exprs[..|exprs| - 1], exprs[|exprs| - 1];
    var before, after := AddNames(columns, rest), AddNames(columns, exprs);
    if q < |exprs| - 1 {
      assert rest[p] == exprs[p] && rest[q] == exprs[q];
      NewColumnsInOrder(columns, rest, p, q);
      OrderStays(before, OutputName(last), OutputName(exprs[p]), OutputName(exprs[q]));
    } else {
      ColumnsAfter(columns, rest);
      assert OutputName(rest[p]) == OutputName(exprs[p]);
      assert !IsOther(rest, OutputName(exprs[p]));
      var i :| 0 <= i < |before| && before[i] == OutputName(exprs[p]);
      assert IsOther(rest, OutputName(last));
      assert after == before + [OutputName(last)];
      assert after[i] == OutputName(exprs[p]) && after[|before|] == OutputName(exprs[q]);
    }
  }

  /** An expression without an alias is called after its leftmost column, and a literal
      that stands there is called "literal". */
  lemma {:induction false} UnaliasedName(e: Expr, name: string)
    requires Leftmost(e, Col(name)) || (name == "literal" && exists v :: Leftmost(e, Lit(v)))
    ensures OutputName(e) == name && OutputName(Alias(e, "x")) == "x"
  {
    match e
    case Bin(_, l, _) => UnaliasedName(l, name);
    case Apply(_, x) => UnaliasedName(x, name);
    case Apply2(_, x, _) => UnaliasedName(x, name);
    case Neg(x) => UnaliasedName(x, name);
    case Inv(x) => UnaliasedName(x, name);
    case Opaque(x, _) => UnaliasedName(x, name);
    case _ =>
  }

  /** `leaf` is reached from `e` through left operands and receivers, not through an alias. */
  predicate Leftmost(e: Expr, leaf: Expr) {
    match e
    case Bin(_, l, _) => Leftmost(l, leaf)
    case Apply(_, x) => Leftmost(x, leaf)
    case Apply2(_, x, _) => Leftmost(x, leaf)
    case Neg(x) => Leftmost(x, leaf)
    case Inv(x) => Leftmost(x, leaf)
    case Opaque(x, _) => Leftmost(x, leaf)
    case Alias(_, _) => false
    case _ => e == leaf
  }

  /** No expression reads a column that an earlier one writes. */
  ghost predicate Independent(exprs: seq<Expr>) {
    forall i, j :: 0 <= i < j < |exprs| ==> OutputName(exprs[i]) !in Reads(exprs[j])
  }

  ghost predicate Readable(exprs: seq<Expr>) {
    forall k, name :: 0 <= k < |exprs| && name in Reads(exprs[k]) ==> ']' !in name
  }

  lemma {:induction false} ChainTouchesOutputsOnly(lib: Library, exprs: seq<Expr>, row: Row, name: string)
    requires forall k :: 0 <= k < |exprs| ==> OutputName(exprs[k]) != name
    ensures Lookup(ChainRow(lib, exprs, row), name) == Lookup(row, name)
  {
    if exprs != [] { ChainTouchesOutputsOnly(lib, exprs[..|exprs| - 1], row, name); }
  }

  lemma {:induction false} ChainRowIsTogether(lib: Library, exprs: seq<Expr>, row: Row)
    requires Independent(exprs)
    ensures ChainRow(lib, exprs, row) == TogetherRow(lib, exprs, row)
  {
    if exprs != [] {
      var rest, e := exprs[..|exprs| - 1], exprs[|exprs| - 1];
      ChainRowIsTogether(lib, rest, row);
      forall name | name in Reads(e) ensures Lookup(ChainRow(lib, rest, row), name) == Lookup(row, name) {
        ChainTouchesOutputsOnly(lib, rest, row, name);
      }
      EvalReadsOnly(lib, e, ChainRow(lib, rest, row), row);
    }
  }

  /** For independent expressions the chain has the values and the column order of Polars
      exactly when Polars accepts the outputs: a repeated name is an error there, and
      silently overwritten here. */
  lemma ChainIsTogetherIff(lib: Library, frame: Frame, exprs: seq<Expr>)
    requires Independent(exprs)
    ensures Together(lib, frame, exprs) == Some(Chain(lib, frame, exprs)) <==> DistinctOutputs(exprs)
  {
    forall row: Row ensures ChainRow(lib, exprs, row) == TogetherRow(lib, exprs, row) {
      ChainRowIsTogether(lib, exprs, row);
    }
    var chained := MapRows(frame.rows, row => ChainRow(lib, exprs, row));
    assert chained == MapRows(frame.rows, row => TogetherRow(lib, exprs, row));
  }

  /** Two expressions, the second of which only copies what the first one writes: the
      chain answers as Polars does on exactly those rows the first leaves alone. */
  lemma CopyOfEarlierOutputIff(lib: Library, first: Expr, target: string, row: Row)
    requires target != OutputName(first)
    ensures var name := OutputName(first);
            var exprs := [first, Alias(Col(name), target)];
            ChainRow(lib, exprs, row) == TogetherRow(lib, exprs, row) <==> Eval(lib, first, row) == Lookup(row, name)
  {
    var name := OutputName(first);
    var second := Alias(Col(name), target);
    var exprs := [first, second];
    var written := row[name := Eval(lib, first, row)];
    assert exprs[..1] == [first] && [first][..0] == [];
    assert ChainRow(lib, [first], row) == TogetherRow(lib, [first], row) == written;
    assert OutputName(second) == target && exprs[1] == second;
    assert Eval(lib, Col(name), written) == Lookup(written, name) && Eval(lib, Col(name), row) == Lookup(row, name);
    assert Eval(lib, second, written) == Lookup(written, name) && Eval(lib, second, row) == Lookup(row, name);
    assert ChainRow(lib, exprs, row) == written[target := Lookup(written, name)];
    assert TogetherRow(lib, exprs, row) == written[target := Lookup(row, name)];
    assert ChainRow(lib, exprs, row)[target] == Eval(lib, first, row);
    assert TogetherRow(lib, exprs, row)[target] == Lookup(row, name);
  }

  /** `with_columns(a = a + 1, b = a)`: wherever `a` holds a number, `b` differs. */
  lemma DependentChainDiffers(lib: Library, row: Row, x: real)
    requires "a" in row && row["a"] == Num(x)
    ensures var exprs := [Alias(Bin(Add, Col("a"), Lit(Int(1))), "a"), Alias(Col("a"), "b")];
            ChainRow(lib, exprs, row) != TogetherRow(lib, exprs, row)
  {
    var first := Alias(Bin(Add, Col("a"), Lit(Int(1))), "a");
    assert Eval(lib, Bin(Add, Col("a"), Lit(Int(1))), row) == Num(x + 1.0);
    CopyOfEarlierOutputIff(lib, first, "b", row);
  }

  /** A formula node reads its text and sets one column on every row; a text that is not
      a formula is an error. */
  function FormulaNode(lib: Library, frame: Frame, text: Text, output: string): Option<Frame> {
    match ParseFormula(text)
    case Fail => None
    case Ok(formula, _) =>
      Some(Frame(AddName(frame.columns, output),
                 MapRows(frame.rows, row => row[output := EvalFormula(lib, formula, row)])))
  }

  lemma FormulaNodeSetsValue(lib: Library, frame: Frame, e: Expr)
    requires Compile(e).Some? && forall name :: name in Reads(e) ==> ']' !in name
    ensures FormulaNode(lib, frame, Print(Compile(e).value, End), OutputName(e)) ==
            Some(Frame(AddName(frame.columns, OutputName(e)),
                       MapRows(frame.rows, row => row[OutputName(e) := Eval(lib, e, row)])))
  {
    var formula := Compile(e).value;
    CompileKeepsNames(lib, e);
    FormulaRoundTripIff(formula);
    forall row: Row ensures EvalFormula(lib, formula, row) == Eval(lib, e, row) {
      CompileKeepsValue(lib, e, row);
    }
    assert MapRows(frame.rows, row => row[OutputName(e) := EvalFormula(lib, formula, row)]) ==
           MapRows(frame.rows, row => row[OutputName(e) := Eval(lib, e, row)]);
  }

  lemma ChainGrows(lib: Library, frame: Frame, exprs: seq<Expr>, e: Expr)
    ensures var before := Chain(lib, frame, exprs);
            Chain(lib, frame, exprs + [e]) ==
            Frame(AddName(before.columns, OutputName(e)),
                  MapRows(before.rows, row => row[OutputName(e) := Eval(lib, e, row)]))
  {
    var before, all := Chain(lib, frame, exprs), exprs + [e];
    assert all[..|all| - 1] == exprs;
    forall row: Row ensures ChainRow(lib, all, row) ==
                            ChainRow(lib, exprs, row)[OutputName(e) := Eval(lib, e, ChainRow(lib, exprs, row))] {
    }
    assert Chain(lib, frame, all).rows == MapRows(before.rows, row => row[OutputName(e) := Eval(lib, e, row)]);
  }

  // --- names that Polars has to tell ---

  /** What only Polars knows: which column names are patterns that stand for several
      columns, and what expressions over patterns give. */
  datatype Polars = Polars(pattern: string -> bool, expand: (Frame, seq<Expr>) -> Option<Frame>)

  /** `meta.output_name()`, an error for a pattern without an alias. */
  function MetaName(p: Polars, e: Expr): (name: Option<string>)
    ensures name.Some? ==> name.value == OutputName(e)
  {
    match e
    case Col(name) => if p.pattern(name) then None else Some(name)
    case Lit(_) => Some("literal")
    case Bin(_, l, _) => MetaName(p, l)
    case Apply(_, x) => MetaName(p, x)
    case Apply2(_, x, _) => MetaName(p, x)
    case Alias(_, name) => Some(name)
    case Neg(x) => MetaName(p, x)
    case Inv(x) => MetaName(p, x)
    case Opaque(x, _) => MetaName(p, x)
  }

  /** `Expr.column_name`: a column has its own, a method keeps its receiver's, and the rest
      ask Polars. */
  function ColumnName(p: Polars, e: Expr): (name: Option<string>)
    ensures name.Some? ==> name.value == OutputName(e)
  {
    match e
    case Col(name) => Some(name)
    case Apply(_, x) => if ColumnName(p, x).Some? then ColumnName(p, x) else MetaName(p, e)
    case Apply2(_, x, _) => if ColumnName(p, x).Some? then ColumnName(p, x) else MetaName(p, e)
    case Opaque(x, _) => if ColumnName(p, x).Some? then ColumnName(p, x) else MetaName(p, e)
    case _ => MetaName(p, e)
  }

  predicate Plain(p: Polars, e: Expr) {
    forall name :: name in Reads(e) ==> !p.pattern(name)
  }

  lemma {:induction false} PlainHasName(p: Polars, e: Expr)
    requires Plain(p, e)
    ensures MetaName(p, e).Some? && ColumnName(p, e).Some?
  {
    match e
    case Bin(_, l, _) => PlainHasName(p, l);
    case Apply(_, x) => PlainHasName(p, x);
    case Apply2(_, x, _) => PlainHasName(p, x);
    case Neg(x) => PlainHasName(p, x);
    case Inv(x) => PlainHasName(p, x);
    case Opaque(x, _) => PlainHasName(p, x);
    case _ =>
  }

  predicate AllPlain(p: Polars, exprs: seq<Expr>) {
    forall k :: 0 <= k < |exprs| ==> Plain(p, exprs[k])
  }

  /** Polars' answer to the whole call. */
  function PolarsAnswer(p: Polars, lib: Library, frame: Frame, exprs: seq<Expr>): Option<Frame> {
    if AllPlain(p, exprs) then Together(lib, frame, exprs) else p.expand(frame, exprs)
  }

  // --- the call ---

  /** Every expression has a formula and a column name. */
  predicate AllFormulas(p: Polars, exprs: seq<Expr>) {
    forall k :: 0 <= k < |exprs| ==> Compile(exprs[k]).Some? && ColumnName(p, exprs[k]).Some?
  }

  /** Over plain columns the formula path is taken exactly when every expression is made of
      constructs that a formula can express. */
  lemma PlainFormulas(p: Polars, exprs: seq<Expr>)
    requires AllPlain(p, exprs)
    ensures AllFormulas(p, exprs) <==> forall k :: 0 <= k < |exprs| ==> Expressible(exprs[k])
  {
    forall k | 0 <= k < |exprs| ensures ColumnName(p, exprs[k]).Some? {
      PlainHasName(p, exprs[k]);
    }
    forall k | 0 <= k < |exprs| ensures Compile(exprs[k]).Some? <==> Expressible(exprs[k]) {
      CompilesIff(exprs[k]);
    }
  }

  /** The formula texts are used all together or not at all; otherwise the expressions go
      to Polars in one node.  The chain gives Polars' answer to independent expressions over
      plain columns exactly when their outputs are distinct. */
  method WithColumns(p: Polars, lib: Library, frame: Frame, exprs: seq<Expr>) returns (r: Option<Frame>)
    ensures !AllFormulas(p, exprs) ==> r == PolarsAnswer(p, lib, frame, exprs)
    ensures AllFormulas(p, exprs) && Readable(exprs) ==> r == Some(Chain(lib, frame, exprs))
    ensures AllPlain(p, exprs) ==> (AllFormulas(p, exprs) <==> forall k :: 0 <= k < |exprs| ==> Expressible(exprs[k]))
    ensures AllFormulas(p, exprs) && Readable(exprs) && Independent(exprs) && AllPlain(p, exprs) ==>
              (r == PolarsAnswer(p, lib, frame, exprs) <==> DistinctOutputs(exprs))
  {
    if Independent(exprs) { ChainIsTogetherIff(lib, frame, exprs); }
    if AllPlain(p, exprs) { PlainFormulas(p, exprs); }
    if !AllFormulas(p, exprs) {
      return PolarsAnswer(p, lib, frame, exprs);
    }
    r := FormulaChain(p, lib, frame, exprs);
  }

  method FormulaChain(p: Polars, lib: Library, frame: Frame, exprs: seq<Expr>) returns (ff: Option<Frame>)
    requires AllFormulas(p, exprs)
    ensures Readable(exprs) ==> ff == Some(Chain(lib, frame, exprs))
  {
    ff := Some(frame);
    assert Chain(lib, frame, exprs[..0]) == frame;
    var k := 0;
    while k < |exprs|
      invariant 0 <= k <= |exprs|
      invariant Readable(exprs) ==> ff == Some(Chain(lib, frame, exprs[..k]))
    {
      var e := exprs[k];
      if ff.Some? {
        if Readable(exprs) {
          FormulaNodeSetsValue(lib, ff.value, e);
          ChainGrows(lib, frame, exprs[..k], e);
          assert exprs[..k + 1] == exprs[..k] + [e];
        }
        ff := FormulaNode(lib, ff.value, Print(Compile(e).value, End), ColumnName(p, e).value);
      }
      k := k + 1;
    }
    assert exprs[..k] == exprs;
  }
}
