/**
 Compiling the API's nested AND/OR filters into SQL conditions, and what the conditions mean under SQL's
 three-valued logic. Fields are plain columns; columns and operands compared are of one type.
 */
module FilterTree {
  import opened Prelude
  import opened Text

  datatype Truth = True | False | Unknown

  datatype Cell = Null | Int(n: int) | Str(s: string)

  /** A row of the filtered table, by column. */
  type Row = map<string, Cell>

  /** A comparison's value with the text an f-string prints for it. */
  datatype Operand = One(cell: Cell, text: string) | Many(cells: seq<Cell>, text: string)

  /** The request's filter value: a group, a comparison, some other dictionary, or no dictionary at all.
      A comparison's operand is absent when the request gave none. */
  datatype Filter =
    | Group(operator: string, conditions: seq<Filter>)
    | Leaf(field: string, operator: string, operand: Option<Operand>)
    | OtherDict
    | NoDict

  /** `BadOperand` is the query builder's refusal to order against None and the driver's to compare with a list. */
  datatype Error =
    BadGroupOperator | MissingValue | BadComparison | UnknownField | BadOperand | BadBetween | BadCondition

  datatype Result<T> = Ok(value: T) | Err(error: Error)

  datatype Comparison = Eq | Ne | Gt | Gte | Lt | Lte

  /** SQL conditions as the query builder makes them. */
  datatype Sql =
    | Compare(field: string, op: Comparison, cell: Cell)
    | Like(field: string, pattern: string, ignoreCase: bool)
    | In(field: string, cells: seq<Cell>)
    | Between(field: string, low: Cell, high: Cell)
    | IsNull(field: string)
    | Not(arg: Sql)
    | And(args: seq<Sql>)
    | Or(args: seq<Sql>)

  const OPERATORS: set<string> :=
    {"eq", "neq", "gt", "gte", "lt", "lte", "like", "ilike", "in", "not_in", "between", "is_null", "is_not_null"}

  // ---------------------------------------------------------------- the compiler

  function CellsOf(v: Operand): seq<Cell> {
    match v case One(c, _) => [c] case Many(cs, _) => cs
  }

  /** `field == None` and `field != None` become null tests; no other comparison takes None. */
  function CompileCompare(field: string, op: Comparison, v: Operand): Result<Sql> {
    if v.Many? then Err(BadOperand)
    else if v.cell != Null then Ok(Compare(field, op, v.cell))
    else if op == Eq then Ok(IsNull(field))
    else if op == Ne then Ok(Not(IsNull(field)))
    else Err(BadOperand)
  }

  /** `_apply_comparison_operator`, after the operator's name and the field are looked up. */
  function CompileLeaf(columns: set<string>, field: string, operator: string, operand: Option<Operand>): Result<Sql> {
    var name := Lower(operator);
    var nullTest := name == "is_null" || name == "is_not_null";
    if !nullTest && operand.None? then Err(MissingValue)
    else if name !in OPERATORS then Err(BadComparison)
    else if field !in columns then Err(UnknownField)
    else if name == "is_null" then Ok(IsNull(field))
    else if name == "is_not_null" then Ok(Not(IsNull(field)))
    else
      var v := operand.value;
      if name == "eq" then CompileCompare(field, Eq, v)
      else if name == "neq" then CompileCompare(field, Ne, v)
      else if name == "gt" then CompileCompare(field, Gt, v)
      else if name == "gte" then CompileCompare(field, Gte, v)
      else if name == "lt" then CompileCompare(field, Lt, v)
      else if name == "lte" then CompileCompare(field, Lte, v)
      else if name == "like" then Ok(Like(field, "%" + v.text + "%", false))
      else if name == "ilike" then Ok(Like(field, "%" + v.text + "%", true))
      else if name == "in" then Ok(In(field, CellsOf(v)))
      else if name == "not_in" then Ok(Not(In(field, CellsOf(v))))
      else if v.Many? && |v.cells| == 2 then Ok(Between(field, v.cells[0], v.cells[1]))
      else Err(BadBetween)
  }

  /** `_build_filter_conditions`: no condition or one. */
  function Compile(columns: set<string>, f: Filter): Result<seq<Sql>>
    decreases f, 0
  {
    if !f.Group? then Ok([])
    else
      var name := Lower(f.operator);
      if name != "and" && name != "or" then Err(BadGroupOperator)
      else
        match CompileAll(columns, f.conditions)
        case Err(e) => Err(e)
        case Ok(nested) =>
          if nested == [] then Ok([]) else Ok([if name == "and" then And(nested) else Or(nested)])
  }

  /** One entry of a group: groups recurse, comparisons compile, other dictionaries are refused, anything
      that is no dictionary is skipped. */
  function CompileEntry(columns: set<string>, f: Filter): Result<seq<Sql>>
    decreases f, 1
  {
    match f
    case Group(_, _) => Compile(columns, f)
    case Leaf(field, operator, operand) =>
      (match CompileLeaf(columns, field, operator, operand) case Ok(s) => Ok([s]) case Err(e) => Err(e))
    case OtherDict => Err(BadCondition)
    case NoDict => Ok([])
  }

  /** The conditions of a group's entries, left to right; the first error wins. */
  function CompileAll(columns: set<string>, fs: seq<Filter>): Result<seq<Sql>>
    decreases fs, 2
  {
    if fs == [] then Ok([])
    else
      match CompileAll(columns, fs[..|fs| - 1])
      case Err(e) => Err(e)
      case Ok(front) =>
        match CompileEntry(columns, fs[|fs| - 1])
        case Err(e) => Err(e)
        case Ok(more) => Ok(front + more)
  }

  lemma {:induction false} FirstErrorWins(columns: set<string>, fs: seq<Filter>, n: nat)
    requires n <= |fs| && CompileAll(columns, fs[..n]).Err?
    ensures CompileAll(columns, fs) == CompileAll(columns, fs[..n])
  {
    if n == |fs| {
      assert fs[..n] == fs;
    } else {
      assert fs[..|fs| - 1][..n] == fs[..n];
      FirstErrorWins(columns, fs[..|fs| - 1], n);
    }
  }

  /** The compiler with its loop over a group's entries. */
  method Build(columns: set<string>, f: Filter) returns (r: Result<seq<Sql>>)
    ensures r == Compile(columns, f)
    decreases f
  {
    if !f.Group? {
      return Ok([]);
    }
    var name := Lower(f.operator);
    if name != "and" && name != "or" {
      return Err(BadGroupOperator);
    }
    var nested: seq<Sql> := [];
    for i := 0 to |f.conditions|
      invariant CompileAll(columns, f.conditions[..i]) == Ok(nested)
    {
      var entry := f.conditions[i];
      var step: Result<seq<Sql>>;
      match entry {
        case Group(_, _) => step := Build(columns, entry);
        case Leaf(field, operator, operand) =>
          var leaf := CompileLeaf(columns, field, operator, operand);
          step := if leaf.Ok? then Ok([leaf.value]) else Err(leaf.error);
        case OtherDict => step := Err(BadCondition);
        case NoDict => step := Ok([]);
      }
      assert f.conditions[..i + 1][..i] == f.conditions[..i];
      if step.Err? {
        FirstErrorWins(columns, f.conditions, i + 1);
        return Err(step.error);
      }
      nested := nested + step.value;
    }
    assert f.conditions[..|f.conditions|] == f.conditions;
    r := if nested == [] then Ok([]) else Ok([if name == "and" then And(nested) else Or(nested)]);
  }

  // ---------------------------------------------------------------- what SQL makes of it

  function NotT(t: Truth): Truth {
    match t case True => False case False => True case Unknown => Unknown
  }

  function AndT(a: Truth, b: Truth): Truth {
    if a == False || b == False then False else if a == True && b == True then True else Unknown
  }

  function OrT(a: Truth, b: Truth): Truth {
    if a == True || b == True then True else if a == False && b == False then False else Unknown
  }

  function OfBool(b: bool): Truth {
    if b then True else False
  }

  predicate Below(a: Cell, b: Cell) {
    (a.Int? && b.Int? && a.n < b.n) || (a.Str? && b.Str? && Less(a.s, b.s))
  }

  function CompareT(op: Comparison, a: Cell, b: Cell): Truth {
    if a == Null || b == Null then Unknown
    else match op
      case Eq => OfBool(a == b)
      case Ne => OfBool(a != b)
      case Gt => OfBool(Below(b, a))
      case Gte => OfBool(Below(b, a) || a == b)
      case Lt => OfBool(Below(a, b))
      case Lte => OfBool(Below(a, b) || a == b)
  }

  /** LIKE with its two wildcards and the backslash escape. */
  predicate Matches(s: string, pattern: string)
    decreases |pattern|, |s|
  {
    if pattern == "" then s == ""
    else if pattern[0] == '%' then Matches(s, pattern[1..]) || (s != "" && Matches(s[1..], pattern))
    else if pattern[0] == '\\' && |pattern| > 1 then s != "" && s[0] == pattern[1] && Matches(s[1..], pattern[2..])
    else s != "" && (pattern[0] == '_' || pattern[0] == s[0]) && Matches(s[1..], pattern[1..])
  }

  /** Left to right over the list; an empty list is false even for a null. */
  function InT(c: Cell, cells: seq<Cell>): Truth {
    if cells == [] then False else OrT(InT(c, cells[..|cells| - 1]), CompareT(Eq, c, cells[|cells| - 1]))
  }

  function CellOf(row: Row, field: string): Cell {
    if field in row then row[field] else Null
  }

  function Eval(row: Row, s: Sql): Truth
    decreases s, 0
  {
    match s
    case Compare(field, op, cell) => CompareT(op, CellOf(row, field), cell)
    case Like(field, pattern, ignoreCase) =>
      var c := CellOf(row, field);
      if !c.Str? then Unknown
      else OfBool(if ignoreCase then Matches(Lower(c.s), Lower(pattern)) else Matches(c.s, pattern))
    case In(field, cells) => InT(CellOf(row, field), cells)
    case Between(field, low, high) =>
      AndT(CompareT(Gte, CellOf(row, field), low), CompareT(Lte, CellOf(row, field), high))
    case IsNull(field) => OfBool(CellOf(row, field) == Null)
    case Not(arg) => NotT(Eval(row, arg))
    case And(args) => AndAll(row, args)
    case Or(args) => OrAll(row, args)
  }

  function AndAll(row: Row, args: seq<Sql>): Truth
    decreases args, 1
  {
    if args == [] then True else AndT(AndAll(row, args[..|args| - 1]), Eval(row, args[|args| - 1]))
  }

  function OrAll(row: Row, args: seq<Sql>): Truth
    decreases args, 1
  {
    if args == [] then False else OrT(OrAll(row, args[..|args| - 1]), Eval(row, args[|args| - 1]))
  }

  // ---------------------------------------------------------------- what the request means

  /** A comparison the compiler accepts. */
  predicate LeafOk(columns: set<string>, field: string, operator: string, operand: Option<Operand>) {
    var name := Lower(operator);
    && name in OPERATORS
    && field in columns
    && (name in {"is_null", "is_not_null"} || operand.Some?)
    && (name in {"eq", "neq", "gt", "gte", "lt", "lte"} ==> operand.value.One?)
    && (name in {"gt", "gte", "lt", "lte"} ==> operand.value.cell != Null)
    && (name == "between" ==> operand.value.Many? && |operand.value.cells| == 2)
  }

  /** The order of two numbers or of two strings. */
  predicate Smaller(a: Cell, b: Cell) {
    match (a, b)
    case (Int(m), Int(n)) => m < n
    case (Str(s), Str(t)) => Less(s, t)
    case _ => false
  }

  /** `a` is known to be at least `b`. */
  predicate AtLeast(a: Cell, b: Cell) {
    a != Null && b != Null && (a == b || Smaller(b, a))
  }

  predicate NotAtLeast(a: Cell, b: Cell) {
    a != Null && b != Null && a != b && !Smaller(b, a)
  }

  /** The cell is the operand, or one of its list. */
  predicate OneOf(c: Cell, v: Operand) {
    c != Null && match v case One(d, _) => c == d case Many(ds, _) => c in ds
  }

  /** The cell is surely neither: an empty list has no member, and a null leaves it open. */
  predicate NoneOf(c: Cell, v: Operand) {
    match v
    case One(d, _) => c != Null && d != Null && c != d
    case Many(ds, _) => ds == [] || (c != Null && Null !in ds && c !in ds)
  }

  predicate Listed(c: Cell, cells: seq<Cell>) {
    c != Null && c in cells
  }

  /** The cell is surely not in the list: the list is empty, or no null is involved and all differ. */
  predicate Unlisted(c: Cell, cells: seq<Cell>) {
    cells == [] || (c != Null && Null !in cells && c !in cells)
  }

  predicate TextMatches(c: Cell, text: string, ignoreCase: bool) {
    var pattern := "%" + text + "%";
    c.Str? && if ignoreCase then Matches(Lower(c.s), Lower(pattern)) else Matches(c.s, pattern)
  }

  /** The comparison is true of the cell. */
  predicate LeafHolds(columns: set<string>, c: Cell, f: Filter)
    requires f.Leaf? && LeafOk(columns, f.field, f.operator, f.operand)
  {
    var name := Lower(f.operator);
    if name == "is_null" then c == Null
    else if name == "is_not_null" then c != Null
    else
      var v := f.operand.value;
      if name == "eq" then c == v.cell
      else if name == "neq" then c != Null && c != v.cell
      else if name == "gt" then c != Null && Smaller(v.cell, c)
      else if name == "gte" then AtLeast(c, v.cell)
      else if name == "lt" then c != Null && Smaller(c, v.cell)
      else if name == "lte" then AtLeast(v.cell, c)
      else if name == "like" || name == "ilike" then TextMatches(c, v.text, name == "ilike")
      else if name == "in" then OneOf(c, v)
      else if name == "not_in" then NoneOf(c, v)
      else AtLeast(c, v.cells[0]) && AtLeast(v.cells[1], c)
  }

  /** The comparison is false of the cell. Where it is neither, a null keeps it from being known. */
  predicate LeafFails(columns: set<string>, c: Cell, f: Filter)
    requires f.Leaf? && LeafOk(columns, f.field, f.operator, f.operand)
  {
    var name := Lower(f.operator);
    if name == "is_null" then c != Null
    else if name == "is_not_null" then c == Null
    else
      var v := f.operand.value;
      if name == "eq" then c != Null && c != v.cell
      else if name == "neq" then c == v.cell
      else if name == "gt" then c != Null && !Smaller(v.cell, c)
      else if name == "gte" then NotAtLeast(c, v.cell)
      else if name == "lt" then c != Null && !Smaller(c, v.cell)
      else if name == "lte" then NotAtLeast(v.cell, c)
      else if name == "like" || name == "ilike" then c.Str? && !TextMatches(c, v.text, name == "ilike")
      else if name == "in" then NoneOf(c, v)
      else if name == "not_in" then OneOf(c, v)
      else NotAtLeast(c, v.cells[0]) || NotAtLeast(v.cells[1], c)
  }

  /** The filter holds a comparison somewhere. */
  predicate HasLeaf(f: Filter) {
    f.Leaf? || (f.Group? && exists i :: 0 <= i < |f.conditions| && HasLeaf(f.conditions[i]))
  }

  /** What the compiler accepts as an entry of a group; a non-dictionary is let through and ignored. */
  predicate WellFormed(columns: set<string>, f: Filter) {
    match f
    case Group(operator, conditions) =>
      Lower(operator) in {"and", "or"} && forall i :: 0 <= i < |conditions| ==> WellFormed(columns, conditions[i])
    case Leaf(field, operator, operand) => LeafOk(columns, field, operator, operand)
    case OtherDict => false
    case NoDict => true
  }

  predicate AllWellFormed(columns: set<string>, fs: seq<Filter>) {
    forall i :: 0 <= i < |fs| ==> WellFormed(columns, fs[i])
  }

  /** The filter is true of the row: entries without a comparison do not count. */
  predicate Holds(columns: set<string>, row: Row, f: Filter)
    requires WellFormed(columns, f)
    decreases f, 0
  {
    match f
    case Group(operator, conditions) =>
      assert AllWellFormed(columns, conditions);
      if Lower(operator) == "and" then AllHold(columns, row, conditions) else SomeHolds(columns, row, conditions)
    case Leaf(field, _, _) => LeafHolds(columns, CellOf(row, field), f)
    case _ => false
  }

  /** The filter is false of the row. */
  predicate Fails(columns: set<string>, row: Row, f: Filter)
    requires WellFormed(columns, f)
    decreases f, 0
  {
    match f
    case Group(operator, conditions) =>
      assert AllWellFormed(columns, conditions);
      if Lower(operator) == "and" then SomeFails(columns, row, conditions) else AllFail(columns, row, conditions)
    case Leaf(field, _, _) => LeafFails(columns, CellOf(row, field), f)
    case _ => false
  }

  predicate NoLeaf(fs: seq<Filter>) {
    forall i :: 0 <= i < |fs| ==> !HasLeaf(fs[i])
  }

  predicate AllHold(columns: set<string>, row: Row, fs: seq<Filter>)
    requires AllWellFormed(columns, fs)
    decreases fs, 1
  {
    forall i :: 0 <= i < |fs| && HasLeaf(fs[i]) ==> Holds(columns, row, fs[i])
  }

  predicate SomeHolds(columns: set<string>, row: Row, fs: seq<Filter>)
    requires AllWellFormed(columns, fs)
    decreases fs, 1
  {
    exists i :: 0 <= i < |fs| && HasLeaf(fs[i]) && Holds(columns, row, fs[i])
  }

  predicate AllFail(columns: set<string>, row: Row, fs: seq<Filter>)
    requires AllWellFormed(columns, fs)
    decreases fs, 1
  {
    forall i :: 0 <= i < |fs| && HasLeaf(fs[i]) ==> Fails(columns, row, fs[i])
  }

  predicate SomeFails(columns: set<string>, row: Row, fs: seq<Filter>)
    requires AllWellFormed(columns, fs)
    decreases fs, 1
  {
    exists i :: 0 <= i < |fs| && HasLeaf(fs[i]) && Fails(columns, row, fs[i])
  }

  function Meaning(columns: set<string>, row: Row, f: Filter): Truth
    requires WellFormed(columns, f)
  {
    if Holds(columns, row, f) then True else if Fails(columns, row, f) then False else Unknown
  }

  // ---------------------------------------------------------------- the compiled condition means the request

  /** IN by its fold and by membership. */
  lemma {:induction false} InMeaning(c: Cell, cells: seq<Cell>)
    ensures InT(c, cells) == True <==> Listed(c, cells)
    ensures InT(c, cells) == False <==> Unlisted(c, cells)
  {
    if cells != [] {
      var front := cells[..|cells| - 1];
      assert cells == front + [cells[|cells| - 1]];
      InMeaning(c, front);
    }
  }

  /** A comparison compiles exactly when it is well formed, and never holds and fails at once. */
  lemma LeafMeaning(columns: set<string>, row: Row, f: Filter)
    requires f.Leaf?
    ensures CompileLeaf(columns, f.field, f.operator, f.operand).Ok? <==> WellFormed(columns, f)
    ensures WellFormed(columns, f) ==>
      Eval(row, CompileLeaf(columns, f.field, f.operator, f.operand).value) == Meaning(columns, row, f)
  {
    LeafCompiles(columns, f);
    if WellFormed(columns, f) {
      LeafEvaluates(columns, row, f);
    }
  }

  lemma LeafCompiles(columns: set<string>, f: Filter)
    requires f.Leaf?
    ensures CompileLeaf(columns, f.field, f.operator, f.operand).Ok? <==>
            LeafOk(columns, f.field, f.operator, f.operand)
  {
  }

  lemma LeafEvaluates(columns: set<string>, row: Row, f: Filter)
    requires f.Leaf? && LeafOk(columns, f.field, f.operator, f.operand)
    requires CompileLeaf(columns, f.field, f.operator, f.operand).Ok?
    ensures Eval(row, CompileLeaf(columns, f.field, f.operator, f.operand).value) == Meaning(columns, row, f)
  {
    if Lower(f.operator) in {"eq", "neq", "gt", "gte", "lt", "lte"} {
      CompareEvaluates(columns, row, f);
    } else if f.operand.Some? {
      InMeaning(CellOf(row, f.field), CellsOf(f.operand.value));
    }
  }

  lemma CompareEvaluates(columns: set<string>, row: Row, f: Filter)
    requires f.Leaf? && LeafOk(columns, f.field, f.operator, f.operand)
    requires Lower(f.operator) in {"eq", "neq", "gt", "gte", "lt", "lte"}
    requires CompileLeaf(columns, f.field, f.operator, f.operand).Ok?
    ensures Eval(row, CompileLeaf(columns, f.field, f.operator, f.operand).value) == Meaning(columns, row, f)
  {
  }

  predicate Means(t: Truth, holds: bool, fails: bool) {
    (t == True <==> holds) && (t == False <==> fails)
  }

  /** One entry: no condition when it holds no comparison, else one that means the entry. */
  ghost predicate AgreeOne(columns: set<string>, row: Row, f: Filter, cs: seq<Sql>)
    requires WellFormed(columns, f)
  {
    if HasLeaf(f)
    then |cs| == 1 && Means(Eval(row, cs[0]), Holds(columns, row, f), Fails(columns, row, f))
    else cs == []
  }

  /** `cs` are the conditions of the entries that hold a comparison, and mean what those entries mean. */
  ghost predicate AgreeAnd(columns: set<string>, row: Row, fs: seq<Filter>, cs: seq<Sql>)
    requires AllWellFormed(columns, fs)
  {
    Means(AndAll(row, cs), AllHold(columns, row, fs), SomeFails(columns, row, fs))
  }

  ghost predicate AgreeOr(columns: set<string>, row: Row, fs: seq<Filter>, cs: seq<Sql>)
    requires AllWellFormed(columns, fs)
  {
    Means(OrAll(row, cs), SomeHolds(columns, row, fs), AllFail(columns, row, fs))
  }

  lemma SnocHolds(columns: set<string>, row: Row, fs: seq<Filter>, f: Filter)
    requires AllWellFormed(columns, fs + [f]) && AllWellFormed(columns, fs) && WellFormed(columns, f)
    ensures AllHold(columns, row, fs + [f]) <==> AllHold(columns, row, fs) && (HasLeaf(f) ==> Holds(columns, row, f))
    ensures SomeHolds(columns, row, fs + [f]) <==> SomeHolds(columns, row, fs) || (HasLeaf(f) && Holds(columns, row, f))
  {
    var all := fs + [f];
    assert all[|fs|] == f && forall i :: 0 <= i < |fs| ==> all[i] == fs[i];
  }

  lemma SnocFails(columns: set<string>, row: Row, fs: seq<Filter>, f: Filter)
    requires AllWellFormed(columns, fs + [f]) && AllWellFormed(columns, fs) && WellFormed(columns, f)
    ensures AllFail(columns, row, fs + [f]) <==> AllFail(columns, row, fs) && (HasLeaf(f) ==> Fails(columns, row, f))
    ensures SomeFails(columns, row, fs + [f]) <==> SomeFails(columns, row, fs) || (HasLeaf(f) && Fails(columns, row, f))
  {
    var all := fs + [f];
    assert all[|fs|] == f && forall i :: 0 <= i < |fs| ==> all[i] == fs[i];
  }

  lemma SnocLeaf(columns: set<string>, fs: seq<Filter>, f: Filter)
    ensures NoLeaf(fs + [f]) <==> NoLeaf(fs) && !HasLeaf(f)
    ensures AllWellFormed(columns, fs + [f]) <==> AllWellFormed(columns, fs) && WellFormed(columns, f)
  {
    var all := fs + [f];
    assert all[|fs|] == f && forall i :: 0 <= i < |fs| ==> all[i] == fs[i];
  }

  lemma SnocEval(row: Row, cs: seq<Sql>, c: Sql)
    ensures AndAll(row, cs + [c]) == AndT(AndAll(row, cs), Eval(row, c))
    ensures OrAll(row, cs + [c]) == OrT(OrAll(row, cs), Eval(row, c))
  {
    assert (cs + [c])[..|cs|] == cs;
  }

  lemma AndLogic(row: Row, cs: seq<Sql>, more: seq<Sql>, leaf: bool, holds: bool, fails: bool, all: bool, some: bool)
    requires Means(AndAll(row, cs), all, some)
    requires if leaf then |more| == 1 && Means(Eval(row, more[0]), holds, fails) else more == []
    ensures Means(AndAll(row, cs + more), all && (leaf ==> holds), some || (leaf && fails))
  {
    if leaf {
      assert cs + more == cs + [more[0]];
      SnocEval(row, cs, more[0]);
    } else {
      assert cs + more == cs;
    }
  }

  lemma OrLogic(row: Row, cs: seq<Sql>, more: seq<Sql>, leaf: bool, holds: bool, fails: bool, all: bool, some: bool)
    requires Means(OrAll(row, cs), some, all)
    requires if leaf then |more| == 1 && Means(Eval(row, more[0]), holds, fails) else more == []
    ensures Means(OrAll(row, cs + more), some || (leaf && holds), all && (leaf ==> fails))
  {
    if leaf {
      assert cs + more == cs + [more[0]];
      SnocEval(row, cs, more[0]);
    } else {
      assert cs + more == cs;
    }
  }

  lemma AndSnoc(columns: set<string>, row: Row, fs: seq<Filter>, f: Filter, cs: seq<Sql>, more: seq<Sql>)
    requires AllWellFormed(columns, fs) && WellFormed(columns, f) && AllWellFormed(columns, fs + [f])
    requires AgreeAnd(columns, row, fs, cs) && AgreeOne(columns, row, f, more)
    ensures AgreeAnd(columns, row, fs + [f], cs + more)
  {
    SnocHolds(columns, row, fs, f);
    SnocFails(columns, row, fs, f);
    AndLogic(row, cs, more, HasLeaf(f), Holds(columns, row, f), Fails(columns, row, f),
             AllHold(columns, row, fs), SomeFails(columns, row, fs));
  }

  lemma OrSnoc(columns: set<string>, row: Row, fs: seq<Filter>, f: Filter, cs: seq<Sql>, more: seq<Sql>)
    requires AllWellFormed(columns, fs) && WellFormed(columns, f) && AllWellFormed(columns, fs + [f])
    requires AgreeOr(columns, row, fs, cs) && AgreeOne(columns, row, f, more)
    ensures AgreeOr(columns, row, fs + [f], cs + more)
  {
    SnocHolds(columns, row, fs, f);
    SnocFails(columns, row, fs, f);
    OrLogic(row, cs, more, HasLeaf(f), Holds(columns, row, f), Fails(columns, row, f),
            AllFail(columns, row, fs), SomeHolds(columns, row, fs));
  }

  lemma {:induction false} EntriesMeaning(columns: set<string>, row: Row, fs: seq<Filter>)
    ensures CompileAll(columns, fs).Ok? <==> AllWellFormed(columns, fs)
    ensures AllWellFormed(columns, fs) ==>
      var cs := CompileAll(columns, fs).value;
      (cs == [] <==> NoLeaf(fs)) && AgreeAnd(columns, row, fs, cs) && AgreeOr(columns, row, fs, cs)
    decreases fs, 2
  {
    if fs != [] {
      var front, last := fs[..|fs| - 1], fs[|fs| - 1];
      EntriesMeaning(columns, row, front);
      EntryMeaning(columns, row, last);
      assert fs == front + [last];
      SnocLeaf(columns, front, last);
      if AllWellFormed(columns, fs) {
        var cs, more := CompileAll(columns, front).value, CompileEntry(columns, last).value;
        AndSnoc(columns, row, front, last, cs, more);
        OrSnoc(columns, row, front, last, cs, more);
      }
    }
  }

  lemma {:induction false} EntryMeaning(columns: set<string>, row: Row, f: Filter)
    ensures CompileEntry(columns, f).Ok? <==> WellFormed(columns, f)
    ensures WellFormed(columns, f) ==> AgreeOne(columns, row, f, CompileEntry(columns, f).value)
    decreases f, 1
  {
    match f
    case Group(_, _) => GroupMeaning(columns, row, f);
    case Leaf(_, _, _) => LeafMeaning(columns, row, f);
    case _ =>
  }

  lemma {:induction false} GroupMeaning(columns: set<string>, row: Row, f: Filter)
    requires f.Group?
    ensures Compile(columns, f).Ok? <==> WellFormed(columns, f)
    ensures WellFormed(columns, f) ==> AgreeOne(columns, row, f, Compile(columns, f).value)
    decreases f, 0
  {
    EntriesMeaning(columns, row, f.conditions);
    assert WellFormed(columns, f) <==> Lower(f.operator) in {"and", "or"} && AllWellFormed(columns, f.conditions);
  }

  // ---------------------------------------------------------------- main results

  /** The compiler refuses exactly the ill-formed groups, and compiles nothing exactly where no group holds a
      comparison: a caller that passes it a bare comparison has it ignored, however ill-formed it is. */
  lemma CompilesIff(columns: set<string>, f: Filter)
    ensures Compile(columns, f).Ok? <==> (f.Group? ==> WellFormed(columns, f))
    ensures Compile(columns, f) == Ok([]) <==> !f.Group? || (WellFormed(columns, f) && !HasLeaf(f))
  {
    if f.Group? {
      GroupMeaning(columns, map[], f);
    }
  }

  /** An entry of a group as the request schema lets it through: nested groups, and comparisons under a known
      operator. The dump that follows drops a null value. */
  predicate FromSchema(f: Filter) {
    match f
    case Group(operator, conditions) =>
      operator in {"AND", "OR"} && forall i :: 0 <= i < |conditions| ==> FromSchema(conditions[i])
    case Leaf(_, operator, _) => operator in OPERATORS
    case _ => false
  }

  const DATA_ERRORS: set<Error> := {MissingValue, UnknownField, BadOperand, BadBetween}

  lemma {:induction false} EntriesFromSchema(columns: set<string>, fs: seq<Filter>)
    requires forall i :: 0 <= i < |fs| ==> FromSchema(fs[i])
    ensures CompileAll(columns, fs).Err? ==> CompileAll(columns, fs).error in DATA_ERRORS
    ensures NoLeaf(fs) ==> AllWellFormed(columns, fs)
    decreases fs, 1
  {
    if fs != [] {
      var front, last := fs[..|fs| - 1], fs[|fs| - 1];
      EntriesFromSchema(columns, front);
      assert fs == front + [last];
      SnocLeaf(columns, front, last);
      if last.Group? {
        SchemaFiltersAreNeverIgnored(columns, last);
      } else {
        LowerOperator(last.operator);
      }
    }
  }

  lemma LowerOperator(name: string)
    requires name in OPERATORS
    ensures Lower(name) == name
  {
    assert forall i :: 0 <= i < |name| ==> LowerChar(name[i]) == name[i];
  }

  /** Whatever the request schema lets through has its comparisons applied: only a comparison's own field or value
      can be refused, and nothing is compiled exactly when the request holds no comparison at all. */
  lemma {:induction false} SchemaFiltersAreNeverIgnored(columns: set<string>, f: Filter)
    requires f.Group? && FromSchema(f)
    ensures Compile(columns, f).Err? ==> Compile(columns, f).error in DATA_ERRORS
    ensures !HasLeaf(f) ==> WellFormed(columns, f)
    ensures Compile(columns, f) == Ok([]) <==> !HasLeaf(f)
    decreases f, 0
  {
    EntriesFromSchema(columns, f.conditions);
    assert Lower("AND") == "and" && Lower("OR") == "or";
    GroupMeaning(columns, map[], f);
  }

  /** The one condition compiled evaluates, on every row and with every null, to what the request means. */
  lemma CompiledMeaning(columns: set<string>, row: Row, f: Filter)
    requires f.Group? && WellFormed(columns, f) && HasLeaf(f)
    ensures Compile(columns, f).Ok? && |Compile(columns, f).value| == 1
    ensures Eval(row, Compile(columns, f).value[0]) == Meaning(columns, row, f)
    ensures !(Holds(columns, row, f) && Fails(columns, row, f))
  {
    GroupMeaning(columns, row, f);
  }

  /** The rows the query keeps: WHERE keeps those for which every condition is true. */
  predicate Selected(row: Row, conditions: seq<Sql>) {
    forall i :: 0 <= i < |conditions| ==> Eval(row, conditions[i]) == True
  }

  /** A well-formed filter keeps exactly the rows it holds for; without a comparison it keeps every row. */
  lemma SelectedIff(columns: set<string>, row: Row, f: Filter)
    requires f.Group? && WellFormed(columns, f)
    ensures Compile(columns, f).Ok?
    ensures Selected(row, Compile(columns, f).value) <==> !HasLeaf(f) || Holds(columns, row, f)
  {
    GroupMeaning(columns, row, f);
  }

  // ---------------------------------------------------------------- LIKE

  /** What a pattern matches, by its first character: a per cent sign any run, an underscore any one character, a
      backslash the next character itself, and any other character itself. */
  lemma LikeIs(s: string, c: char, rest: string)
    ensures Matches(s, "") <==> s == ""
    ensures c == '%' ==> (Matches(s, [c] + rest) <==> exists i :: 0 <= i <= |s| && Matches(s[i..], rest))
    ensures c == '_' ==> (Matches(s, [c] + rest) <==> s != "" && Matches(s[1..], rest))
    ensures c == '\\' && rest != "" ==>
      (Matches(s, [c] + rest) <==> s != "" && s[0] == rest[0] && Matches(s[1..], rest[1..]))
    ensures c !in {'%', '_', '\\'} ==> (Matches(s, [c] + rest) <==> s != "" && s[0] == c && Matches(s[1..], rest))
  {
    assert ([c] + rest)[1..] == rest;
    if c == '%' {
      PercentIs(s, rest);
    } else if c == '\\' && rest != "" {
      assert ([c] + rest)[2..] == rest[1..];
    }
  }

  lemma {:induction false} PercentIs(s: string, rest: string)
    ensures Matches(s, "%" + rest) <==> exists i :: 0 <= i <= |s| && Matches(s[i..], rest)
  {
    assert ("%" + rest)[1..] == rest && s[0..] == s;
    if s != "" {
      PercentIs(s[1..], rest);
      forall i | 1 <= i <= |s| ensures s[i..] == s[1..][i - 1..] {
      }
      if i :| 0 <= i <= |s[1..]| && Matches(s[1..][i..], rest) {
        assert s[i + 1..] == s[1..][i..];
      }
    }
  }

  // ---------------------------------------------------------------- LIKE on plain text

  predicate Plain(text: string) {
    '%' !in text && '_' !in text && '\\' !in text
  }

  lemma {:induction false} PlainPrefix(s: string, text: string)
    requires Plain(text)
    ensures Matches(s, text + "%") <==> text <= s
  {
    var pattern := text + "%";
    if text == "" {
      assert pattern == "%";
      AnyTail(s);
    } else {
      assert pattern[1..] == text[1..] + "%";
      if s != "" && s[0] == text[0] {
        PlainPrefix(s[1..], text[1..]);
        assert s == [s[0]] + s[1..] && text == [text[0]] + text[1..];
      }
    }
  }

  lemma {:induction false} AnyTail(s: string)
    ensures Matches(s, "%")
  {
    assert "%"[1..] == "";
    if s != "" {
      AnyTail(s[1..]);
    }
  }

  lemma ContainsTail(s: string, text: string)
    requires s != ""
    ensures Contains(s, text) <==> text <= s || Contains(s[1..], text)
  {
    if text <= s {
      assert OccursAt(s, text, 0);
    }
    if i :| 0 <= i <= |s[1..]| - |text| && OccursAt(s[1..], text, i) {
      assert s[i + 1..i + 1 + |text|] == s[1..][i..i + |text|];
      assert OccursAt(s, text, i + 1);
    }
    if i :| 0 <= i <= |s| - |text| && OccursAt(s, text, i) {
      if i > 0 {
        assert s[1..][i - 1..i - 1 + |text|] == s[i..i + |text|];
        assert OccursAt(s[1..], text, i - 1);
      } else {
        assert text == s[..|text|];
      }
    }
  }

  /** For text without wildcards, the pattern built around it matches exactly the strings that contain it. */
  lemma {:induction false} PlainLikeIsContains(s: string, text: string)
    requires Plain(text)
    ensures Matches(s, "%" + text + "%") <==> Contains(s, text)
  {
    var pattern := "%" + text + "%";
    assert pattern[1..] == text + "%";
    PlainPrefix(s, text);
    if s == "" {
      EmptyContains(text);
    } else {
      ContainsTail(s, text);
      PlainLikeIsContains(s[1..], text);
    }
  }

  lemma EmptyContains(text: string)
    ensures Contains("", text) <==> text == ""
  {
    assert text == "" ==> OccursAt("", text, 0);
  }
}
