/** The ClickHouse query builder: WHERE text with placeholders, its arguments, and what a
    database makes of the two. */
module SqlBuilder {
  import opened Optional
  import opened Text

  datatype Operator = Equal | NotEqual | Greater | GreaterEqual | Less | LessEqual | Like | In | NotIn | Between

  /** A bound value: a number, a text, or the slice given to IN. */
  datatype Value = Num(n: int) | Str(s: string) | Many(vs: seq<Value>)

  datatype Filter = Filter(field: string, op: Operator, value: Value, endValue: Value)

  // -------------------------------------------------------------- the builder

  function Symbol(op: Operator): string {
    match op
    case Equal => "="
    case NotEqual => "!="
    case Greater => ">"
    case GreaterEqual => ">="
    case Less => "<"
    case LessEqual => "<="
    case Like => "LIKE"
    case In => "IN"
    case NotIn => "NOT IN"
    case Between => "BETWEEN"
  }

  /** The text of one condition. */
  function Part(field: string, op: Operator): string {
    field + " " + OpText(op)
  }

  function OpText(op: Operator): string {
    match op
    case In => "IN (?)"
    case NotIn => "NOT IN (?)"
    case Between => "BETWEEN ? AND ?"
    case _ => Symbol(op) + " ?"
  }

  function Args(f: Filter): seq<Value> {
    if f.op.Between? then [f.value, f.endValue] else [f.value]
  }

  function Parts(filters: seq<Filter>): seq<string> {
    if filters == [] then []
    else Parts(filters[..|filters| - 1]) + [Part(filters[|filters| - 1].field, filters[|filters| - 1].op)]
  }

  function AllArgs(filters: seq<Filter>): seq<Value> {
    if filters == [] then [] else AllArgs(filters[..|filters| - 1]) + Args(filters[|filters| - 1])
  }

  /** The WHERE clause of some conditions; none without conditions. */
  function WhereOf(parts: seq<string>): Option<string> {
    if parts == [] then None else Some(JoinWith(parts, " AND "))
  }

  /** A finished query; an absent ORDER BY, LIMIT or OFFSET is "" or 0. */
  datatype Query =
    | Select(cols: seq<string>, table: string, where: Option<string>, orderBy: string, limit: nat, offset: nat)
    | Count(table: string, where: Option<string>)

  function WhereText(where: Option<string>): string {
    if where.None? then "" else " WHERE " + where.value
  }

  /** The text of a query. */
  function Render(q: Query): string {
    match q
    case Count(table, where) => "SELECT COUNT(*) FROM " + table + WhereText(where)
    case Select(cols, table, where, orderBy, limit, offset) =>
      HeadText(cols, table, where) + TailText(orderBy, limit, offset)
  }

  function HeadText(cols: seq<string>, table: string, where: Option<string>): string {
    "SELECT " + (if cols == [] then "*" else JoinWith(cols, ", ")) + " FROM " + table + WhereText(where)
  }

  function TailText(orderBy: string, limit: nat, offset: nat): string {
    OrderText(orderBy) + NumberText("LIMIT", limit) + NumberText("OFFSET", offset)
  }

  function OrderText(orderBy: string): string {
    if orderBy == "" then "" else " ORDER BY " + orderBy
  }

  function NumberText(key: string, n: nat): string {
    if n == 0 then "" else " " + key + " " + Itoa(n)
  }

  class Builder {
    const table: string
    var selectCols: seq<string>
    var whereParts: seq<string>
    var whereArgs: seq<Value>
    var orderBy: string
    var limit: int
    var offset: int

    constructor (table: string)
      ensures this.table == table && selectCols == [] && whereParts == [] && whereArgs == []
      ensures orderBy == "" && limit == 0 && offset == 0
    {
      this.table := table;
      selectCols, whereParts, whereArgs, orderBy, limit, offset := [], [], [], "", 0, 0;
    }

    /** Called directly with BETWEEN this adds two placeholders but one argument. */
    method Where(field: string, op: Operator, value: Value)
      modifies this`whereParts, this`whereArgs
      ensures whereParts == old(whereParts) + [Part(field, op)]
      ensures whereArgs == old(whereArgs) + [value]
    {
      var part;
      match op {
        case In => part := field + " " + Symbol(op) + " (?)";
        case NotIn => part := field + " " + Symbol(op) + " (?)";
        case Between => part := field + " BETWEEN ? AND ?";
        case _ => part := field + " " + Symbol(op) + " ?";
      }
      assert part == Part(field, op);
      whereParts := whereParts + [part];
      whereArgs := whereArgs + [value];
    }

    method WhereFilter(f: Filter)
      modifies this`whereParts, this`whereArgs
      ensures whereParts == old(whereParts) + [Part(f.field, f.op)]
      ensures whereArgs == old(whereArgs) + Args(f)
    {
      if f.op == Between {
        assert f.field + " BETWEEN ? AND ?" == Part(f.field, Between);
        whereParts := whereParts + [f.field + " BETWEEN ? AND ?"];
        whereArgs := whereArgs + [f.value, f.endValue];
      } else {
        Where(f.field, f.op, f.value);
      }
    }

    method WhereFilters(filters: seq<Filter>)
      modifies this`whereParts, this`whereArgs
      ensures whereParts == old(whereParts) + Parts(filters)
      ensures whereArgs == old(whereArgs) + AllArgs(filters)
    {
      for i := 0 to |filters|
        invariant whereParts == old(whereParts) + Parts(filters[..i])
        invariant whereArgs == old(whereArgs) + AllArgs(filters[..i])
      {
        assert filters[..i + 1][..i] == filters[..i];
        WhereFilter(filters[i]);
      }
      assert filters[..|filters|] == filters;
    }

    /** A limit or offset that is not positive is left off. */
    method BuildSelect() returns (text: string, args: seq<Value>)
      ensures text == Render(Select(selectCols, table, WhereOf(whereParts), orderBy,
                                    if limit > 0 then limit else 0, if offset > 0 then offset else 0))
      ensures args == whereArgs
    {
      text := "SELECT ";
      if |selectCols| > 0 {
        text := text + JoinWith(selectCols, ", ");
      } else {
        text := text + "*";
      }
      text := text + " FROM " + table;
      if |whereParts| > 0 {
        text := text + " WHERE " + JoinWith(whereParts, " AND ");
      }
      assert text == HeadText(selectCols, table, WhereOf(whereParts));
      var tail := BuildTail();
      text := text + tail;
      args := whereArgs;
    }

    /** ORDER BY, LIMIT and OFFSET. */
    method BuildTail() returns (text: string)
      ensures text == TailText(orderBy, if limit > 0 then limit else 0, if offset > 0 then offset else 0)
    {
      text := "";
      if orderBy != "" {
        text := " ORDER BY " + orderBy;
      }
      if limit > 0 {
        text := text + (" " + "LIMIT" + " " + Itoa(limit));
      }
      if offset > 0 {
        text := text + (" " + "OFFSET" + " " + Itoa(offset));
      }
    }

    method BuildCount() returns (text: string, args: seq<Value>)
      ensures text == Render(Count(table, WhereOf(whereParts)))
      ensures args == whereArgs
    {
      text := "SELECT COUNT(*) FROM ";
      text := text + table;
      if |whereParts| > 0 {
        text := text + " WHERE ";
        text := text + JoinWith(whereParts, " AND ");
      }
      args := whereArgs;
    }
  }

  // --------------------------------------------------- the database's reading

  /** The words of a text: what lies between blanks. */
  function Words(text: string): seq<string> {
    NonEmpty(Split(text, ' '))
  }

  function NonEmpty(parts: seq<string>): seq<string> {
    if parts == [] then []
    else if parts[0] == "" then NonEmpty(parts[1..])
    else [parts[0]] + NonEmpty(parts[1..])
  }

  /** A condition as parsed, before its placeholders are bound. */
  datatype Shape = Shape(field: string, op: Operator)

  function SimpleOperator(word: string): Option<Operator> {
    if word == "=" then Some(Equal)
    else if word == "!=" then Some(NotEqual)
    else if word == ">" then Some(Greater)
    else if word == ">=" then Some(GreaterEqual)
    else if word == "<" then Some(Less)
    else if word == "<=" then Some(LessEqual)
    else if word == "LIKE" then Some(Like)
    else None
  }

  /** Reads one condition off the front; the AND inside BETWEEN belongs to it. */
  function ParseOne(ws: seq<string>): Option<(Shape, seq<string>)> {
    if |ws| >= 5 && ws[1..5] == ["BETWEEN", "?", "AND", "?"] then Some((Shape(ws[0], Between), ws[5..]))
    else if |ws| >= 4 && ws[1..4] == ["NOT", "IN", "(?)"] then Some((Shape(ws[0], NotIn), ws[4..]))
    else if |ws| >= 3 && ws[1..3] == ["IN", "(?)"] then Some((Shape(ws[0], In), ws[3..]))
    else if |ws| >= 3 && SimpleOperator(ws[1]).Some? && ws[2] == "?"
    then Some((Shape(ws[0], SimpleOperator(ws[1]).value), ws[3..]))
    else None
  }

  /** Reads conditions separated by AND to the end of the words. */
  function Parse(ws: seq<string>): Option<seq<Shape>>
    decreases |ws|
  {
    var first := ParseOne(ws);
    if first.None? then None
    else
      var (shape, rest) := first.value;
      if rest == [] then Some([shape])
      else if rest[0] != "AND" then None
      else
        var others := Parse(rest[1..]);
        if others.None? then None else Some([shape] + others.value)
  }

  /** Binds arguments to placeholders from left to right; every argument must be used. */
  function Bind(shapes: seq<Shape>, args: seq<Value>): Option<seq<Filter>> {
    if shapes == [] then (if args == [] then Some([]) else None)
    else
      var n := if shapes[0].op.Between? then 2 else 1;
      if |args| < n then None
      else
        var rest := Bind(shapes[1..], args[n..]);
        if rest.None? then None
        else Some([Filter(shapes[0].field, shapes[0].op, args[0], args[n - 1])] + rest.value)
  }

  /** How many placeholders a text has. */
  function Placeholders(text: string): nat {
    if text == "" then 0 else (if text[0] == '?' then 1 else 0) + Placeholders(text[1..])
  }

  type Row = map<string, Value>

  /** Whether a row passes one condition; a row without the column does not. */
  predicate Holds(f: Filter, row: Row) {
    f.field in row && Compare(f.op, row[f.field], f.value, f.endValue)
  }

  predicate AtMost(a: Value, b: Value) {
    a.Num? && b.Num? && a.n <= b.n
  }

  predicate Compare(op: Operator, cell: Value, v: Value, end: Value) {
    match op
    case Equal => cell == v
    case NotEqual => cell != v
    case Greater => AtMost(v, cell) && cell != v
    case GreaterEqual => AtMost(v, cell)
    case Less => AtMost(cell, v) && cell != v
    case LessEqual => AtMost(cell, v)
    case Like => cell.Str? && v.Str? && LikePattern(cell.s, v.s)
    case In => v.Many? && cell in v.vs
    case NotIn => v.Many? && cell !in v.vs
    case Between => AtMost(v, cell) && AtMost(cell, end)
  }

  predicate LikePattern(s: string, p: string)
    decreases |s| + |p|
  {
    if p == "" then s == ""
    else if p[0] == '%' then LikePattern(s, p[1..]) || (s != "" && LikePattern(s[1..], p))
    else s != "" && (p[0] == '_' || p[0] == s[0]) && LikePattern(s[1..], p[1..])
  }

  /** The filters that the words of a WHERE clause and the arguments make; None if they are malformed. */
  function Bound(where: Option<seq<string>>, args: seq<Value>): Option<seq<Filter>> {
    var shapes := if where.None? then Some([]) else Parse(where.value);
    if shapes.None? then None else Bind(shapes.value, args)
  }

  function WordsOf(where: Option<string>): Option<seq<string>> {
    if where.None? then None else Some(Words(where.value))
  }

  function MarksOf(where: Option<string>): nat {
    if where.None? then 0 else Placeholders(where.value)
  }

  /** What the WHERE text with its arguments says about a row; None if it is malformed, as it is when
      placeholders and arguments are not equally many. */
  function Reads(where: Option<string>, args: seq<Value>, row: Row): Option<bool> {
    var bound := Bound(WordsOf(where), args);
    if MarksOf(where) != |args| || bound.None? then None else Some(AllHold(bound.value, row))
  }

  predicate AllHold(filters: seq<Filter>, row: Row) {
    forall i :: 0 <= i < |filters| ==> Holds(filters[i], row)
  }

  // ------------------------------------------------------------ text and words

  /** A word: not empty and without blanks. */
  predicate IsWord(s: string) {
    s != "" && ' ' !in s
  }

  predicate AreWords(ws: seq<string>) {
    forall i :: 0 <= i < |ws| ==> IsWord(ws[i])
  }

  predicate WordFields(filters: seq<Filter>) {
    forall i :: 0 <= i < |filters| ==> IsWord(filters[i].field)
  }

  /** A field name that survives: a word without a question mark. */
  predicate IsName(s: string) {
    IsWord(s) && '?' !in s
  }

  predicate PlainFields(filters: seq<Filter>) {
    forall i :: 0 <= i < |filters| ==> IsName(filters[i].field)
  }

  lemma {:induction false} NonEmptyIsWords(parts: seq<string>)
    requires forall i :: 0 <= i < |parts| ==> ' ' !in parts[i]
    ensures AreWords(NonEmpty(parts))
    ensures AreWords(parts) ==> NonEmpty(parts) == parts
  {
    if parts == [] {
    } else {
      NonEmptyIsWords(parts[1..]);
      assert parts == [parts[0]] + parts[1..];
    }
  }

  lemma WordsAreWords(text: string)
    ensures AreWords(Words(text))
  {
    JoinSplit(text, ' ');
    NonEmptyIsWords(Split(text, ' '));
  }

  /** Words joined by single blanks are read back. */
  lemma WordsOfJoin(ws: seq<string>)
    requires AreWords(ws) && ws != []
    ensures Words(Join(ws, ' ')) == ws
  {
    SplitJoin(ws, ' ');
    NonEmptyIsWords(ws);
  }

  /** The words after the field of a condition. */
  function OpWords(op: Operator): seq<string> {
    match op
    case In => ["IN", "(?)"]
    case NotIn => ["NOT", "IN", "(?)"]
    case Between => ["BETWEEN", "?", "AND", "?"]
    case _ => [Symbol(op), "?"]
  }

  function PartWords(field: string, op: Operator): seq<string> {
    [field] + OpWords(op)
  }

  function AllWords(filters: seq<Filter>): seq<string> {
    if |filters| == 0 then []
    else if |filters| == 1 then PartWords(filters[0].field, filters[0].op)
    else PartWords(filters[0].field, filters[0].op) + ["AND"] + AllWords(filters[1..])
  }

  lemma JoinTwo(a: string, b: string)
    ensures Join([a, b], ' ') == a + " " + b
  {
    assert [a, b][1..] == [b];
  }

  lemma JoinCons(a: string, ws: seq<string>)
    requires ws != []
    ensures Join([a] + ws, ' ') == a + " " + Join(ws, ' ')
  {
    JoinAppend([a], ws, ' ');
  }

  lemma BetweenText()
    ensures Join(["BETWEEN", "?", "AND", "?"], ' ') == "BETWEEN ? AND ?"
  {
    JoinTwo("AND", "?");
    JoinCons("?", ["AND", "?"]);
    JoinCons("BETWEEN", ["?", "AND", "?"]);
    assert ["?"] + ["AND", "?"] == ["?", "AND", "?"];
    assert ["BETWEEN"] + ["?", "AND", "?"] == ["BETWEEN", "?", "AND", "?"];
  }

  lemma NotInText()
    ensures Join(["NOT", "IN", "(?)"], ' ') == "NOT IN (?)"
  {
    JoinTwo("IN", "(?)");
    JoinCons("NOT", ["IN", "(?)"]);
    assert ["NOT"] + ["IN", "(?)"] == ["NOT", "IN", "(?)"];
  }

  lemma OpWordsText(op: Operator)
    ensures Join(OpWords(op), ' ') == OpText(op)
  {
    match op
    case Between => BetweenText();
    case NotIn => NotInText();
    case In => InText();
    case _ => JoinTwo(Symbol(op), "?");
  }

  lemma InText()
    ensures Join(["IN", "(?)"], ' ') == "IN (?)"
  {
    JoinTwo("IN", "(?)");
  }

  /** The text of a condition is its words, joined by blanks. */
  lemma PartIsWords(field: string, op: Operator)
    ensures Part(field, op) == Join(PartWords(field, op), ' ')
  {
    OpWordsText(op);
    JoinCons(field, OpWords(op));
  }

  /** Parts and arguments read front to back. */
  lemma FrontToBack(f: Filter, filters: seq<Filter>)
    ensures Parts([f] + filters) == [Part(f.field, f.op)] + Parts(filters)
    ensures AllArgs([f] + filters) == Args(f) + AllArgs(filters)
  {
    PartsCons(f, filters);
    ArgsCons(f, filters);
  }

  lemma {:induction false} PartsCons(f: Filter, filters: seq<Filter>)
    ensures Parts([f] + filters) == [Part(f.field, f.op)] + Parts(filters)
  {
    var all, n := [f] + filters, |filters|;
    if filters == [] {
      assert all[0] == f && all[..0] == [];
    } else {
      PartsCons(f, filters[..n - 1]);
      assert all[..n] == [f] + filters[..n - 1] && all[n] == filters[n - 1];
    }
  }

  lemma {:induction false} ArgsCons(f: Filter, filters: seq<Filter>)
    ensures AllArgs([f] + filters) == Args(f) + AllArgs(filters)
  {
    var all, n := [f] + filters, |filters|;
    if filters == [] {
      assert all[0] == f && all[..0] == [];
    } else {
      ArgsCons(f, filters[..n - 1]);
      assert all[..n] == [f] + filters[..n - 1] && all[n] == filters[n - 1];
    }
  }

  lemma {:induction false} PartsLength(filters: seq<Filter>)
    ensures |Parts(filters)| == |filters|
  {
    if filters == [] {
    } else {
      PartsLength(filters[..|filters| - 1]);
    }
  }

  /** The text of some filters, one more in front. */
  lemma JoinPartsCons(f: Filter, tail: seq<Filter>)
    requires tail != []
    ensures JoinWith(Parts([f] + tail), " AND ") == Part(f.field, f.op) + " AND " + JoinWith(Parts(tail), " AND ")
  {
    FrontToBack(f, tail);
    PartsLength(tail);
    assert ([Part(f.field, f.op)] + Parts(tail))[1..] == Parts(tail);
  }

  lemma JoinPartsOne(f: Filter)
    ensures JoinWith(Parts([f]), " AND ") == Part(f.field, f.op)
  {
    FrontToBack(f, []);
    assert [f] + [] == [f];
  }

  /** So is the whole WHERE text. */
  lemma {:induction false} TextIsWords(filters: seq<Filter>)
    requires filters != []
    ensures AllWords(filters) != [] && JoinWith(Parts(filters), " AND ") == Join(AllWords(filters), ' ')
  {
    var f, tail := filters[0], filters[1..];
    assert filters == [f] + tail;
    PartIsWords(f.field, f.op);
    if tail == [] {
      JoinPartsOne(f);
    } else {
      TextIsWords(tail);
      JoinPartsCons(f, tail);
      JoinAndWords(PartWords(f.field, f.op), AllWords(tail));
    }
  }

  lemma JoinAndWords(ws: seq<string>, more: seq<string>)
    requires ws != [] && more != []
    ensures Join(ws + ["AND"] + more, ' ') == Join(ws, ' ') + " AND " + Join(more, ' ')
  {
    JoinAppend(ws + ["AND"], more, ' ');
    JoinAppend(ws, ["AND"], ' ');
    var a, b := Join(ws, ' '), Join(more, ' ');
    assert a + [' '] + "AND" + [' '] + b == a + " AND " + b;
  }

  lemma OpWordsAreWords(op: Operator)
    ensures AreWords(OpWords(op))
  {
  }

  lemma {:induction false} AllWordsAreWords(filters: seq<Filter>)
    requires WordFields(filters)
    ensures AreWords(AllWords(filters))
  {
    if filters == [] {
    } else {
      OpWordsAreWords(filters[0].op);
      AllWordsAreWords(filters[1..]);
    }
  }

  // ---------------------------------------------------------------- reading back

  function Shapes(filters: seq<Filter>): (s: seq<Shape>)
    ensures |s| == |filters|
  {
    if filters == [] then [] else [Shape(filters[0].field, filters[0].op)] + Shapes(filters[1..])
  }

  lemma {:induction false} ShapeAt(filters: seq<Filter>, i: nat)
    requires i < |filters|
    ensures Shapes(filters)[i] == Shape(filters[i].field, filters[i].op)
  {
    if i == 0 {
    } else {
      ShapeAt(filters[1..], i - 1);
    }
  }

  lemma ParsePart(field: string, op: Operator, rest: seq<string>)
    ensures ParseOne(PartWords(field, op) + rest) == Some((Shape(field, op), rest))
  {
    var ops := OpWords(op);
    var ws := PartWords(field, op) + rest;
    assert ws[1..1 + |ops|] == ops && ws[1 + |ops|..] == rest;
    assert ws[1] == ops[0];
    if !op.Between? && !op.In? && !op.NotIn? {
      assert ws[2] == "?" && SimpleOperator(ws[1]) == Some(op);
      assert |ws| >= 5 ==> ws[1..5][0] == ws[1];
      assert |ws| >= 4 ==> ws[1..4][0] == ws[1];
      assert ws[1..3][0] == ws[1];
    } else if op.In? {
      assert |ws| >= 5 ==> ws[1..5][0] == ws[1];
      assert |ws| >= 4 ==> ws[1..4][0] == ws[1];
    } else if op.NotIn? {
      assert |ws| >= 5 ==> ws[1..5][0] == ws[1];
    }
  }

  lemma ParseLast(field: string, op: Operator)
    ensures Parse(PartWords(field, op)) == Some([Shape(field, op)])
  {
    ParsePart(field, op, []);
    assert PartWords(field, op) + [] == PartWords(field, op);
  }

  /** One condition in front of others, joined with AND, is read off first. */
  lemma ParseCons(field: string, op: Operator, more: seq<string>)
    requires Parse(more).Some?
    ensures Parse(PartWords(field, op) + ["AND"] + more) == Some([Shape(field, op)] + Parse(more).value)
  {
    var rest := ["AND"] + more;
    assert PartWords(field, op) + ["AND"] + more == PartWords(field, op) + rest;
    ParsePart(field, op, rest);
    assert rest[1..] == more;
  }

  /** The words of a non-empty filter list parse back to its conditions: no AND is misread. */
  lemma {:induction false} ParseInvertsWords(filters: seq<Filter>)
    requires filters != []
    ensures Parse(AllWords(filters)) == Some(Shapes(filters))
  {
    var f, tail := filters[0], filters[1..];
    if tail == [] {
      ParseLast(f.field, f.op);
      assert Shapes(filters) == [Shape(f.field, f.op)];
    } else {
      ParseInvertsWords(tail);
      ParseCons(f.field, f.op, AllWords(tail));
    }
  }

  lemma ParseOneTakesField(ws: seq<string>)
    requires ParseOne(ws).Some?
    ensures ws != [] && ParseOne(ws).value.0.field == ws[0]
    ensures forall w :: w in ParseOne(ws).value.1 ==> w in ws
  {
  }

  /** A parsed field is one of the words. */
  lemma {:induction false} FieldsAreWords(ws: seq<string>)
    requires Parse(ws).Some?
    ensures forall i :: 0 <= i < |Parse(ws).value| ==> Parse(ws).value[i].field in ws
    decreases |ws|
  {
    ParseOneTakesField(ws);
    var (shape, rest) := ParseOne(ws).value;
    if rest == [] {
    } else {
      FieldsAreWords(rest[1..]);
      assert forall w :: w in rest[1..] ==> w in rest;
    }
  }

  /** The WHERE text is read back as the filters' conditions if and only if every field is a word:
      not empty and without blanks. */
  lemma ParseInvertsTextIff(filters: seq<Filter>)
    requires filters != []
    ensures Parse(Words(JoinWith(Parts(filters), " AND "))) == Some(Shapes(filters)) <==> WordFields(filters)
  {
    var ws := Words(JoinWith(Parts(filters), " AND "));
    if WordFields(filters) {
      TextIsWords(filters);
      AllWordsAreWords(filters);
      WordsOfJoin(AllWords(filters));
      ParseInvertsWords(filters);
    }
    if Parse(ws) == Some(Shapes(filters)) {
      WordsAreWords(JoinWith(Parts(filters), " AND "));
      FieldsAreWords(ws);
      forall i | 0 <= i < |filters| ensures IsWord(filters[i].field) {
        ShapeAt(filters, i);
        assert Shapes(filters)[i].field in ws;
      }
    }
  }

  /** For example, IN on a field called "x NOT" writes what NOT IN on x writes. */
  lemma SpacedFieldIsMisread(x: string)
    ensures Part(x + " NOT", In) == Part(x, NotIn)
  {
    assert x + " NOT" + " " + "IN (?)" == x + " " + "NOT IN (?)";
  }

  /** Equal up to the end value, which only BETWEEN uses. */
  predicate SameMeaning(f: Filter, g: Filter) {
    f.field == g.field && f.op == g.op && f.value == g.value && (f.op.Between? ==> f.endValue == g.endValue)
  }

  lemma BindCons(shape: Shape, shapes: seq<Shape>, own: seq<Value>, args: seq<Value>)
    requires |own| == (if shape.op.Between? then 2 else 1) && Bind(shapes, args).Some?
    ensures Bind([shape] + shapes, own + args)
            == Some([Filter(shape.field, shape.op, own[0], own[|own| - 1])] + Bind(shapes, args).value)
  {
    assert ([shape] + shapes)[1..] == shapes && (own + args)[|own|..] == args;
  }

  /** Binding the arguments left to right gives the filters back. */
  lemma {:induction false} BindGivesFilters(filters: seq<Filter>)
    ensures
      var bound := Bind(Shapes(filters), AllArgs(filters));
      && bound.Some? && |bound.value| == |filters|
      && forall i :: 0 <= i < |filters| ==> SameMeaning(bound.value[i], filters[i])
  {
    if filters == [] {
    } else {
      var f, tail := filters[0], filters[1..];
      assert filters == [f] + tail;
      ArgsCons(f, tail);
      BindGivesFilters(tail);
      BindCons(Shape(f.field, f.op), Shapes(tail), Args(f), AllArgs(tail));
    }
  }

  lemma SameMeaningHolds(bound: seq<Filter>, filters: seq<Filter>, row: Row)
    requires |bound| == |filters| && forall i :: 0 <= i < |filters| ==> SameMeaning(bound[i], filters[i])
    ensures AllHold(bound, row) <==> AllHold(filters, row)
  {
  }

  /** The WHERE text is read back as the filters' conditions, with as many placeholders as there are
      arguments, if and only if every field is a word without a question mark. */
  lemma WhereIsReadBackIff(filters: seq<Filter>)
    requires filters != []
    ensures
      var text := JoinWith(Parts(filters), " AND ");
      Placeholders(text) == |AllArgs(filters)| && Parse(Words(text)) == Some(Shapes(filters)) <==> PlainFields(filters)
  {
    ParseInvertsTextIff(filters);
    CountsMatchIff(filters);
  }

  /** Then the arguments are bound to give filters of the same meaning. */
  lemma BoundGivesFilters(filters: seq<Filter>)
    requires PlainFields(filters)
    ensures
      var bound := Bound(WordsOf(WhereOf(Parts(filters))), AllArgs(filters));
      && MarksOf(WhereOf(Parts(filters))) == |AllArgs(filters)|
      && bound.Some? && |bound.value| == |filters|
      && forall i :: 0 <= i < |filters| ==> SameMeaning(bound.value[i], filters[i])
  {
    PartsLength(filters);
    BindGivesFilters(filters);
    if filters == [] {
    } else {
      WhereIsReadBackIff(filters);
    }
  }

  /** Main theorem: for any list of filters on such fields, the WHERE text with its placeholders bound
      left to right to the arguments is well formed and means the conjunction of the filters. */
  lemma WhereMeansConjunction(filters: seq<Filter>, row: Row)
    requires PlainFields(filters)
    ensures Reads(WhereOf(Parts(filters)), AllArgs(filters), row) == Some(AllHold(filters, row))
  {
    BoundGivesFilters(filters);
    SameMeaningHolds(Bound(WordsOf(WhereOf(Parts(filters))), AllArgs(filters)).value, filters, row);
  }

  /** A question mark in any field name makes the text malformed, whatever the row. */
  lemma MarkedFieldIsMalformed(filters: seq<Filter>, i: nat, row: Row)
    requires i < |filters| && '?' in filters[i].field
    ensures Reads(WhereOf(Parts(filters)), AllArgs(filters), row) == None
  {
    PartsLength(filters);
    CountsMatchIff(filters);
  }

  // ---------------------------------------------------------------- placeholders

  lemma {:induction false} PlaceholdersConcat(a: string, b: string)
    ensures Placeholders(a + b) == Placeholders(a) + Placeholders(b)
  {
    if a == "" {
      assert a + b == b;
    } else {
      assert (a + b)[1..] == a[1..] + b;
      PlaceholdersConcat(a[1..], b);
    }
  }

  lemma {:induction false} NoPlaceholdersIff(s: string)
    ensures Placeholders(s) == 0 <==> '?' !in s
  {
    if s == "" {
    } else {
      NoPlaceholdersIff(s[1..]);
      assert s == [s[0]] + s[1..];
    }
  }

  lemma OneMark(before: string, after: string)
    requires '?' !in before && '?' !in after
    ensures Placeholders(before + "?" + after) == 1
  {
    NoPlaceholdersIff(before);
    NoPlaceholdersIff(after);
    PlaceholdersConcat(before, "?");
    PlaceholdersConcat(before + "?", after);
    assert "?"[1..] == "" && Placeholders("?") == 1;
  }

  lemma OpPlaceholders(op: Operator)
    ensures Placeholders(OpText(op)) == if op.Between? then 2 else 1
  {
    match op
    case Between =>
      OneMark("BETWEEN ", "");
      OneMark(" AND ", "");
      PlaceholdersConcat("BETWEEN " + "?" + "", " AND " + "?" + "");
      assert OpText(op) == ("BETWEEN " + "?" + "") + (" AND " + "?" + "");
    case In =>
      OneMark("IN (", ")");
      assert OpText(op) == "IN (" + "?" + ")";
    case NotIn =>
      OneMark("NOT IN (", ")");
      assert OpText(op) == "NOT IN (" + "?" + ")";
    case _ =>
      OneMark(Symbol(op) + " ", "");
      assert OpText(op) == Symbol(op) + " " + "?" + "";
  }

  lemma PartPlaceholders(field: string, op: Operator)
    ensures Placeholders(Part(field, op)) == Placeholders(field) + if op.Between? then 2 else 1
  {
    NoPlaceholdersIff(" ");
    PlaceholdersConcat(field, " ");
    PlaceholdersConcat(field + " ", OpText(op));
    OpPlaceholders(op);
  }

  function FieldMarks(filters: seq<Filter>): nat {
    if filters == [] then 0 else Placeholders(filters[0].field) + FieldMarks(filters[1..])
  }

  lemma {:induction false} NoFieldMarksIff(filters: seq<Filter>)
    ensures FieldMarks(filters) == 0 <==> forall i :: 0 <= i < |filters| ==> '?' !in filters[i].field
  {
    if filters == [] {
    } else {
      NoPlaceholdersIff(filters[0].field);
      NoFieldMarksIff(filters[1..]);
      assert filters == [filters[0]] + filters[1..];
    }
  }

  lemma {:induction false} TextPlaceholders(filters: seq<Filter>)
    ensures Placeholders(JoinWith(Parts(filters), " AND ")) == |AllArgs(filters)| + FieldMarks(filters)
  {
    if filters == [] {
    } else {
      var f, tail := filters[0], filters[1..];
      assert filters == [f] + tail;
      FrontToBack(f, tail);
      PartPlaceholders(f.field, f.op);
      if tail == [] {
        JoinPartsOne(f);
      } else {
        TextPlaceholders(tail);
        JoinPartsCons(f, tail);
        AndPlaceholders(Part(f.field, f.op), JoinWith(Parts(tail), " AND "));
      }
    }
  }

  lemma AndPlaceholders(a: string, b: string)
    ensures Placeholders(a + " AND " + b) == Placeholders(a) + Placeholders(b)
  {
    NoPlaceholdersIff(" AND ");
    PlaceholdersConcat(a, " AND ");
    PlaceholdersConcat(a + " AND ", b);
  }

  /** Placeholders and arguments are equally many if and only if no field has a question mark. */
  lemma CountsMatchIff(filters: seq<Filter>)
    ensures Placeholders(JoinWith(Parts(filters), " AND ")) == |AllArgs(filters)| <==>
      forall i :: 0 <= i < |filters| ==> '?' !in filters[i].field
  {
    TextPlaceholders(filters);
    NoFieldMarksIff(filters);
  }

  /** A direct Where keeps them equal exactly when, besides, the operator is not BETWEEN. */
  lemma DirectWhereMatchesIff(text: string, args: seq<Value>, field: string, op: Operator, value: Value)
    requires Placeholders(text) == |args|
    ensures Placeholders(text + " AND " + Part(field, op)) == |args + [value]| <==> !op.Between? && '?' !in field
  {
    AndPlaceholders(text, Part(field, op));
    PartPlaceholders(field, op);
    NoPlaceholdersIff(field);
  }
}
