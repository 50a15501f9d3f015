/** Whole queries: the text of a SELECT or COUNT read back clause by clause, and what running it returns. */
module SqlQueries {
  import opened Optional
  import opened Text
  import opened SqlBuilder

  // ------------------------------------------------------------ reading a query

  /** What a database reads: the words of each clause, [] or 0 for an absent one. */
  datatype Reading = Reading(
    cols: seq<string>, table: string, where: Option<seq<string>>, orderBy: seq<string>, limit: int, offset: int)

  const AFTER_COLS: set<string> := {"FROM"}
  const AFTER_WHERE: set<string> := {"ORDER", "LIMIT", "OFFSET"}
  const AFTER_ORDER: set<string> := {"LIMIT", "OFFSET"}

  /** The words before the first of some keywords. */
  function Until(ws: seq<string>, stops: set<string>): (r: seq<string>)
    ensures |r| <= |ws|
  {
    if ws == [] || ws[0] in stops then [] else [ws[0]] + Until(ws[1..], stops)
  }

  function ReadWhere(ws: seq<string>): (Option<seq<string>>, seq<string>) {
    if ws != [] && ws[0] == "WHERE" then
      var body := Until(ws[1..], AFTER_WHERE);
      (Some(body), ws[1 + |body|..])
    else (None, ws)
  }

  function ReadOrder(ws: seq<string>): (seq<string>, seq<string>) {
    if |ws| >= 2 && ws[0] == "ORDER" && ws[1] == "BY" then
      var body := Until(ws[2..], AFTER_ORDER);
      (body, ws[2 + |body|..])
    else ([], ws)
  }

  function ReadNumber(key: string, ws: seq<string>): (int, seq<string>) {
    if |ws| >= 2 && ws[0] == key then (Atoi(ws[1]), ws[2..]) else (0, ws)
  }

  /** SELECT columns FROM table and then the optional clauses, to the end. */
  function ReadQuery(ws: seq<string>): Option<Reading> {
    if ws == [] || ws[0] != "SELECT" then None
    else
      var cols := Until(ws[1..], AFTER_COLS);
      var rest := ws[1 + |cols|..];
      if |rest| < 2 then None
      else
        var (where, orderBy, limit, offset, left) := ReadTail(rest[2..]);
        if left != [] then None else Some(Reading(cols, rest[1], where, orderBy, limit, offset))
  }

  /** The clauses after the table, and what is left unread. */
  function ReadTail(ws: seq<string>): (Option<seq<string>>, seq<string>, int, int, seq<string>) {
    var (where, r1) := ReadWhere(ws);
    var (orderBy, r2) := ReadOrder(r1);
    var (limit, r3) := ReadNumber("LIMIT", r2);
    var (offset, r4) := ReadNumber("OFFSET", r3);
    (where, orderBy, limit, offset, r4)
  }

  // ----------------------------------------------------------- the words of a text

  function ColsText(q: Query): string {
    if q.Count? then "COUNT(*)" else if q.cols == [] then "*" else JoinWith(q.cols, ", ")
  }

  function WhereWords(where: Option<string>): seq<string> {
    if where.None? then [] else ["WHERE"] + Words(where.value)
  }

  function OrderWords(orderBy: string): seq<string> {
    if orderBy == "" then [] else ["ORDER", "BY"] + Words(orderBy)
  }

  function NumberWords(key: string, n: nat): seq<string> {
    if n == 0 then [] else [key, Itoa(n)]
  }

  function TailWords(q: Query): seq<string> {
    if q.Count? then []
    else OrderWords(q.orderBy) + NumberWords("LIMIT", q.limit) + NumberWords("OFFSET", q.offset)
  }

  function QueryWords(q: Query): seq<string> {
    ["SELECT"] + Words(ColsText(q)) + ["FROM"] + Words(q.table) + WhereWords(q.where) + TailWords(q)
  }

  lemma {:induction false} NonEmptyConcat(a: seq<string>, b: seq<string>)
    ensures NonEmpty(a + b) == NonEmpty(a) + NonEmpty(b)
  {
    if a == [] {
      assert a + b == b;
    } else {
      NonEmptyConcat(a[1..], b);
      assert (a + b)[0] == a[0] && (a + b)[1..] == a[1..] + b;
      var x, y := NonEmpty(a[1..]), NonEmpty(b);
      assert [a[0]] + (x + y) == [a[0]] + x + y;
    }
  }

  /** A blank separates words, whatever is around it. */
  lemma WordsConcat(a: string, b: string)
    ensures Words(a + " " + b) == Words(a) + Words(b)
  {
    SplitAppend(a, b, ' ');
    NonEmptyConcat(Split(a, ' '), Split(b, ' '));
  }

  lemma OneWord(w: string)
    requires IsWord(w)
    ensures Words(w) == [w]
  {
    WordsOfJoin([w]);
  }

  /** A clause after some text: its keyword and its body. */
  lemma WordsOfClause(text: string, key: string, body: string)
    requires IsWord(key)
    ensures Words(text + (" " + key + " " + body)) == Words(text) + [key] + Words(body)
  {
    assert text + (" " + key + " " + body) == text + " " + key + " " + body;
    WordsConcat(text + " " + key, body);
    WordsConcat(text, key);
    OneWord(key);
  }

  lemma WordsAfterWhere(text: string, where: Option<string>)
    ensures Words(text + WhereText(where)) == Words(text) + WhereWords(where)
  {
    if where.None? {
      assert text + "" == text;
    } else {
      assert WhereText(where) == " " + "WHERE" + " " + where.value;
      WordsOfClause(text, "WHERE", where.value);
    }
  }

  lemma WordsAfterOrder(text: string, orderBy: string)
    ensures Words(text + OrderText(orderBy)) == Words(text) + OrderWords(orderBy)
  {
    if orderBy == "" {
      assert text + "" == text;
    } else {
      OrderTextSplits(orderBy);
      WordsOfTwoKeys(text, "ORDER", "BY", orderBy);
    }
  }

  lemma WordsOfTwoKeys(text: string, key: string, key': string, body: string)
    requires IsWord(key) && IsWord(key')
    ensures Words(text + (" " + key + " " + (key' + " " + body))) == Words(text) + ([key, key'] + Words(body))
  {
    WordsOfClause(text, key, key' + " " + body);
    WordsConcat(key', body);
    OneWord(key');
  }

  lemma OrderTextSplits(orderBy: string)
    requires orderBy != ""
    ensures OrderText(orderBy) == " " + "ORDER" + " " + ("BY" + " " + orderBy)
  {
    assert " ORDER BY " == " " + "ORDER" + " " + "BY" + " ";
  }

  lemma WordsAfterNumber(text: string, key: string, n: nat, clause: string)
    requires IsWord(key) && clause == if n == 0 then "" else " " + key + " " + Itoa(n)
    ensures Words(text + clause) == Words(text) + NumberWords(key, n)
  {
    if n == 0 {
      assert text + "" == text;
    } else {
      WordsOfClause(text, key, Itoa(n));
      ItoaIsWord(n);
      OneWord(Itoa(n));
    }
  }

  lemma ItoaIsWord(n: nat)
    ensures IsWord(Itoa(n)) && '?' !in Itoa(n)
  {
    ItoaParses(n);
  }

  lemma WordsOfHead(key: string, cols: string, key': string, table: string)
    requires IsWord(key) && IsWord(key')
    ensures Words(key + " " + cols + (" " + key' + " " + table)) == [key] + Words(cols) + [key'] + Words(table)
  {
    WordsOfClause(key + " " + cols, key', table);
    WordsConcat(key, cols);
    OneWord(key);
  }

  lemma ThreeClauses(text: string, a: string, b: string, c: string, wa: seq<string>, wb: seq<string>, wc: seq<string>)
    requires Words(text + a) == Words(text) + wa
    requires Words(text + a + b) == Words(text + a) + wb
    requires Words(text + a + b + c) == Words(text + a + b) + wc
    ensures Words(text + (a + b + c)) == Words(text) + (wa + wb + wc)
  {
    assert text + (a + b + c) == text + a + b + c;
  }

  lemma WordsOfTail(text: string, orderBy: string, limit: nat, offset: nat)
    ensures Words(text + TailText(orderBy, limit, offset))
            == Words(text) + (OrderWords(orderBy) + NumberWords("LIMIT", limit) + NumberWords("OFFSET", offset))
  {
    var a, b, c := OrderText(orderBy), NumberText("LIMIT", limit), NumberText("OFFSET", offset);
    WordsAfterOrder(text, orderBy);
    WordsAfterNumber(text + a, "LIMIT", limit, b);
    WordsAfterNumber(text + a + b, "OFFSET", offset, c);
    ThreeClauses(text, a, b, c, OrderWords(orderBy), NumberWords("LIMIT", limit), NumberWords("OFFSET", offset));
  }

  /** The text up to the table, and what follows it. */
  function FromText(q: Query): string {
    "SELECT" + " " + ColsText(q) + (" " + "FROM" + " " + q.table)
  }

  function EndText(q: Query): string {
    if q.Count? then "" else TailText(q.orderBy, q.limit, q.offset)
  }

  lemma RenderIsPieces(q: Query)
    ensures Render(q) == FromText(q) + WhereText(q.where) + EndText(q)
  {
    assert "SELECT " + ColsText(q) + " FROM " + q.table == FromText(q);
    if q.Count? {
      assert "SELECT COUNT(*) FROM " == "SELECT " + "COUNT(*)" + " FROM ";
    }
  }

  /** The words of a query's text are those of its clauses, for any pieces. */
  lemma RenderIsWords(q: Query)
    ensures Words(Render(q)) == QueryWords(q)
  {
    RenderIsPieces(q);
    WordsOfHead("SELECT", ColsText(q), "FROM", q.table);
    WordsAfterWhere(FromText(q), q.where);
    WordsAfterEnd(FromText(q) + WhereText(q.where), q);
  }

  lemma WordsAfterEnd(text: string, q: Query)
    ensures Words(text + EndText(q)) == Words(text) + TailWords(q)
  {
    if q.Count? {
      assert text + "" == text;
    } else {
      WordsOfTail(text, q.orderBy, q.limit, q.offset);
    }
  }

  // ------------------------------------------------------------------ reading back

  /** What should be read. */
  function ReadingOf(q: Query): Reading {
    var cols, where := Words(ColsText(q)), WordsOf(q.where);
    match q
    case Count(table, _) => Reading(cols, table, where, [], 0, 0)
    case Select(_, table, _, orderBy, limit, offset) => Reading(cols, table, where, Words(orderBy), limit, offset)
  }

  predicate HasNone(ws: seq<string>, stops: set<string>) {
    forall i :: 0 <= i < |ws| ==> ws[i] !in stops
  }

  /** No clause of the query holds a keyword that ends it, and the table is a word. */
  predicate IsReadable(q: Query) {
    && HasNone(Words(ColsText(q)), AFTER_COLS) && IsWord(q.table)
    && (q.where.Some? ==> HasNone(Words(q.where.value), AFTER_WHERE))
    && (q.Select? ==> HasNone(Words(q.orderBy), AFTER_ORDER))
  }

  lemma {:induction false} UntilStops(a: seq<string>, b: seq<string>, stops: set<string>)
    requires HasNone(a, stops) && (b == [] || b[0] in stops)
    ensures Until(a + b, stops) == a
  {
    if a == [] {
      assert a + b == b;
    } else {
      UntilStops(a[1..], b, stops);
      assert (a + b)[0] == a[0] && (a + b)[1..] == a[1..] + b;
    }
  }

  lemma {:induction false} UntilHasNone(ws: seq<string>, stops: set<string>)
    ensures HasNone(Until(ws, stops), stops)
  {
    if ws == [] || ws[0] in stops {
    } else {
      UntilHasNone(ws[1..], stops);
    }
  }

  lemma NumberIsRead(key: string, n: nat, rest: seq<string>)
    requires rest == [] || rest[0] != key
    ensures ReadNumber(key, NumberWords(key, n) + rest) == (n, rest)
  {
    if n == 0 {
      assert [] + rest == rest;
    } else {
      var ws := [key, Itoa(n)] + rest;
      assert ws[0] == key && ws[1] == Itoa(n) && ws[2..] == rest;
      ItoaParses(n);
    }
  }

  lemma OrderIsRead(orderBy: string, rest: seq<string>)
    requires HasNone(Words(orderBy), AFTER_ORDER) && (rest == [] || rest[0] in AFTER_ORDER)
    ensures ReadOrder(OrderWords(orderBy) + rest) == (Words(orderBy), rest)
  {
    if orderBy == "" {
      assert [] + rest == rest;
      assert Words("") == [] by { assert Split("", ' ') == [""]; }
    } else {
      var ws := ["ORDER", "BY"] + Words(orderBy) + rest;
      assert ws[0] == "ORDER" && ws[1] == "BY" && ws[2..] == Words(orderBy) + rest;
      UntilStops(Words(orderBy), rest, AFTER_ORDER);
      assert ws[2 + |Words(orderBy)|..] == rest;
    }
  }

  lemma WhereIsRead(where: Option<string>, rest: seq<string>)
    requires where.Some? ==> HasNone(Words(where.value), AFTER_WHERE)
    requires rest == [] || rest[0] in AFTER_WHERE
    ensures ReadWhere(WhereWords(where) + rest) == (WordsOf(where), rest)
  {
    if where.None? {
      assert [] + rest == rest;
    } else {
      var body := Words(where.value);
      var ws := ["WHERE"] + body + rest;
      assert ws[0] == "WHERE" && ws[1..] == body + rest;
      UntilStops(body, rest, AFTER_WHERE);
      assert ws[1 + |body|..] == rest;
    }
  }

  lemma ReadTailSteps(ws: seq<string>, where: Option<seq<string>>, r1: seq<string>, orderBy: seq<string>,
                      r2: seq<string>, limit: int, r3: seq<string>, offset: int)
    requires ReadWhere(ws) == (where, r1) && ReadOrder(r1) == (orderBy, r2)
    requires ReadNumber("LIMIT", r2) == (limit, r3) && ReadNumber("OFFSET", r3) == (offset, [])
    ensures ReadTail(ws) == (where, orderBy, limit, offset, [])
  {
  }

  lemma NumbersStart(limit: nat, offset: nat)
    ensures
      var ws := NumberWords("LIMIT", limit) + NumberWords("OFFSET", offset);
      ws == [] || ws[0] in AFTER_ORDER
  {
  }

  lemma OrderStarts(orderBy: string, rest: seq<string>)
    requires rest == [] || rest[0] in AFTER_ORDER
    ensures var ws := OrderWords(orderBy) + rest; ws == [] || ws[0] in AFTER_WHERE
  {
    assert orderBy != "" ==> (OrderWords(orderBy) + rest)[0] == "ORDER";
  }

  lemma ClausesAreRead(where: Option<string>, orderBy: string, limit: nat, offset: nat)
    requires where.Some? ==> HasNone(Words(where.value), AFTER_WHERE)
    requires HasNone(Words(orderBy), AFTER_ORDER)
    ensures
      var tail := OrderWords(orderBy) + (NumberWords("LIMIT", limit) + NumberWords("OFFSET", offset));
      ReadTail(WhereWords(where) + tail) == (WordsOf(where), Words(orderBy), limit, offset, [])
  {
    var r3 := NumberWords("OFFSET", offset);
    var r2 := NumberWords("LIMIT", limit) + r3;
    var r1 := OrderWords(orderBy) + r2;
    NumbersStart(limit, offset);
    OrderStarts(orderBy, r2);
    WhereIsRead(where, r1);
    OrderIsRead(orderBy, r2);
    NumberIsRead("LIMIT", limit, r3);
    assert r3 + [] == r3;
    NumberIsRead("OFFSET", offset, []);
    ReadTailSteps(WhereWords(where) + r1, WordsOf(where), r1, Words(orderBy), r2, limit, r3, offset);
  }

  lemma NothingIsRead(where: Option<string>)
    requires where.Some? ==> HasNone(Words(where.value), AFTER_WHERE)
    ensures ReadTail(WhereWords(where) + []) == (WordsOf(where), [], 0, 0, [])
  {
    WhereIsRead(where, []);
    ReadTailSteps(WhereWords(where) + [], WordsOf(where), [], [], [], 0, [], 0);
  }

  lemma TailIsRead(q: Query)
    requires IsReadable(q)
    ensures
      var r := ReadingOf(q);
      ReadTail(WhereWords(q.where) + TailWords(q)) == (r.where, r.orderBy, r.limit, r.offset, [])
  {
    match q
    case Count(_, where) => NothingIsRead(where);
    case Select(_, _, where, orderBy, limit, offset) =>
      var a, b, c := OrderWords(orderBy), NumberWords("LIMIT", limit), NumberWords("OFFSET", offset);
      assert a + b + c == a + (b + c);
      ClausesAreRead(where, orderBy, limit, offset);
  }

  lemma ReadQuerySteps(ws: seq<string>, cols: seq<string>, table: string, tail: seq<string>)
    requires ws == ["SELECT"] + cols + (["FROM"] + [table] + tail)
    requires HasNone(cols, AFTER_COLS) && ReadTail(tail).4 == []
    ensures
      var (where, orderBy, limit, offset, _) := ReadTail(tail);
      ReadQuery(ws) == Some(Reading(cols, table, where, orderBy, limit, offset))
  {
    var rest := ["FROM"] + [table] + tail;
    assert ws[0] == "SELECT" && ws[1..] == cols + rest && ws[1 + |cols|..] == rest;
    UntilStops(cols, rest, AFTER_COLS);
    assert rest[1] == table && rest[2..] == tail;
  }

  lemma QueryIsRead(q: Query)
    requires IsReadable(q)
    ensures ReadQuery(QueryWords(q)) == Some(ReadingOf(q))
  {
    var cols, tail := Words(ColsText(q)), WhereWords(q.where) + TailWords(q);
    TailIsRead(q);
    OneWord(q.table);
    Regroup(["SELECT"] + cols, ["FROM"], [q.table], WhereWords(q.where), TailWords(q));
    ReadQuerySteps(["SELECT"] + cols + (["FROM"] + [q.table] + tail), cols, q.table, tail);
  }

  lemma Regroup(a: seq<string>, b: seq<string>, c: seq<string>, d: seq<string>, e: seq<string>)
    ensures a + b + c + d + e == a + (b + c + (d + e))
  {
  }

  /** Whatever is read, no clause holds a keyword that ends it, and the table is one of the words. */
  lemma ReadingIsClean(ws: seq<string>)
    requires ReadQuery(ws).Some?
    ensures
      var r := ReadQuery(ws).value;
      && HasNone(r.cols, AFTER_COLS) && r.table in ws && HasNone(r.orderBy, AFTER_ORDER)
      && (r.where.Some? ==> HasNone(r.where.value, AFTER_WHERE))
  {
    var cols := Until(ws[1..], AFTER_COLS);
    UntilHasNone(ws[1..], AFTER_COLS);
    var rest := ws[1 + |cols|..];
    assert rest[1] == ws[1 + |cols| + 1];
    TailIsClean(rest[2..]);
  }

  lemma TailIsClean(ws: seq<string>)
    ensures
      var (where, orderBy, _, _, _) := ReadTail(ws);
      (where.Some? ==> HasNone(where.value, AFTER_WHERE)) && HasNone(orderBy, AFTER_ORDER)
  {
    if ws != [] {
      UntilHasNone(ws[1..], AFTER_WHERE);
    }
    var r1 := ReadWhere(ws).1;
    if |r1| >= 2 {
      UntilHasNone(r1[2..], AFTER_ORDER);
    }
  }

  /** The text of a query is read back as its clauses if and only if none of them holds a keyword
      that ends it and the table is a word. */
  lemma RenderIsReadBackIff(q: Query)
    ensures ReadQuery(Words(Render(q))) == Some(ReadingOf(q)) <==> IsReadable(q)
  {
    RenderIsWords(q);
    if IsReadable(q) {
      QueryIsRead(q);
    }
    if ReadQuery(QueryWords(q)) == Some(ReadingOf(q)) {
      ReadingIsClean(QueryWords(q));
      WordsAreWords(Render(q));
    }
  }

  lemma {:induction false} KeywordsAreFields(filters: seq<Filter>)
    ensures HasNone(AllWords(filters), AFTER_WHERE) <==>
      forall i :: 0 <= i < |filters| ==> filters[i].field !in AFTER_WHERE
  {
    if filters == [] {
    } else {
      var f, tail := filters[0], filters[1..];
      KeywordsAreFields(tail);
      assert HasNone(OpWords(f.op), AFTER_WHERE);
      assert HasNone([f.field], AFTER_WHERE) <==> f.field !in AFTER_WHERE by { assert [f.field][0] == f.field; }
      assert filters == [f] + tail;
      if tail == [] {
        NoneConcat([f.field], OpWords(f.op), AFTER_WHERE);
      } else {
        NoneConcat([f.field], OpWords(f.op), AFTER_WHERE);
        NoneConcat(PartWords(f.field, f.op), ["AND"], AFTER_WHERE);
        NoneConcat(PartWords(f.field, f.op) + ["AND"], AllWords(tail), AFTER_WHERE);
      }
    }
  }

  lemma NoneConcat(a: seq<string>, b: seq<string>, stops: set<string>)
    ensures HasNone(a + b, stops) <==> HasNone(a, stops) && HasNone(b, stops)
  {
    if HasNone(a + b, stops) {
      assert forall i :: 0 <= i < |a| ==> (a + b)[i] == a[i];
      assert forall i :: 0 <= i < |b| ==> (a + b)[|a| + i] == b[i];
    }
  }

  /** The conditions of filters on plain fields are readable exactly when no field is such a keyword. */
  lemma ConditionsAreReadableIff(filters: seq<Filter>)
    requires filters != [] && PlainFields(filters)
    ensures HasNone(Words(JoinWith(Parts(filters), " AND ")), AFTER_WHERE) <==>
      forall i :: 0 <= i < |filters| ==> filters[i].field !in AFTER_WHERE
  {
    TextIsWords(filters);
    AllWordsAreWords(filters);
    WordsOfJoin(AllWords(filters));
    KeywordsAreFields(filters);
  }

  // -------------------------------------------------------------- running a query

  datatype Outcome = Rows(rows: seq<Row>) | Number(n: nat) | Malformed

  /** The rows that pass every filter, in their order. */
  function Filtered(rows: seq<Row>, filters: seq<Filter>): seq<Row> {
    if rows == [] then []
    else if AllHold(filters, rows[0]) then [rows[0]] + Filtered(rows[1..], filters)
    else Filtered(rows[1..], filters)
  }

  function Page(rows: seq<Row>, limit: int, offset: int): seq<Row> {
    var left := rows[if offset <= 0 then 0 else if offset <= |rows| then offset else |rows|..];
    if 0 < limit < |left| then left[..limit] else left
  }

  /** What a database with these tables returns for a text and its arguments; order is its sort. */
  function Execute(text: string, args: seq<Value>, db: map<string, seq<Row>>,
                   order: (seq<string>, seq<Row>) -> seq<Row>): Outcome
  {
    var reading := ReadQuery(Words(text));
    if reading.None? || Placeholders(text) != |args| || reading.value.table !in db then Malformed
    else
      var r := reading.value;
      var bound := Bound(r.where, args);
      if bound.None? then Malformed
      else
        var rows := Filtered(db[r.table], bound.value);
        if r.cols == ["COUNT(*)"] then Number(|rows|) else Rows(Page(order(r.orderBy, rows), r.limit, r.offset))
  }

  lemma {:induction false} FilteredMembers(rows: seq<Row>, filters: seq<Filter>, row: Row)
    ensures row in Filtered(rows, filters) <==> row in rows && AllHold(filters, row)
  {
    if rows == [] {
    } else {
      FilteredMembers(rows[1..], filters, row);
      assert rows == [rows[0]] + rows[1..];
    }
  }

  lemma {:induction false} SameMeaningFilters(rows: seq<Row>, bound: seq<Filter>, filters: seq<Filter>)
    requires |bound| == |filters| && forall i :: 0 <= i < |filters| ==> SameMeaning(bound[i], filters[i])
    ensures Filtered(rows, bound) == Filtered(rows, filters)
  {
    if rows == [] {
    } else {
      SameMeaningHolds(bound, filters, rows[0]);
      SameMeaningFilters(rows[1..], bound, filters);
    }
  }

  // ------------------------------------------------------ placeholders of a query

  lemma NoMarks(a: string, b: string)
    requires '?' !in b
    ensures Placeholders(a + b) == Placeholders(a)
  {
    PlaceholdersConcat(a, b);
    NoPlaceholdersIff(b);
  }

  lemma HeadMarks(q: Query)
    requires '?' !in ColsText(q) && '?' !in q.table
    ensures Placeholders(FromText(q) + WhereText(q.where)) == MarksOf(q.where)
  {
    NoPlaceholdersIff(FromText(q));
    PlaceholdersConcat(FromText(q), WhereText(q.where));
    if q.where.Some? {
      NoPlaceholdersIff(" WHERE ");
      PlaceholdersConcat(" WHERE ", q.where.value);
    }
  }

  lemma NumberHasNoMarks(key: string, n: nat)
    requires '?' !in key
    ensures '?' !in NumberText(key, n)
  {
    ItoaIsWord(n);
  }

  lemma TailHasNoMarks(orderBy: string, limit: nat, offset: nat)
    requires '?' !in orderBy
    ensures '?' !in TailText(orderBy, limit, offset)
  {
    NumberHasNoMarks("LIMIT", limit);
    NumberHasNoMarks("OFFSET", offset);
    assert '?' !in OrderText(orderBy);
  }

  /** All placeholders of a query are those of its conditions, if the other pieces have none. */
  lemma QueryMarks(q: Query)
    requires '?' !in ColsText(q) && '?' !in q.table && (q.Select? ==> '?' !in q.orderBy)
    ensures Placeholders(Render(q)) == MarksOf(q.where)
  {
    RenderIsPieces(q);
    HeadMarks(q);
    if q.Select? {
      TailHasNoMarks(q.orderBy, q.limit, q.offset);
    }
    NoMarks(FromText(q) + WhereText(q.where), EndText(q));
  }

  // --------------------------------------------------- what a built query returns

  /** A query whose names are plain: it can be read back, and no piece but its conditions has a
      question mark. */
  predicate IsPlainQuery(q: Query, filters: seq<Filter>) {
    && q.where == WhereOf(Parts(filters)) && PlainFields(filters) && IsReadable(q)
    && '?' !in ColsText(q) && '?' !in q.table && (q.Select? ==> '?' !in q.orderBy)
  }

  lemma QueryRuns(q: Query, filters: seq<Filter>, db: map<string, seq<Row>>,
                  order: (seq<string>, seq<Row>) -> seq<Row>)
    requires IsPlainQuery(q, filters) && q.table in db
    ensures
      var r, rows := ReadingOf(q), Filtered(db[q.table], filters);
      Execute(Render(q), AllArgs(filters), db, order) ==
        if r.cols == ["COUNT(*)"] then Number(|rows|) else Rows(Page(order(r.orderBy, rows), r.limit, r.offset))
  {
    RenderIsReadBackIff(q);
    QueryMarks(q);
    BoundGivesFilters(filters);
    SameMeaningFilters(db[q.table], Bound(WordsOf(q.where), AllArgs(filters)).value, filters);
  }

  /** The text of BuildSelect, run with its arguments, returns the rows that pass every filter, in the
      database's order, cut by limit and offset. */
  lemma SelectReturnsFiltered(q: Query, filters: seq<Filter>, db: map<string, seq<Row>>,
                              order: (seq<string>, seq<Row>) -> seq<Row>)
    requires IsPlainQuery(q, filters) && q.table in db && q.Select? && Words(ColsText(q)) != ["COUNT(*)"]
    ensures Execute(Render(q), AllArgs(filters), db, order)
            == Rows(Page(order(Words(q.orderBy), Filtered(db[q.table], filters)), q.limit, q.offset))
  {
    QueryRuns(q, filters, db, order);
  }

  /** The text of BuildCount, run with the same arguments, returns the number of rows that the text of
      BuildSelect returns without limit and offset, and these are the rows that pass every filter. */
  lemma CountIsSelectSize(q: Query, filters: seq<Filter>, db: map<string, seq<Row>>,
                          order: (seq<string>, seq<Row>) -> seq<Row>)
    requires IsPlainQuery(q, filters) && q.table in db && q.Select? && Words(ColsText(q)) != ["COUNT(*)"]
    requires q.limit == 0 && q.offset == 0
    requires forall o, s :: multiset(order(o, s)) == multiset(s)
    ensures
      var args := AllArgs(filters);
      var selected := Execute(Render(q), args, db, order);
      var counted := Execute(Render(Count(q.table, q.where)), args, db, order);
      && selected.Rows? && counted == Number(|selected.rows|)
      && forall row :: row in selected.rows <==> row in db[q.table] && AllHold(filters, row)
  {
    SelectReturnsFiltered(q, filters, db, order);
    CountReturnsNumber(q, filters, db, order);
    SortedRows(order(Words(q.orderBy), Filtered(db[q.table], filters)), db[q.table], filters);
  }

  lemma SortedRows(sorted: seq<Row>, rows: seq<Row>, filters: seq<Filter>)
    requires multiset(sorted) == multiset(Filtered(rows, filters))
    ensures Page(sorted, 0, 0) == sorted && |sorted| == |Filtered(rows, filters)|
    ensures forall row :: row in sorted <==> row in rows && AllHold(filters, row)
  {
    var passing := Filtered(rows, filters);
    assert |sorted| == |multiset(sorted)| == |multiset(passing)| == |passing|;
    forall row ensures row in sorted <==> row in rows && AllHold(filters, row) {
      FilteredMembers(rows, filters, row);
      assert row in sorted <==> row in multiset(sorted);
      assert row in passing <==> row in multiset(passing);
    }
  }

  /** The text of BuildCount returns the number of rows that pass every filter. */
  lemma CountReturnsNumber(q: Query, filters: seq<Filter>, db: map<string, seq<Row>>,
                           order: (seq<string>, seq<Row>) -> seq<Row>)
    requires IsPlainQuery(q, filters) && q.table in db
    ensures Execute(Render(Count(q.table, q.where)), AllArgs(filters), db, order)
            == Number(|Filtered(db[q.table], filters)|)
  {
    var count := Count(q.table, q.where);
    CountColumn(count);
    QueryRuns(count, filters, db, order);
  }

  lemma CountColumn(q: Query)
    requires q.Count?
    ensures Words(ColsText(q)) == ["COUNT(*)"] && '?' !in ColsText(q)
  {
    OneWord(ColsText(q));
  }
}
