/** Sending filters to the database and applying all of them again afterwards. */
module Pushdown {
  import opened Lists
  import opened FilterText
  import opened FilterRoundTrip

  // ---- Three-valued meaning ----

  datatype Value = Null | Bool(b: bool) | Int(n: int) | Str(s: string)

  /** A row of the one table being scanned, so a column's name is enough. */
  type Row = map<string, Value>

  /** Comparison, pattern matching and everything that has no text: any functions at all. */
  datatype Engine = Engine(compare: (Operator, Value, Value) -> Value, other: (string, seq<Value>) -> Value)

  function KleeneNot(v: Value): Value {
    if v.Bool? then Bool(!v.b) else Null
  }

  function KleeneAnd(v: Value, w: Value): Value {
    if v == Bool(false) || w == Bool(false) then Bool(false)
    else if v == Bool(true) && w == Bool(true) then Bool(true)
    else Null
  }

  function KleeneOr(v: Value, w: Value): Value {
    KleeneNot(KleeneAnd(KleeneNot(v), KleeneNot(w)))
  }

  function Compare(eng: Engine, op: Operator, v: Value, w: Value): Value {
    match op
    case And => KleeneAnd(v, w)
    case Or => KleeneOr(v, w)
    case IsDistinctFrom => Bool(v != w)
    case IsNotDistinctFrom => Bool(v == w)
    case _ => if v == Null || w == Null then Null else eng.compare(op, v, w)
  }

  function Constant(s: Scalar): Value {
    match s
    case Boolean(Some(b)) => Bool(b)
    case Integer(_, Some(n)) => Int(n)
    case Unsigned(_, Some(n)) => Int(n)
    case Utf8(_, Some(t)) => Str(t)
    case _ => Null
  }

  function Eval(eng: Engine, row: Row, e: Expr): Value {
    match e
    case Column(_, name) => if name in row then row[name] else Null
    case Literal(s) => Constant(s)
    case Binary(l, op, r) => Compare(eng, op, Eval(eng, row, l), Eval(eng, row, r))
    case Not(x) => KleeneNot(Eval(eng, row, x))
    case IsNull(x) => Bool(Eval(eng, row, x) == Null)
    case IsNotNull(x) => Bool(Eval(eng, row, x) != Null)
    case IsTrue(x) => Bool(Eval(eng, row, x) == Bool(true))
    case IsFalse(x) => Bool(Eval(eng, row, x) == Bool(false))
    case Between(x, negated, lo, hi) =>
      var v := Eval(eng, row, x);
      var within := KleeneAnd(Compare(eng, GtEq, v, Eval(eng, row, lo)), Compare(eng, LtEq, v, Eval(eng, row, hi)));
      if negated then KleeneNot(within) else within
    case OtherExpr(form, args) => eng.other(form, EvalAll(eng, row, args))
  }

  function EvalAll(eng: Engine, row: Row, es: seq<Expr>): seq<Value> {
    if es == [] then [] else [Eval(eng, row, es[0])] + EvalAll(eng, row, es[1..])
  }

  predicate AllTrue(eng: Engine, row: Row, fs: seq<Expr>) {
    forall f <- fs :: Eval(eng, row, f) == Bool(true)
  }

  function KeepFn(eng: Engine, fs: seq<Expr>): Row -> Option<Row> {
    (row: Row) => if AllTrue(eng, row, fs) then Some(row) else None
  }

  /** The rows on which every filter is true, in order. */
  function Filtered(eng: Engine, fs: seq<Expr>, rows: seq<Row>): seq<Row> {
    FilterMap(rows, KeepFn(eng, fs))
  }

  /** Dropping qualifiers and widths changes no value. */
  lemma {:induction false} EraseKeepsValue(eng: Engine, row: Row, e: Expr)
    ensures Eval(eng, row, Erase(e)) == Eval(eng, row, e)
  {
    match e
    case Binary(l, _, r) => EraseKeepsValue(eng, row, l); EraseKeepsValue(eng, row, r);
    case Not(x) => EraseKeepsValue(eng, row, x);
    case IsNull(x) => EraseKeepsValue(eng, row, x);
    case IsNotNull(x) => EraseKeepsValue(eng, row, x);
    case IsTrue(x) => EraseKeepsValue(eng, row, x);
    case IsFalse(x) => EraseKeepsValue(eng, row, x);
    case Between(x, _, lo, hi) =>
      EraseKeepsValue(eng, row, x);
      EraseKeepsValue(eng, row, lo);
      EraseKeepsValue(eng, row, hi);
    case _ =>
  }

  // ---- The query ----

  datatype Support = Inexact | Unsupported

  /** What the source reports for one filter: only a table, not a raw query, takes filters. */
  function SupportFor(tableMode: bool, f: Expr): Support {
    if tableMode && ExprToSql(f).Some? then Inexact else Unsupported
  }

  /** So a filter is pushed if and only if it has a text and there is a table. */
  lemma SupportIff(tableMode: bool, f: Expr)
    ensures SupportFor(tableMode, f) == Inexact <==> tableMode && Translatable(f)
  {
    TranslatableIff(f);
    hide ExprToSql, Translatable;
  }

  function SqlFn(): Expr -> Option<string> {
    (f: Expr) => ExprToSql(f)
  }

  function Joined(texts: seq<string>): string {
    if texts == [] then ""
    else if |texts| == 1 then texts[0]
    else texts[0] + " AND " + Joined(texts[1..])
  }

  /** The end of the query text, after the table. */
  function WhereAndLimit(tableMode: bool, fs: seq<Expr>, limit: Option<nat>): (string, Option<nat>) {
    var texts := if tableMode then FilterMap(fs, SqlFn()) else [];
    (if texts == [] then "" else " WHERE " + Joined(texts), limit)
  }

  /** A conjunction as the database reads it: one filter after another, joined by AND. */
  function ParseMore(acc: Expr, s: string): Option<Expr>
    decreases |s|
  {
    if s == "" then Some(acc)
    else if " AND " <= s then
      var r := Parse(s[5..]);
      if r.Some? then ParseMore(Binary(acc, And, r.value.0), r.value.1) else None
    else None
  }

  function ParseConjunction(s: string): Option<Expr> {
    var r := Parse(s);
    if r.Some? then ParseMore(r.value.0, r.value.1) else None
  }

  function Taken(rows: seq<Row>, limit: Option<nat>): seq<Row> {
    if limit.Some? && limit.value < |rows| then rows[..limit.value] else rows
  }

  /** What the database returns for the end of a query: it reads the text. */
  function Answer(eng: Engine, query: (string, Option<nat>), rows: seq<Row>): Option<seq<Row>> {
    if query.0 == "" then Some(Taken(rows, query.1))
    else if " WHERE " <= query.0 then
      var test := ParseConjunction(query.0[7..]);
      if test.Some? then Some(Taken(Filtered(eng, [test.value], rows), query.1)) else None
    else None
  }

  // ---- The text of a conjunction ----

  function PushedFn(tableMode: bool): Expr -> Option<Expr> {
    (f: Expr) => if SupportFor(tableMode, f) == Inexact then Some(f) else None
  }

  /** The filters reported Inexact. */
  function Pushed(tableMode: bool, fs: seq<Expr>): seq<Expr> {
    FilterMap(fs, PushedFn(tableMode))
  }

  lemma PushedMember(tableMode: bool, fs: seq<Expr>, f: Expr)
    ensures f in Pushed(tableMode, fs) <==> f in fs && SupportFor(tableMode, f) == Inexact
  {
    FilterMapMember(fs, PushedFn(tableMode), f);
    hide FilterMap;
  }

  predicate AllTranslatable(fs: seq<Expr>) {
    forall f <- fs :: Translatable(f)
  }

  function Texts(fs: seq<Expr>): seq<string>
    requires AllTranslatable(fs)
  {
    seq(|fs|, i requires 0 <= i < |fs| => TextOf(fs[i]))
  }

  function TextOf(f: Expr): string {
    var t := ExprToSql(f);
    if t.Some? then t.value else ""
  }

  lemma {:induction false} PushedTexts(fs: seq<Expr>)
    ensures AllTranslatable(Pushed(true, fs)) && FilterMap(fs, SqlFn()) == Texts(Pushed(true, fs))
  {
    hide ExprToSql, Translatable;
    if fs != [] {
      PushedTexts(fs[..|fs| - 1]);
      TranslatableIff(fs[|fs| - 1]);
      var f, before := fs[|fs| - 1], Pushed(true, fs[..|fs| - 1]);
      assert ExprToSql(f).Some? ==> Texts(before + [f]) == Texts(before) + [ExprToSql(f).value];
    }
  }

  /** What follows the first filter. */
  function AndTail(fs: seq<Expr>): string {
    if fs == [] then "" else " AND " + (TextOf(fs[0]) + AndTail(fs[1..]))
  }

  lemma AndTailTerminated(fs: seq<Expr>)
    ensures Terminated(AndTail(fs))
  {
  }

  lemma {:induction false} JoinedText(fs: seq<Expr>)
    requires fs != [] && AllTranslatable(fs)
    ensures Joined(Texts(fs)) == TextOf(fs[0]) + AndTail(fs[1..])
  {
    hide ExprToSql, Translatable, TextOf;
    if |fs| == 1 {
      assert AndTail(fs[1..]) == "";
    } else {
      var rest := fs[1..];
      JoinedText(rest);
      assert Texts(fs)[1..] == Texts(rest);
      assert AndTail(rest) == " AND " + (TextOf(rest[0]) + AndTail(rest[1..]));
      AppendAssociative(TextOf(fs[0]), " AND ", TextOf(rest[0]) + AndTail(rest[1..]));
    }
  }

  function AndAll(acc: Expr, fs: seq<Expr>): Expr
    decreases |fs|
  {
    if fs == [] then acc else AndAll(Binary(acc, And, Erase(fs[0])), fs[1..])
  }

  lemma {:induction false} MoreRead(acc: Expr, fs: seq<Expr>)
    requires AllTranslatable(fs)
    ensures ParseMore(acc, AndTail(fs)) == Some(AndAll(acc, fs))
    decreases |fs|
  {
    hide ExprToSql, Translatable, Erase, Parse;
    if fs != [] {
      var f, rest := fs[0], AndTail(fs[1..]);
      AndTailTerminated(fs[1..]);
      RoundTrip(f, rest);
      assert AndTail(fs)[5..] == TextOf(f) + rest;
      MoreRead(Binary(acc, And, Erase(f)), fs[1..]);
    }
  }

  lemma {:induction false} AndAllTrue(eng: Engine, row: Row, acc: Expr, fs: seq<Expr>)
    ensures Eval(eng, row, AndAll(acc, fs)) == Bool(true) <==> Eval(eng, row, acc) == Bool(true) && AllTrue(eng, row, fs)
    decreases |fs|
  {
    if fs != [] {
      var next := Binary(acc, And, Erase(fs[0]));
      EraseKeepsValue(eng, row, fs[0]);
      AndAllTrue(eng, row, next, fs[1..]);
      assert Eval(eng, row, next) == KleeneAnd(Eval(eng, row, acc), Eval(eng, row, fs[0]));
      hide Eval;
      assert AllTrue(eng, row, fs) <==> Eval(eng, row, fs[0]) == Bool(true) && AllTrue(eng, row, fs[1..]) by {
        assert fs == [fs[0]] + fs[1..];
      }
    }
  }

  /** The joined texts read back as one test that is true exactly where every filter is. */
  lemma ConjunctionRead(eng: Engine, fs: seq<Expr>)
    requires fs != [] && AllTranslatable(fs)
    ensures ParseConjunction(Joined(Texts(fs))).Some?
    ensures forall row: Row ::
              Eval(eng, row, ParseConjunction(Joined(Texts(fs))).value) == Bool(true) <==> AllTrue(eng, row, fs)
  {
    hide ExprToSql, Translatable, Erase, Parse, Eval;
    JoinedText(fs);
    AndTailTerminated(fs[1..]);
    RoundTrip(fs[0], AndTail(fs[1..]));
    MoreRead(Erase(fs[0]), fs[1..]);
    forall row: Row
      ensures Eval(eng, row, AndAll(Erase(fs[0]), fs[1..])) == Bool(true) <==> AllTrue(eng, row, fs)
    {
      AndAllTrue(eng, row, Erase(fs[0]), fs[1..]);
      EraseKeepsValue(eng, row, fs[0]);
      assert fs == [fs[0]] + fs[1..];
    }
  }

  // ---- Pushdown ----

  /** The database returns exactly the rows on which every filter reported Inexact is true, cut to the
      limit: a filter takes part in the query if and only if it was reported Inexact. */
  lemma AnswerIsPushedFilters(eng: Engine, tableMode: bool, fs: seq<Expr>, limit: Option<nat>, rows: seq<Row>)
    ensures Answer(eng, WhereAndLimit(tableMode, fs, limit), rows)
      == Some(Taken(Filtered(eng, Pushed(tableMode, fs), rows), limit))
  {
    hide Eval, Joined, ParseConjunction, Taken;
    var ps := Pushed(tableMode, fs);
    if tableMode {
      PushedTexts(fs);
      assert |Texts(ps)| == |ps|;
    } else {
      FilterMapNone(fs, PushedFn(false));
    }
    hide FilterMap, Texts, Pushed;
    if ps == [] {
      FilterMapAll(rows, KeepFn(eng, ps));
    } else {
      ConjunctionRead(eng, ps);
      var text := " WHERE " + Joined(Texts(ps));
      assert text[7..] == Joined(Texts(ps));
      var test := ParseConjunction(Joined(Texts(ps))).value;
      FilterMapSame(rows, KeepFn(eng, [test]), KeepFn(eng, ps));
    }
  }

  /** Without a limit, applying every filter again to what the database returned gives what applying
      them to the whole table gives. */
  lemma PushdownPreserves(eng: Engine, tableMode: bool, fs: seq<Expr>, rows: seq<Row>)
    ensures
      var answer := Answer(eng, WhereAndLimit(tableMode, fs, None), rows);
      answer.Some? && Filtered(eng, fs, answer.value) == Filtered(eng, fs, rows)
  {
    hide FilterMap, Eval, Pushed, Answer, WhereAndLimit, Filtered;
    AnswerIsPushedFilters(eng, tableMode, fs, None, rows);
    FilterAgain(eng, tableMode, fs, rows);
  }

  // ---- With a limit ----

  lemma FilterAgain(eng: Engine, tableMode: bool, fs: seq<Expr>, rows: seq<Row>)
    ensures Filtered(eng, fs, Filtered(eng, Pushed(tableMode, fs), rows)) == Filtered(eng, fs, rows)
  {
    var ps := Pushed(tableMode, fs);
    forall row | row in rows && AllTrue(eng, row, fs)
      ensures AllTrue(eng, row, ps)
    {
      forall f | f in ps
        ensures f in fs
      {
        PushedMember(tableMode, fs, f);
      }
      hide Pushed, Eval;
    }
    hide FilterMap, Eval, Pushed;
    FilterMapCompose(rows, KeepFn(eng, ps), KeepFn(eng, fs), KeepFn(eng, fs));
  }

  predicate AllPass(eng: Engine, fs: seq<Expr>, rows: seq<Row>) {
    forall row <- rows :: AllTrue(eng, row, fs)
  }

  predicate NonePass(eng: Engine, fs: seq<Expr>, rows: seq<Row>) {
    forall row <- rows :: !AllTrue(eng, row, fs)
  }

  lemma {:induction false} AllPassIff(eng: Engine, fs: seq<Expr>, rows: seq<Row>)
    ensures |Filtered(eng, fs, rows)| <= |rows|
    ensures |Filtered(eng, fs, rows)| == |rows| <==> AllPass(eng, fs, rows)
    ensures AllPass(eng, fs, rows) ==> Filtered(eng, fs, rows) == rows
  {
    hide AllTrue;
    if rows != [] {
      var n := |rows| - 1;
      AllPassIff(eng, fs, rows[..n]);
      assert rows == rows[..n] + [rows[n]];
    }
  }

  lemma NonePassIff(eng: Engine, fs: seq<Expr>, rows: seq<Row>)
    ensures Filtered(eng, fs, rows) == [] <==> NonePass(eng, fs, rows)
  {
    if NonePass(eng, fs, rows) {
      FilterMapNone(rows, KeepFn(eng, fs));
    } else {
      var row :| row in rows && AllTrue(eng, row, fs);
      FilterMapMember(rows, KeepFn(eng, fs), row);
    }
    hide FilterMap, AllTrue;
  }

  /** Cutting these rows before the filters loses nothing. */
  predicate CutIsHarmless(eng: Engine, fs: seq<Expr>, rows: seq<Row>, limit: nat) {
    limit < |rows| ==> AllPass(eng, fs, rows[..limit]) || NonePass(eng, fs, rows[limit..])
  }

  lemma CutFirst(eng: Engine, fs: seq<Expr>, rows: seq<Row>, limit: nat)
    ensures Filtered(eng, fs, Taken(rows, Some(limit))) == Taken(Filtered(eng, fs, rows), Some(limit))
      <==> CutIsHarmless(eng, fs, rows, limit)
  {
    hide FilterMap, AllTrue, AllPass, NonePass;
    if limit < |rows| {
      var kept, rest := Filtered(eng, fs, rows[..limit]), Filtered(eng, fs, rows[limit..]);
      assert rows == rows[..limit] + rows[limit..];
      FilterMapConcat(rows[..limit], rows[limit..], KeepFn(eng, fs));
      AllPassIff(eng, fs, rows[..limit]);
      NonePassIff(eng, fs, rows[limit..]);
      if |kept| == limit {
        assert (kept + rest)[..limit] == kept;
        assert rest == [] ==> kept + rest == kept;
      } else if rest == [] {
        assert kept + rest == kept;
      } else {
        assert |Taken(kept + rest, Some(limit))| > |kept|;
      }
    } else {
      AllPassIff(eng, fs, rows);
    }
  }

  /** The limited answer, filtered again, is the first `limit` rows of the filtered table exactly when
      the limit does not cut the rows passing the pushed filters, or all it keeps of them pass every filter,
      or none it cuts off does. */
  lemma LimitedAnswerIff(eng: Engine, tableMode: bool, fs: seq<Expr>, limit: nat, rows: seq<Row>)
    ensures
      var answer := Answer(eng, WhereAndLimit(tableMode, fs, Some(limit)), rows);
      answer.Some? &&
      (Filtered(eng, fs, answer.value) == Taken(Filtered(eng, fs, rows), Some(limit))
       <==> CutIsHarmless(eng, fs, Filtered(eng, Pushed(tableMode, fs), rows), limit))
  {
    hide FilterMap, Eval, Pushed, Answer, WhereAndLimit, Filtered, CutIsHarmless, Taken;
    AnswerIsPushedFilters(eng, tableMode, fs, Some(limit), rows);
    FilterAgain(eng, tableMode, fs, rows);
    CutFirst(eng, fs, Filtered(eng, Pushed(tableMode, fs), rows), limit);
  }

  lemma FilteredTrue(eng: Engine, fs: seq<Expr>, rows: seq<Row>)
    ensures AllPass(eng, fs, Filtered(eng, fs, rows))
  {
    forall row | row in Filtered(eng, fs, rows)
      ensures AllTrue(eng, row, fs)
    {
      FilterMapMember(rows, KeepFn(eng, fs), row);
      hide FilterMap, Eval, AllTrue;
    }
    hide FilterMap, AllTrue, Filtered;
  }

  /** So it always is when every filter is pushed. */
  lemma LimitPreservedWhenAllPushed(eng: Engine, fs: seq<Expr>, limit: nat, rows: seq<Row>)
    requires forall f <- fs :: SupportFor(true, f) == Inexact
    ensures
      var answer := Answer(eng, WhereAndLimit(true, fs, Some(limit)), rows);
      answer.Some? && Filtered(eng, fs, answer.value) == Taken(Filtered(eng, fs, rows), Some(limit))
  {
    FilterMapAll(fs, PushedFn(true));
    hide FilterMap, AllTrue, Answer, WhereAndLimit, ExprToSql, Taken, Filtered;
    FilteredTrue(eng, fs, rows);
    LimitedAnswerIff(eng, true, fs, limit, rows);
  }

  // ---- A limit and a filter the database never sees ----

  /** An engine whose unknown functions test for the number one. */
  function OneTester(): Engine {
    Engine((op: Operator, v: Value, w: Value) => Null,
           (form: string, vs: seq<Value>) => if vs == [Int(1)] then Bool(true) else Bool(false))
  }

  function Unseen(f: string): Expr {
    OtherExpr(f, [Column(None, "a")])
  }

  function RowOf(n: int): Row {
    map["a" := Int(n)]
  }

  lemma UnseenTest(f: string, n: int)
    ensures AllTrue(OneTester(), RowOf(n), [Unseen(f)]) <==> n == 1
  {
    var args, eng, row := [Column(None, "a")], OneTester(), RowOf(n);
    assert args[1..] == [];
    assert EvalAll(eng, row, args) == [Int(n)];
    assert Eval(eng, row, Unseen(f)) == Bool(n == 1);
    assert [Unseen(f)][0] in [Unseen(f)];
  }

  /** The limit can cut off the very row such a filter would have kept. */
  lemma LimitLosesRows(f: string)
    ensures
      var eng, fs, rows := OneTester(), [Unseen(f)], [RowOf(0), RowOf(1)];
      && SupportFor(true, Unseen(f)) == Unsupported
      && Filtered(eng, fs, rows) == [RowOf(1)]
      && Answer(eng, WhereAndLimit(true, fs, Some(1)), rows) == Some([RowOf(0)])
      && Filtered(eng, fs, [RowOf(0)]) == []
  {
    var eng, fs, first := OneTester(), [Unseen(f)], [RowOf(0)];
    var rows := first + [RowOf(1)];
    assert rows == [RowOf(0), RowOf(1)];
    UnseenTest(f, 0);
    UnseenTest(f, 1);
    assert SupportFor(true, Unseen(f)) == Unsupported;
    hide Eval, AllTrue, Answer, WhereAndLimit, OneTester, Unseen, RowOf, ExprToSql;
    AnswerIsPushedFilters(eng, true, fs, Some(1), rows);
    FilterMapNone(fs, PushedFn(true));
    hide SupportFor;
    NoFilterKeepsAll(eng, rows);
    assert [] + first == first;
    FilterMapSnoc([], RowOf(0), KeepFn(eng, fs));
    FilterMapSnoc(first, RowOf(1), KeepFn(eng, fs));
  }

  lemma NoFilterKeepsAll(eng: Engine, rows: seq<Row>)
    ensures Filtered(eng, [], rows) == rows
  {
    FilterMapAll(rows, KeepFn(eng, []));
  }
}
