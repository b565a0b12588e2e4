/** Reading back the text of a translatable filter gives the filter, up to qualifiers and widths. */
module FilterRoundTrip {
  import opened Lists
  import opened Decimal
  import opened FilterText

  /** What may follow an expression in a query: nothing, a space, or a closing parenthesis. */
  predicate Terminated(rest: string) {
    rest == [] || rest[0] == ' ' || rest[0] == ')'
  }

  predicate Plain(w: string) {
    forall c <- w :: c != ' ' && c != ')'
  }

  lemma {:induction false} WordRead(w: string, rest: string)
    requires Plain(w) && Terminated(rest)
    ensures ReadWord(w + rest) == (w, rest)
  {
    if w == [] {
      assert w + rest == rest;
    } else {
      assert w[0] in w && forall c <- w[1..] :: c in w;
      WordRead(w[1..], rest);
      assert (w + rest)[1..] == w[1..] + rest;
      assert [w[0]] + w[1..] == w;
    }
  }

  lemma NextWordRead(w: string, rest: string)
    requires Plain(w) && Terminated(rest)
    ensures NextWord(" " + w + rest) == Some((w, rest))
  {
    WordRead(w, rest);
    assert (" " + w + rest)[1..] == w + rest;
  }

  // ---- Quoting ----

  /** Quote-doubling is undone exactly. */
  lemma {:induction false} QuoteUndone(quote: char, t: string, rest: string)
    requires rest == [] || rest[0] != quote
    ensures Unquote(quote, Doubled(quote, t) + [quote] + rest) == Some((t, rest))
  {
    var s := Doubled(quote, t) + [quote] + rest;
    if t == [] {
      assert s == [quote] + rest;
      assert s[1..] == rest;
    } else {
      QuoteUndone(quote, t[1..], rest);
      var inner := Doubled(quote, t[1..]) + [quote] + rest;
      assert [t[0]] + t[1..] == t;
      if t[0] == quote {
        assert s == [quote, quote] + inner;
        assert s[2..] == inner;
      } else {
        assert s == [t[0]] + inner;
        assert s[1..] == inner;
      }
    }
  }

  lemma QuotedRead(quote: char, t: string, rest: string)
    requires rest == [] || rest[0] != quote
    ensures Quoted(quote, t) + rest != [] && (Quoted(quote, t) + rest)[0] == quote
    ensures Unquote(quote, (Quoted(quote, t) + rest)[1..]) == Some((t, rest))
  {
    QuoteUndone(quote, t, rest);
    assert (Quoted(quote, t) + rest)[1..] == Doubled(quote, t) + [quote] + rest;
  }

  // ---- Numbers ----

  lemma NatRead(n: nat)
    ensures NatText(n) != [] && (forall c <- NatText(n) :: IsDigit(c))
    ensures ReadNat(NatText(n)) == Some(n)
  {
    var w, ds := NatText(n), Digits(n);
    forall i | 0 <= i < |w|
      ensures IsDigit(w[i]) && DigitOf(w[i]) == ds[i]
    {
    }
    assert seq(|w|, i requires 0 <= i < |w| => DigitOf(w[i])) == ds;
    DigitsRoundTrip(n);
  }

  lemma IntRead(n: int)
    ensures var w := IntText(n); w != [] && (w[0] == '-' || IsDigit(w[0])) && Plain(w) && ReadInt(w) == Some(n)
  {
    var w := IntText(n);
    NatRead(if n < 0 then -n else n);
    if n < 0 {
      assert w[1..] == NatText(-n);
      assert forall c <- w :: c == '-' || c in NatText(-n);
    } else {
      assert w[0] in w;
    }
  }

  // ---- Expressions ----

  lemma WordLiteralRead(w: string, s: Scalar, rest: string)
    requires w != [] && w[0] !in {'"', '\'', '('} && Plain(w) && ReadLiteral(w) == Some(s) && Terminated(rest)
    ensures Parse(w + rest) == Some((Literal(s), rest))
  {
    hide ReadLiteral, ReadWord;
    WordRead(w, rest);
    assert (w + rest)[0] == w[0];
  }

  lemma IntLiteralRead(n: int)
    ensures ReadLiteral(IntText(n)) == Some(Integer(W64, Some(n)))
  {
    IntRead(n);
    hide IntText, ReadInt;
    var w := IntText(n);
    assert w[0] != 'N' && w[0] != 'T' && w[0] != 'F';
  }

  lemma LiteralRead(s: Scalar, rest: string)
    requires ScalarToSql(s).Some? && Terminated(rest)
    ensures Parse(ScalarToSql(s).value + rest) == Some((Literal(EraseScalar(s)), rest))
  {
    match s
    case NullScalar => WordLiteralRead("NULL", s, rest);
    case Boolean(b) => WordLiteralRead(if b.value then "TRUE" else "FALSE", s, rest);
    case Integer(_, n) =>
      IntRead(n.value);
      IntLiteralRead(n.value);
      hide IntText, ReadInt, ReadLiteral;
      WordLiteralRead(IntText(n.value), EraseScalar(s), rest);
    case Utf8(_, t) =>
      hide Unquote, Quoted;
      QuotedRead('\'', t.value, rest);
  }

  lemma ColumnRead(name: string, rest: string)
    requires Terminated(rest)
    ensures Parse(QuoteIdent(name) + rest) == Some((Column(None, name), rest))
  {
    QuotedRead('"', name, rest);
  }

  /** No expression's text starts like a negated group. */
  lemma NotANegation(e: Expr, rest: string)
    requires ExprToSql(e).Some?
    ensures !("NOT " <= ExprToSql(e).value + rest)
  {
    var sql := ExprToSql(e).value;
    if e.Literal? && e.scalar.Integer? {
      IntRead(e.scalar.number.value);
    }
    hide IntText, Doubled;
    assert sql != [] && (sql[0] != 'N' || sql == "NULL");
    assert (sql + rest)[0] == sql[0];
    if sql == "NULL" {
      assert (sql + rest)[1] == 'U';
    }
  }

  lemma Closed(e: Expr, rest: string)
    ensures Close(e, ")" + rest) == Some((e, rest))
  {
    assert (")" + rest)[1..] == rest;
  }

  lemma WordTail(l: Expr, w: string, x: string)
    requires Plain(w) && Terminated(x)
    ensures w == "IS" ==> ParseTail(l, w + x) == ParseIs(l, x)
    ensures w == "NOT" ==> ParseTail(l, w + x) == ParseNot(l, x)
    ensures w == "BETWEEN" ==> ParseTail(l, w + x) == ParseBetween(l, false, x)
    ensures OneWordOperator(w).Some? ==> ParseTail(l, w + x) == ParseOperand(l, OneWordOperator(w).value, x)
  {
    hide ReadWord, ParseIs, ParseNot, ParseBetween, ParseOperand;
    WordRead(w, x);
  }

  lemma WordIs(l: Expr, w: string, x: string)
    requires Plain(w) && Terminated(x)
    ensures w == "NULL" ==> ParseIs(l, " " + w + x) == Close(IsNull(l), x)
    ensures w == "TRUE" ==> ParseIs(l, " " + w + x) == Close(IsTrue(l), x)
    ensures w == "FALSE" ==> ParseIs(l, " " + w + x) == Close(IsFalse(l), x)
    ensures w == "DISTINCT" ==> ParseIs(l, " " + w + x) == ParseFrom(l, IsDistinctFrom, x)
    ensures w == "NOT" ==> ParseIs(l, " " + w + x) == ParseIsNot(l, x)
  {
    hide NextWord, Close, ParseFrom, ParseIsNot;
    NextWordRead(w, x);
  }

  lemma WordIsNot(l: Expr, w: string, x: string)
    requires Plain(w) && Terminated(x)
    ensures w == "NULL" ==> ParseIsNot(l, " " + w + x) == Close(IsNotNull(l), x)
    ensures w == "DISTINCT" ==> ParseIsNot(l, " " + w + x) == ParseFrom(l, IsNotDistinctFrom, x)
  {
    hide NextWord, Close, ParseFrom;
    NextWordRead(w, x);
  }

  lemma WordNot(l: Expr, w: string, x: string)
    requires Plain(w) && Terminated(x)
    ensures w == "LIKE" ==> ParseNot(l, " " + w + x) == ParseOperand(l, NotLikeMatch, x)
    ensures w == "BETWEEN" ==> ParseNot(l, " " + w + x) == ParseBetween(l, true, x)
  {
    hide NextWord, ParseOperand, ParseBetween;
    NextWordRead(w, x);
  }

  lemma WordFrom(l: Expr, op: Operator, x: string)
    requires Terminated(x)
    ensures ParseFrom(l, op, " " + "FROM" + x) == ParseOperand(l, op, x)
  {
    hide NextWord, ParseOperand;
    NextWordRead("FROM", x);
  }

  /** Any operator the printer writes, followed by its right operand. */
  lemma OperatorRead(l: Expr, op: Operator, y: string)
    requires OperatorText(op).Some?
    ensures ParseTail(l, OperatorText(op).value + " " + y) == ParseOperand(l, op, " " + y)
  {
    hide ParseOperand, ReadWord, ParseTail, ParseIs, ParseIsNot, ParseNot, ParseFrom, OneWordOperator;
    var s, z := OperatorText(op).value + " " + y, " " + y;
    var from := " " + "FROM" + z;
    if op.IsDistinctFrom? {
      assert s == "IS" + (" " + "DISTINCT" + from);
      WordTail(l, "IS", " " + "DISTINCT" + from);
      WordIs(l, "DISTINCT", from);
      WordFrom(l, op, z);
    } else if op.IsNotDistinctFrom? {
      assert s == "IS" + (" " + "NOT" + (" " + "DISTINCT" + from));
      WordTail(l, "IS", " " + "NOT" + (" " + "DISTINCT" + from));
      WordIs(l, "NOT", " " + "DISTINCT" + from);
      WordIsNot(l, "DISTINCT", from);
      WordFrom(l, op, z);
    } else if op.NotLikeMatch? {
      assert s == "NOT" + (" " + "LIKE" + z);
      WordTail(l, "NOT", " " + "LIKE" + z);
      WordNot(l, "LIKE", z);
    } else {
      OneWord(op);
      assert s == OperatorText(op).value + z;
      WordTail(l, OperatorText(op).value, z);
    }
  }

  lemma OneWord(op: Operator)
    requires OperatorText(op).Some? && !op.IsDistinctFrom? && !op.IsNotDistinctFrom? && !op.NotLikeMatch?
    ensures OneWordOperator(OperatorText(op).value) == Some(op) && Plain(OperatorText(op).value)
  {
  }

  lemma BetweenRead(l: Expr, negated: bool, y: string)
    ensures ParseTail(l, (if negated then "NOT " else "") + "BETWEEN " + y) == ParseBetween(l, negated, " " + y)
  {
    hide ParseBetween, ReadWord, ParseTail, ParseNot;
    var s, z := (if negated then "NOT " else "") + "BETWEEN " + y, " " + y;
    if negated {
      assert s == "NOT" + (" " + "BETWEEN" + z);
      WordTail(l, "NOT", " " + "BETWEEN" + z);
      WordNot(l, "BETWEEN", z);
    } else {
      assert s == "BETWEEN" + z;
      WordTail(l, "BETWEEN", z);
    }
  }

  /** The four postfix tests. */
  lemma TestRead(l: Expr, e: Expr, words: string, rest: string)
    requires
      || (e == IsNull(l) && words == "IS NULL") || (e == IsNotNull(l) && words == "IS NOT NULL")
      || (e == IsTrue(l) && words == "IS TRUE") || (e == IsFalse(l) && words == "IS FALSE")
    ensures ParseTail(l, words + ")" + rest) == Some((e, rest))
  {
    hide ReadWord, Close, ParseTail, ParseIs, ParseIsNot;
    var s, z := words + ")" + rest, ")" + rest;
    Closed(e, rest);
    if e == IsNotNull(l) {
      assert s == "IS" + (" " + "NOT" + (" " + "NULL" + z));
      WordTail(l, "IS", " " + "NOT" + (" " + "NULL" + z));
      WordIs(l, "NOT", " " + "NULL" + z);
      WordIsNot(l, "NULL", z);
    } else {
      var w := if e == IsNull(l) then "NULL" else if e == IsTrue(l) then "TRUE" else "FALSE";
      assert s == "IS" + (" " + w + z);
      WordTail(l, "IS", " " + w + z);
      WordIs(l, w, z);
    }
  }

  /** A group whose first operand reads back continues with what follows that operand. */
  lemma GroupRead(e: Expr, tail: string)
    requires ExprToSql(e).Some?
    requires Parse(ExprToSql(e).value + (" " + tail)) == Some((Erase(e), " " + tail))
    ensures Parse("(" + (ExprToSql(e).value + (" " + tail))) == ParseTail(Erase(e), tail)
  {
    hide ExprToSql, Erase, ParseTail;
    var s := ExprToSql(e).value + (" " + tail);
    NotANegation(e, " " + tail);
    assert ("(" + s)[1..] == s && ("(" + s)[0] == '(';
    assert (" " + tail)[1..] == tail;
    assert ParseGroup(s) == ParseTail(Erase(e), tail);
  }

  // ---- What has a text, and which ----

  /** Nulls without a type, and booleans, signed integers and texts that are not null. */
  predicate Expressible(s: Scalar) {
    s.NullScalar? || (s.Boolean? && s.flag.Some?) || (s.Integer? && s.number.Some?) || (s.Utf8? && s.text.Some?)
  }

  /** The expressions that have a text: built from columns, such literals and every operator but the ones
      that are not named. */
  predicate Translatable(e: Expr) {
    match e
    case Column(_, _) => true
    case Literal(s) => Expressible(s)
    case Binary(l, op, r) => Translatable(l) && !op.OtherOperator? && Translatable(r)
    case Not(x) => Translatable(x)
    case IsNull(x) => Translatable(x)
    case IsNotNull(x) => Translatable(x)
    case IsTrue(x) => Translatable(x)
    case IsFalse(x) => Translatable(x)
    case Between(x, _, lo, hi) => Translatable(x) && Translatable(lo) && Translatable(hi)
    case OtherExpr(_, _) => false
  }

  lemma {:induction false} TranslatableIff(e: Expr)
    ensures Translatable(e) <==> ExprToSql(e).Some?
  {
    match e
    case Binary(l, _, r) => TranslatableIff(l); TranslatableIff(r);
    case Not(x) => TranslatableIff(x);
    case IsNull(x) => TranslatableIff(x);
    case IsNotNull(x) => TranslatableIff(x);
    case IsTrue(x) => TranslatableIff(x);
    case IsFalse(x) => TranslatableIff(x);
    case Between(x, _, lo, hi) => TranslatableIff(x); TranslatableIff(lo); TranslatableIff(hi);
    case _ =>
  }

  /** The words of the operators. */
  lemma OperatorWords()
    ensures OperatorText(Eq) == Some("=") && OperatorText(NotEq) == Some("!=")
    ensures OperatorText(Lt) == Some("<") && OperatorText(LtEq) == Some("<=")
    ensures OperatorText(Gt) == Some(">") && OperatorText(GtEq) == Some(">=")
    ensures OperatorText(And) == Some("AND") && OperatorText(Or) == Some("OR")
    ensures OperatorText(IsDistinctFrom) == Some("IS DISTINCT FROM")
    ensures OperatorText(IsNotDistinctFrom) == Some("IS NOT DISTINCT FROM")
    ensures OperatorText(LikeMatch) == Some("LIKE") && OperatorText(NotLikeMatch) == Some("NOT LIKE")
  {
  }

  lemma {:induction false} NothingDoubled(quote: char, s: string)
    requires quote !in s
    ensures Doubled(quote, s) == s
  {
    if s != [] {
      NothingDoubled(quote, s[1..]);
    }
  }

  /** A quote inside is doubled, and nothing else is touched. */
  lemma QuotedForm(quote: char, before: string, after: string)
    requires quote !in before && quote !in after
    ensures Quoted(quote, before) == [quote] + before + [quote]
    ensures Quoted(quote, before + [quote] + after) == [quote] + (before + [quote, quote] + after) + [quote]
  {
    NothingDoubled(quote, before);
    DoubledAround(quote, before, after);
    hide Doubled;
  }

  lemma LiteralTexts(n: int, t: string)
    ensures ScalarToSql(NullScalar) == Some("NULL")
    ensures ScalarToSql(Boolean(Some(true))) == Some("TRUE") && ScalarToSql(Boolean(Some(false))) == Some("FALSE")
    ensures forall w :: ScalarToSql(Integer(w, Some(n))) == Some(IntText(n))
    ensures forall large :: ScalarToSql(Utf8(large, Some(t))) == Some(Quoted('\'', t))
  {
    hide IntText, Quoted;
  }

  lemma {:induction false} DoubledAround(quote: char, before: string, after: string)
    requires quote !in before && quote !in after
    ensures Doubled(quote, before + [quote] + after) == before + [quote, quote] + after
  {
    if before == [] {
      NothingDoubled(quote, after);
      assert ([] + [quote] + after)[1..] == after;
    } else {
      DoubledAround(quote, before[1..], after);
      assert (before + [quote] + after)[1..] == before[1..] + [quote] + after;
    }
  }

  /** The text of every kind of filter, from the texts of its parts. */
  lemma TestForms(x: Expr)
    requires Translatable(x)
    ensures ExprToSql(x).Some?
    ensures
      var a := ExprToSql(x).value;
      && ExprToSql(Not(x)) == Some("(NOT " + a + ")")
      && ExprToSql(IsNull(x)) == Some("(" + a + " IS NULL" + ")") && ExprToSql(IsNotNull(x)) == Some("(" + a + " IS NOT NULL" + ")")
      && ExprToSql(IsTrue(x)) == Some("(" + a + " IS TRUE" + ")") && ExprToSql(IsFalse(x)) == Some("(" + a + " IS FALSE" + ")")
  {
    TranslatableIff(x);
    hide Translatable;
  }

  lemma BinaryForm(x: Expr, y: Expr, op: Operator)
    requires Translatable(x) && Translatable(y) && !op.OtherOperator?
    ensures ExprToSql(x).Some? && ExprToSql(y).Some? && OperatorText(op).Some?
    ensures ExprToSql(Binary(x, op, y)) == Some("(" + ExprToSql(x).value + " " + OperatorText(op).value + " " + ExprToSql(y).value + ")")
  {
    TranslatableIff(x);
    TranslatableIff(y);
    hide Translatable;
  }

  lemma BetweenForm(x: Expr, y: Expr, z: Expr, negated: bool)
    requires Translatable(x) && Translatable(y) && Translatable(z)
    ensures ExprToSql(x).Some? && ExprToSql(y).Some? && ExprToSql(z).Some?
    ensures
      var a, b, c := ExprToSql(x).value, ExprToSql(y).value, ExprToSql(z).value;
      ExprToSql(Between(x, negated, y, z)) == Some("(" + a + " " + (if negated then "NOT " else "") + "BETWEEN " + b + " AND " + c + ")")
  {
    TranslatableIff(x);
    TranslatableIff(y);
    TranslatableIff(z);
    hide Translatable;
  }

  /** Reading the printed text gives back the expression up to qualifiers and widths, and stops
      exactly where the text ends. */
  lemma {:induction false} RoundTrip(e: Expr, rest: string)
    requires Translatable(e) && Terminated(rest)
    ensures ExprToSql(e).Some? && Parse(ExprToSql(e).value + rest) == Some((Erase(e), rest))
    decreases e
  {
    TranslatableIff(e);
    match e {
      case Column(_, name) => ColumnRead(name, rest);
      case Literal(s) => LiteralRead(s, rest);
      case Binary(l, op, r) => BinaryRoundTrip(l, op, r, rest);
      case Not(x) => NotRoundTrip(x, rest);
      case IsNull(x) => TestRoundTrip(x, e, "IS NULL", rest);
      case IsNotNull(x) => TestRoundTrip(x, e, "IS NOT NULL", rest);
      case IsTrue(x) => TestRoundTrip(x, e, "IS TRUE", rest);
      case IsFalse(x) => TestRoundTrip(x, e, "IS FALSE", rest);
      case Between(x, negated, lo, hi) => BetweenRoundTrip(x, negated, lo, hi, rest);
    }
  }

  lemma {:induction false} BinaryRoundTrip(l: Expr, op: Operator, r: Expr, rest: string)
    requires Translatable(l) && Translatable(r) && OperatorText(op).Some? && Terminated(rest)
    ensures
      var e := Binary(l, op, r);
      ExprToSql(e).Some? && Parse(ExprToSql(e).value + rest) == Some((Erase(e), rest))
    decreases Binary(l, op, r), 0
  {
    TranslatableIff(l);
    TranslatableIff(r);
    var e, ls, rs, text := Binary(l, op, r), ExprToSql(l).value, ExprToSql(r).value, OperatorText(op).value;
    var y := rs + (")" + rest);
    assert ExprToSql(e) == Some("(" + ls + " " + text + " " + rs + ")") && Erase(e) == Binary(Erase(l), op, Erase(r));
    hide ExprToSql, ParseTail, Parse, ReadWord, OperatorText, Translatable, Close, Erase;
    BinaryText(ls, text, rs, rest);
    RoundTrip(r, ")" + rest);
    RoundTrip(l, " " + (text + " " + y));
    GroupRead(l, text + " " + y);
    OperatorRead(Erase(l), op, y);
    assert (" " + y)[1..] == y;
    Closed(Binary(Erase(l), op, Erase(r)), rest);
  }

  lemma BinaryText(ls: string, text: string, rs: string, rest: string)
    ensures "(" + ls + " " + text + " " + rs + ")" + rest == "(" + (ls + (" " + (text + " " + (rs + (")" + rest)))))
  {
  }

  lemma TestText(xs: string, words: string, rest: string)
    ensures "(" + xs + (" " + words) + ")" + rest == "(" + (xs + (" " + (words + ")" + rest)))
  {
  }

  lemma BetweenText(xs: string, not: string, ls: string, hs: string, rest: string)
    ensures
      var z := " " + "AND" + (" " + (hs + (")" + rest)));
      "(" + xs + " " + not + "BETWEEN " + ls + " AND " + hs + ")" + rest
        == "(" + (xs + (" " + (not + "BETWEEN " + (ls + z))))
  {
    var z := " " + "AND" + (" " + (hs + (")" + rest)));
    assert " AND " == " " + "AND" + " ";
    assert " AND " + hs + ")" + rest == z;
    assert "(" + xs + " " + not + "BETWEEN " + ls + " AND " + hs + ")" + rest
        == ("(" + xs + " " + not + "BETWEEN " + ls) + (" AND " + hs + ")" + rest);
  }

  lemma {:induction false} NotRoundTrip(x: Expr, rest: string)
    requires Translatable(x) && Terminated(rest)
    ensures ExprToSql(Not(x)).Some? && Parse(ExprToSql(Not(x)).value + rest) == Some((Erase(Not(x)), rest))
    decreases Not(x), 0
  {
    hide Translatable, Parse, Close;
    TranslatableIff(x);
    TestForms(x);
    var xs := ExprToSql(x).value;
    RoundTrip(x, ")" + rest);
    hide ExprToSql, Erase;
    assert "(NOT " + xs + ")" + rest == "(" + ("NOT " + (xs + (")" + rest)));
    NegationRead(xs + (")" + rest));
    Closed(Not(Erase(x)), rest);
  }

  lemma NegationRead(y: string)
    ensures
      var r := Parse(y);
      Parse("(" + ("NOT " + y)) == if r.Some? then Close(Not(r.value.0), r.value.1) else None
  {
    hide Close;
    var s := "NOT " + y;
    assert ("(" + s)[1..] == s && ("(" + s)[0] == '(';
    assert s[4..] == y && "NOT " <= s;
    assert Parse("(" + s) == ParseGroup(s);
    hide Parse;
  }

  lemma TestPrinted(x: Expr, e: Expr, words: string)
    requires ExprToSql(x).Some?
    requires
      || (e == IsNull(x) && words == "IS NULL") || (e == IsNotNull(x) && words == "IS NOT NULL")
      || (e == IsTrue(x) && words == "IS TRUE") || (e == IsFalse(x) && words == "IS FALSE")
    ensures ExprToSql(e) == Some("(" + ExprToSql(x).value + (" " + words) + ")")
    ensures
      || (Erase(e) == IsNull(Erase(x)) && words == "IS NULL") || (Erase(e) == IsNotNull(Erase(x)) && words == "IS NOT NULL")
      || (Erase(e) == IsTrue(Erase(x)) && words == "IS TRUE") || (Erase(e) == IsFalse(Erase(x)) && words == "IS FALSE")
  {
    assert " IS NULL" == " " + "IS NULL" && " IS NOT NULL" == " " + "IS NOT NULL";
    assert " IS TRUE" == " " + "IS TRUE" && " IS FALSE" == " " + "IS FALSE";
  }

  lemma {:induction false} TestRoundTrip(x: Expr, e: Expr, words: string, rest: string)
    requires Translatable(x) && Terminated(rest)
    requires
      || (e == IsNull(x) && words == "IS NULL") || (e == IsNotNull(x) && words == "IS NOT NULL")
      || (e == IsTrue(x) && words == "IS TRUE") || (e == IsFalse(x) && words == "IS FALSE")
    ensures ExprToSql(e).Some? && Parse(ExprToSql(e).value + rest) == Some((Erase(e), rest))
    decreases e, 0
  {
    TranslatableIff(x);
    var xs, tail := ExprToSql(x).value, words + ")" + rest;
    TestPrinted(x, e, words);
    hide ExprToSql, Translatable, ParseTail, Parse, Erase;
    TestText(xs, words, rest);
    RoundTrip(x, " " + tail);
    GroupRead(x, tail);
    TestRead(Erase(x), Erase(e), words, rest);
  }

  lemma {:induction false} BetweenRoundTrip(x: Expr, negated: bool, lo: Expr, hi: Expr, rest: string)
    requires Translatable(x) && Translatable(lo) && Translatable(hi) && Terminated(rest)
    ensures
      var e := Between(x, negated, lo, hi);
      ExprToSql(e).Some? && Parse(ExprToSql(e).value + rest) == Some((Erase(e), rest))
    decreases Between(x, negated, lo, hi), 0
  {
    TranslatableIff(x);
    TranslatableIff(lo);
    TranslatableIff(hi);
    var e, xs, ls, hs := Between(x, negated, lo, hi), ExprToSql(x).value, ExprToSql(lo).value, ExprToSql(hi).value;
    var not := if negated then "NOT " else "";
    var z := " " + "AND" + (" " + (hs + (")" + rest)));
    var tail := not + "BETWEEN " + (ls + z);
    assert ExprToSql(e) == Some("(" + xs + " " + not + "BETWEEN " + ls + " AND " + hs + ")");
    assert Erase(e) == Between(Erase(x), negated, Erase(lo), Erase(hi));
    hide ExprToSql, Translatable, ParseTail, Parse, ParseBetween, Erase;
    BetweenText(xs, not, ls, hs, rest);
    RoundTrip(hi, ")" + rest);
    RoundTrip(lo, z);
    RoundTrip(x, " " + tail);
    GroupRead(x, tail);
    BetweenRead(Erase(x), negated, ls + z);
    BoundsRead(Erase(x), negated, ls, Erase(lo), hs, Erase(hi), rest);
  }

  lemma BoundsRead(x: Expr, negated: bool, ls: string, lo: Expr, hs: string, hi: Expr, rest: string)
    requires Parse(hs + (")" + rest)) == Some((hi, ")" + rest))
    requires
      var z := " " + "AND" + (" " + (hs + (")" + rest)));
      Parse(ls + z) == Some((lo, z))
    ensures
      var z := " " + "AND" + (" " + (hs + (")" + rest)));
      ParseBetween(x, negated, " " + (ls + z)) == Some((Between(x, negated, lo, hi), rest))
  {
    hide ReadWord, NextWord, Parse;
    var y := hs + (")" + rest);
    var z := " " + "AND" + (" " + y);
    assert (" " + (ls + z))[1..] == ls + z;
    NextWordRead("AND", " " + y);
    assert (" " + y)[1..] == y;
    Closed(Between(x, negated, lo, hi), rest);
  }

  /** Two filters are sent as the same text exactly when they differ only in qualifiers and widths. */
  lemma SameTextIff(a: Expr, b: Expr)
    requires Translatable(a) && Translatable(b)
    ensures ExprToSql(a) == ExprToSql(b) <==> Erase(a) == Erase(b)
  {
    RoundTrip(a, "");
    RoundTrip(b, "");
    EraseKeepsText(a);
    EraseKeepsText(b);
    hide ExprToSql, Erase;
    assert ExprToSql(a).value + "" == ExprToSql(a).value && ExprToSql(b).value + "" == ExprToSql(b).value;
  }

  lemma {:induction false} EraseKeepsText(e: Expr)
    ensures ExprToSql(Erase(e)) == ExprToSql(e)
  {
    match e
    case Binary(l, _, r) => EraseKeepsText(l); EraseKeepsText(r);
    case Not(x) => EraseKeepsText(x);
    case IsNull(x) => EraseKeepsText(x);
    case IsNotNull(x) => EraseKeepsText(x);
    case IsTrue(x) => EraseKeepsText(x);
    case IsFalse(x) => EraseKeepsText(x);
    case Between(x, _, lo, hi) => EraseKeepsText(x); EraseKeepsText(lo); EraseKeepsText(hi);
    case _ =>
  }
}
