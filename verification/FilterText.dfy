/** Filter expressions, the SQL text a pushed filter is sent as, and a reader of that text. */
module FilterText {
  import opened Lists
  import opened Decimal

  datatype Width = W8 | W16 | W32 | W64

  /** Literal scalars. A typed null and an unsigned integer have no SQL text. */
  datatype Scalar =
    | NullScalar
    | Boolean(flag: Option<bool>)
    | Integer(width: Width, number: Option<int>)
    | Unsigned(width: Width, count: Option<nat>)
    | Utf8(large: bool, text: Option<string>)

  datatype Operator =
    | Eq | NotEq | Lt | LtEq | Gt | GtEq | And | Or
    | IsDistinctFrom | IsNotDistinctFrom | LikeMatch | NotLikeMatch
    | OtherOperator(symbol: string)

  datatype Expr =
    | Column(qualifier: Option<string>, name: string)
    | Literal(scalar: Scalar)
    | Binary(left: Expr, op: Operator, right: Expr)
    | Not(inner: Expr)
    | IsNull(inner: Expr)
    | IsNotNull(inner: Expr)
    | IsTrue(inner: Expr)
    | IsFalse(inner: Expr)
    | Between(inner: Expr, negated: bool, low: Expr, high: Expr)
    | OtherExpr(form: string, args: seq<Expr>)

  // ---- Printing ----

  /** Every occurrence of the quote character doubled. */
  function Doubled(quote: char, s: string): string {
    if s == [] then []
    else (if s[0] == quote then [quote, quote] else [s[0]]) + Doubled(quote, s[1..])
  }

  function Quoted(quote: char, s: string): string {
    [quote] + Doubled(quote, s) + [quote]
  }

  function QuoteIdent(ident: string): string {
    Quoted('"', ident)
  }

  function ScalarToSql(s: Scalar): Option<string> {
    match s
    case NullScalar => Some("NULL")
    case Boolean(Some(b)) => Some(if b then "TRUE" else "FALSE")
    case Integer(_, Some(n)) => Some(IntText(n))
    case Utf8(_, Some(t)) => Some(Quoted('\'', t))
    case _ => None
  }

  function OperatorText(op: Operator): Option<string> {
    match op
    case Eq => Some("=")
    case NotEq => Some("!=")
    case Lt => Some("<")
    case LtEq => Some("<=")
    case Gt => Some(">")
    case GtEq => Some(">=")
    case And => Some("AND")
    case Or => Some("OR")
    case IsDistinctFrom => Some("IS DISTINCT FROM")
    case IsNotDistinctFrom => Some("IS NOT DISTINCT FROM")
    case LikeMatch => Some("LIKE")
    case NotLikeMatch => Some("NOT LIKE")
    case OtherOperator(_) => None
  }

  function Suffixed(inner: Option<string>, suffix: string): Option<string> {
    if inner.Some? then Some("(" + inner.value + suffix + ")") else None
  }

  function ExprToSql(e: Expr): Option<string> {
    match e
    case Column(_, name) => Some(QuoteIdent(name))
    case Literal(s) => ScalarToSql(s)
    case Binary(l, op, r) =>
      var left, right, text := ExprToSql(l), ExprToSql(r), OperatorText(op);
      if left.Some? && right.Some? && text.Some?
      then Some("(" + left.value + " " + text.value + " " + right.value + ")")
      else None
    case Not(x) =>
      var inner := ExprToSql(x);
      if inner.Some? then Some("(NOT " + inner.value + ")") else None
    case IsNull(x) => Suffixed(ExprToSql(x), " IS NULL")
    case IsNotNull(x) => Suffixed(ExprToSql(x), " IS NOT NULL")
    case IsTrue(x) => Suffixed(ExprToSql(x), " IS TRUE")
    case IsFalse(x) => Suffixed(ExprToSql(x), " IS FALSE")
    case Between(x, negated, lo, hi) =>
      var inner, low, high := ExprToSql(x), ExprToSql(lo), ExprToSql(hi);
      if inner.Some? && low.Some? && high.Some?
      then Some("(" + inner.value + " " + (if negated then "NOT " else "") + "BETWEEN " + low.value + " AND " + high.value + ")")
      else None
    case OtherExpr(_, _) => None
  }

  // ---- What the text keeps ----

  function EraseScalar(s: Scalar): Scalar {
    match s
    case Integer(_, n) => Integer(W64, n)
    case Utf8(_, t) => Utf8(false, t)
    case _ => s
  }

  /** The expression without column qualifiers and literal widths. */
  function Erase(e: Expr): Expr {
    match e
    case Column(_, name) => Column(None, name)
    case Literal(s) => Literal(EraseScalar(s))
    case Binary(l, op, r) => Binary(Erase(l), op, Erase(r))
    case Not(x) => Not(Erase(x))
    case IsNull(x) => IsNull(Erase(x))
    case IsNotNull(x) => IsNotNull(Erase(x))
    case IsTrue(x) => IsTrue(Erase(x))
    case IsFalse(x) => IsFalse(Erase(x))
    case Between(x, negated, lo, hi) => Between(Erase(x), negated, Erase(lo), Erase(hi))
    case OtherExpr(_, _) => e
  }

  // ---- Reading ----

  type Read = Option<(Expr, string)>

  /** The characters up to the next space or closing parenthesis, and the rest. */
  function ReadWord(s: string): (r: (string, string))
    ensures |r.1| <= |s| && (r.0 != [] ==> |r.1| < |s|)
  {
    if s == [] || s[0] == ' ' || s[0] == ')' then ([], s)
    else var (w, rest) := ReadWord(s[1..]); ([s[0]] + w, rest)
  }

  /** A space and then a word. */
  function NextWord(s: string): (r: Option<(string, string)>)
    ensures r.Some? ==> |r.value.1| < |s|
  {
    if s != [] && s[0] == ' ' then Some(ReadWord(s[1..])) else None
  }

  /** The inside of a quoted text whose opening quote is already read. */
  function Unquote(quote: char, s: string): (r: Option<(string, string)>)
    ensures r.Some? ==> |r.value.1| < |s|
  {
    if s == [] then None
    else if s[0] != quote then
      var r := Unquote(quote, s[1..]);
      if r.Some? then Some(([s[0]] + r.value.0, r.value.1)) else None
    else if |s| > 1 && s[1] == quote then
      var r := Unquote(quote, s[2..]);
      if r.Some? then Some(([quote] + r.value.0, r.value.1)) else None
    else Some(([], s[1..]))
  }

  predicate IsDigit(c: char) {
    '0' <= c <= '9'
  }

  function DigitOf(c: char): Digit {
    if IsDigit(c) then c as int - '0' as int else 0
  }

  function ReadNat(w: string): Option<nat> {
    if w != [] && forall c <- w :: IsDigit(c)
    then Some(Number(seq(|w|, i requires 0 <= i < |w| => DigitOf(w[i]))))
    else None
  }

  function ReadInt(w: string): Option<int> {
    if w != [] && w[0] == '-'
    then var n := ReadNat(w[1..]); if n.Some? then Some(0 - n.value as int) else None
    else var n := ReadNat(w); if n.Some? then Some(n.value) else None
  }

  function ReadLiteral(w: string): Option<Scalar> {
    if w == "NULL" then Some(NullScalar)
    else if w == "TRUE" then Some(Boolean(Some(true)))
    else if w == "FALSE" then Some(Boolean(Some(false)))
    else var n := ReadInt(w); if n.Some? then Some(Integer(W64, n)) else None
  }

  function OneWordOperator(w: string): Option<Operator> {
    if w == "=" then Some(Eq)
    else if w == "!=" then Some(NotEq)
    else if w == "<" then Some(Lt)
    else if w == "<=" then Some(LtEq)
    else if w == ">" then Some(Gt)
    else if w == ">=" then Some(GtEq)
    else if w == "AND" then Some(And)
    else if w == "OR" then Some(Or)
    else if w == "LIKE" then Some(LikeMatch)
    else None
  }

  function Close(e: Expr, s: string): (r: Read)
    ensures r.Some? ==> |r.value.1| < |s|
  {
    if s != [] && s[0] == ')' then Some((e, s[1..])) else None
  }

  function Parse(s: string): (r: Read)
    ensures r.Some? ==> |r.value.1| < |s|
    decreases |s|, 0
  {
    if s == [] then None
    else if s[0] == '"' then
      var r := Unquote('"', s[1..]);
      if r.Some? then Some((Column(None, r.value.0), r.value.1)) else None
    else if s[0] == '\'' then
      var r := Unquote('\'', s[1..]);
      if r.Some? then Some((Literal(Utf8(false, Some(r.value.0))), r.value.1)) else None
    else if s[0] == '(' then ParseGroup(s[1..])
    else
      var (w, rest) := ReadWord(s);
      var v := ReadLiteral(w);
      if w != [] && v.Some? then Some((Literal(v.value), rest)) else None
  }

  /** After an opening parenthesis. */
  function ParseGroup(s: string): (r: Read)
    ensures r.Some? ==> |r.value.1| < |s|
    decreases |s|, 4
  {
    if "NOT " <= s then
      var r := Parse(s[4..]);
      if r.Some? then Close(Not(r.value.0), r.value.1) else None
    else
      var r := Parse(s);
      if r.Some? && r.value.1 != [] && r.value.1[0] == ' ' then ParseTail(r.value.0, r.value.1[1..]) else None
  }

  /** After the first operand of a group. */
  function ParseTail(l: Expr, s: string): (r: Read)
    ensures r.Some? ==> |r.value.1| < |s|
    decreases |s|, 3
  {
    var (w, rest) := ReadWord(s);
    if w == "IS" then ParseIs(l, rest)
    else if w == "NOT" then ParseNot(l, rest)
    else if w == "BETWEEN" then ParseBetween(l, false, rest)
    else
      var op := OneWordOperator(w);
      if op.Some? then ParseOperand(l, op.value, rest) else None
  }

  function ParseIs(l: Expr, s: string): (r: Read)
    ensures r.Some? ==> |r.value.1| < |s|
    decreases |s|, 2
  {
    var w := NextWord(s);
    if w.None? then None
    else if w.value.0 == "NULL" then Close(IsNull(l), w.value.1)
    else if w.value.0 == "TRUE" then Close(IsTrue(l), w.value.1)
    else if w.value.0 == "FALSE" then Close(IsFalse(l), w.value.1)
    else if w.value.0 == "DISTINCT" then ParseFrom(l, IsDistinctFrom, w.value.1)
    else if w.value.0 == "NOT" then ParseIsNot(l, w.value.1)
    else None
  }

  function ParseIsNot(l: Expr, s: string): (r: Read)
    ensures r.Some? ==> |r.value.1| < |s|
    decreases |s|, 2
  {
    var w := NextWord(s);
    if w.None? then None
    else if w.value.0 == "NULL" then Close(IsNotNull(l), w.value.1)
    else if w.value.0 == "DISTINCT" then ParseFrom(l, IsNotDistinctFrom, w.value.1)
    else None
  }

  function ParseFrom(l: Expr, op: Operator, s: string): (r: Read)
    ensures r.Some? ==> |r.value.1| < |s|
    decreases |s|, 1
  {
    var w := NextWord(s);
    if w.Some? && w.value.0 == "FROM" then ParseOperand(l, op, w.value.1) else None
  }

  function ParseNot(l: Expr, s: string): (r: Read)
    ensures r.Some? ==> |r.value.1| < |s|
    decreases |s|, 2
  {
    var w := NextWord(s);
    if w.None? then None
    else if w.value.0 == "LIKE" then ParseOperand(l, NotLikeMatch, w.value.1)
    else if w.value.0 == "BETWEEN" then ParseBetween(l, true, w.value.1)
    else None
  }

  function ParseOperand(l: Expr, op: Operator, s: string): (r: Read)
    ensures r.Some? ==> |r.value.1| < |s|
    decreases |s|, 1
  {
    if s != [] && s[0] == ' ' then
      var r := Parse(s[1..]);
      if r.Some? then Close(Binary(l, op, r.value.0), r.value.1) else None
    else None
  }

  function ParseBetween(x: Expr, negated: bool, s: string): (r: Read)
    ensures r.Some? ==> |r.value.1| < |s|
    decreases |s|, 1
  {
    if s != [] && s[0] == ' ' then
      var lo := Parse(s[1..]);
      if lo.Some? then
        var w := NextWord(lo.value.1);
        if w.Some? && w.value.0 == "AND" && w.value.1 != [] && w.value.1[0] == ' ' then
          var hi := Parse(w.value.1[1..]);
          if hi.Some? then Close(Between(x, negated, lo.value.0, hi.value.0), hi.value.1) else None
        else None
      else None
    else None
  }
}
