/** Decimal digits, most significant first, as Rust's integer formatting writes them. */
module Decimal {

  type Digit = d: nat | d < 10

  function Digits(n: nat): (ds: seq<Digit>)
    ensures ds != []
  {
    if n < 10 then [n] else Digits(n / 10) + [n % 10]
  }

  function Number(ds: seq<Digit>): nat {
    if ds == [] then 0 else 10 * Number(ds[..|ds| - 1]) + ds[|ds| - 1]
  }

  function DigitChar(d: Digit): char {
    '0' + d as char
  }

  function NatText(n: nat): string {
    var ds := Digits(n);
    seq(|ds|, i requires 0 <= i < |ds| => DigitChar(ds[i]))
  }

  /** The text of an integer: a minus sign when negative, then its digits. */
  function IntText(n: int): string {
    if n < 0 then "-" + NatText(-n) else NatText(n)
  }

  lemma {:induction false} DigitsRoundTrip(n: nat)
    ensures Number(Digits(n)) == n
  {
    if n >= 10 {
      DigitsRoundTrip(n / 10);
      assert Digits(n)[..|Digits(n)| - 1] == Digits(n / 10);
    } else {
      assert Number([n]) == 10 * Number([]) + n;
    }
  }

  lemma NatTextInjective(m: nat, n: nat)
    requires NatText(m) == NatText(n)
    ensures m == n
  {
    var a, b := Digits(m), Digits(n);
    assert |NatText(m)| == |a| && |NatText(n)| == |b|;
    forall i | 0 <= i < |a|
      ensures a[i] == b[i]
    {
      assert NatText(m)[i] == DigitChar(a[i]) && NatText(n)[i] == DigitChar(b[i]);
    }
    assert a == b;
    DigitsRoundTrip(m);
    DigitsRoundTrip(n);
  }

  /** Different integers have different texts. */
  lemma IntTextInjective(m: int, n: int)
    requires IntText(m) == IntText(n)
    ensures m == n
  {
    var x, y := if m < 0 then -m else m, if n < 0 then -n else n;
    assert NatText(x)[0] == DigitChar(Digits(x)[0]) && NatText(y)[0] == DigitChar(Digits(y)[0]);
    assert (m < 0) == (n < 0);
    if m < 0 {
      assert IntText(m)[1..] == NatText(x) && IntText(n)[1..] == NatText(y);
    }
    NatTextInjective(x, y);
  }
}

/** SCD2 vocabulary and the reference meaning of one snapshot run, shared by both sinks. */
module Snapshot {
  import opened Lists
  import opened Decimal

  type Key = seq<string>

  datatype Cell = Null | Text(text: string)

  /** A business row: its key, its tracked columns, its `updated_at`, everything else. */
  datatype Row = Row(key: Key, tracked: seq<Cell>, updatedAt: Option<int>, other: seq<Cell>)

  /** Surrogate ids. A digest is modelled by what is digested: the run's time and the pipe-joined key. */
  datatype ScdId = Fnv(hash: int) | Md5(stamp: int, keyText: string)

  datatype Version = Version(row: Row, id: ScdId, validFrom: int, validTo: Option<int>, isCurrent: bool)

  datatype HardDeletes = Ignore | Invalidate | Delete
  datatype ChangeDetection = Check | Timestamp

  /** What a sink compares to decide whether a row changed. */
  datatype Signal = Hash(hash: int) | Stamp(micros: int) | Values(cells: seq<Cell>) | Moment(at: Option<int>)

  /** The two choices that differ between sinks: the change signal and the surrogate id. */
  datatype Sink = Sink(signal: Row -> Signal, surrogate: (Key, int) -> ScdId)

  datatype Run = Run(staged: seq<Row>, deletes: HardDeletes, now: int)

  datatype Class = Unchanged | Changed | New | Gone

  const I64_MIN := -0x8000_0000_0000_0000
  const NULL_SENTINEL := "\0NULL"

  function Display(c: Cell): string {
    match c
    case Null => NULL_SENTINEL
    case Text(t) => t
  }

  function Displays(cells: seq<Cell>): seq<string> {
    seq(|cells|, i requires 0 <= i < |cells| => Display(cells[i]))
  }

  function JoinBar(key: Key): string {
    if key == [] then [] else if |key| == 1 then key[0] else JoinBar(key[..|key| - 1]) + "|" + key[|key| - 1]
  }

  /** `hash` is the 64-bit field hash; nothing is assumed of it. */
  function ParquetSignal(hash: seq<string> -> int, mode: ChangeDetection, r: Row): Signal {
    match mode
    case Check => Hash(hash(Displays(r.tracked)))
    case Timestamp => Stamp(if r.updatedAt.Some? then r.updatedAt.value else I64_MIN)
  }

  function PostgresSignal(mode: ChangeDetection, r: Row): Signal {
    match mode
    case Check => Values(r.tracked)
    case Timestamp => Moment(r.updatedAt)
  }

  function PostgresId(key: Key, now: int): ScdId {
    Md5(now, JoinBar(key))
  }

  function ParquetSink(hash: seq<string> -> int, mode: ChangeDetection): Sink {
    Sink(r => ParquetSignal(hash, mode, r), (key, now) => Fnv(hash(key + [IntText(now)])))
  }

  function PostgresSink(mode: ChangeDetection): Sink {
    Sink(r => PostgresSignal(mode, r), PostgresId)
  }

  // ---- Reading a table ----

  predicate ValidAt(v: Version, t: int) {
    v.validFrom <= t && (v.validTo.Some? ==> t < v.validTo.value)
  }

  function SignalAtFn(sink: Sink, k: Key, t: int): Version -> Option<Signal> {
    (v: Version) => if v.row.key == k && ValidAt(v, t) then Some(sink.signal(v.row)) else None
  }

  function CurrentFn(sink: Sink, k: Key): Version -> Option<Signal> {
    (v: Version) => if v.row.key == k && v.isCurrent then Some(sink.signal(v.row)) else None
  }

  function StagedFn(sink: Sink, k: Key): Row -> Option<Signal> {
    (r: Row) => if r.key == k then Some(sink.signal(r)) else None
  }

  /** The point-in-time query: the signals of the versions of `k` valid at `t`. */
  function SignalsAt(sink: Sink, table: seq<Version>, k: Key, t: int): seq<Signal> {
    FilterMap(table, SignalAtFn(sink, k, t))
  }

  function CurrentSignals(sink: Sink, table: seq<Version>, k: Key): seq<Signal> {
    FilterMap(table, CurrentFn(sink, k))
  }

  function StagedSignals(sink: Sink, staged: seq<Row>, k: Key): seq<Signal> {
    FilterMap(staged, StagedFn(sink, k))
  }

  // ---- One run ----

  /** The class of a key with these current signals and these staged signals. A key staged
      more than once ends up New: its first occurrence uses up the current signal. */
  function ClassOf(current: seq<Signal>, staged: seq<Signal>): Option<Class> {
    if staged == [] then
      if current == [] then None else Some(Gone)
    else if current == [] || |staged| > 1 then Some(New)
    else if current[|current| - 1] == staged[0] then Some(Unchanged)
    else Some(Changed)
  }

  function Classify(sink: Sink, table: seq<Version>, staged: seq<Row>, k: Key): Option<Class> {
    ClassOf(CurrentSignals(sink, table, k), StagedSignals(sink, staged, k))
  }

  function Close(v: Version, now: int): Version {
    v.(validTo := Some(now), isCurrent := false)
  }

  function Open(sink: Sink, r: Row, now: int): Version {
    Version(r, sink.surrogate(r.key, now), now, None, true)
  }

  /** What becomes of an existing version whose key has class `c`. */
  function Fate(v: Version, c: Option<Class>, run: Run): Option<Version> {
    if c == Some(Gone) && run.deletes == Delete then None
    else if !v.isCurrent then Some(v)
    else if c == Some(Changed) || (c == Some(Gone) && run.deletes == Invalidate) then Some(Close(v, run.now))
    else Some(v)
  }

  function FateFn(sink: Sink, table: seq<Version>, run: Run): Version -> Option<Version> {
    (v: Version) => Fate(v, Classify(sink, table, run.staged, v.row.key), run)
  }

  predicate Opens(c: Option<Class>) {
    c == Some(New) || c == Some(Changed)
  }

  function OpenFn(sink: Sink, table: seq<Version>, run: Run): Row -> Option<Version> {
    (r: Row) => if Opens(Classify(sink, table, run.staged, r.key)) then Some(Open(sink, r, run.now)) else None
  }

  function Survivors(sink: Sink, table: seq<Version>, run: Run): seq<Version> {
    FilterMap(table, FateFn(sink, table, run))
  }

  function Opened(sink: Sink, table: seq<Version>, run: Run): seq<Version> {
    FilterMap(run.staged, OpenFn(sink, table, run))
  }

  function Apply(sink: Sink, table: seq<Version>, run: Run): seq<Version> {
    Survivors(sink, table, run) + Opened(sink, table, run)
  }

  // ---- Well-formedness ----

  predicate DistinctKeys(staged: seq<Row>) {
    forall i, j :: 0 <= i < j < |staged| ==> staged[i].key != staged[j].key
  }

  /** `is_current` iff `valid_to` is null, and closed versions span a real interval. */
  predicate SaneVersion(v: Version) {
    (v.isCurrent <==> v.validTo.None?) && (v.validTo.Some? ==> v.validFrom < v.validTo.value)
  }

  predicate Sane(table: seq<Version>) {
    forall v <- table :: SaneVersion(v)
  }

  predicate BeforeNow(v: Version, now: int) {
    v.validFrom < now && (v.validTo.Some? ==> v.validTo.value < now)
  }

  predicate Before(table: seq<Version>, now: int) {
    forall v <- table :: BeforeNow(v, now)
  }

  lemma {:induction false} DistinctStaged(sink: Sink, staged: seq<Row>, k: Key)
    requires DistinctKeys(staged)
    ensures |StagedSignals(sink, staged, k)| <= 1
    ensures forall r <- staged :: r.key == k ==> StagedSignals(sink, staged, k) == [sink.signal(r)]
  {
    if staged != [] {
      var n, x := |staged| - 1, staged[|staged| - 1];
      DistinctStaged(sink, staged[..n], k);
      assert staged == staged[..n] + [x];
      if x.key == k {
        FilterMapNone(staged[..n], StagedFn(sink, k));
      }
    }
  }

  lemma {:induction false} RepeatedStaged(sink: Sink, staged: seq<Row>)
    ensures (forall k :: |StagedSignals(sink, staged, k)| <= 1) ==> DistinctKeys(staged)
  {
    if forall k :: |StagedSignals(sink, staged, k)| <= 1 {
      forall i, j | 0 <= i < j < |staged|
        ensures staged[i].key != staged[j].key
      {
        if staged[i].key == staged[j].key {
          assert |StagedSignals(sink, staged, staged[i].key)| <= 1;
          FilterMapAtMostOne(staged, StagedFn(sink, staged[i].key), i, j);
        }
      }
    }
  }
}
