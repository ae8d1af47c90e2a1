/** The table of all strategies with their importances, as the selector is given it. */
module Table {
  import Selection

  /** The strategies in the order of their table. Plain ones neither recurse nor touch the
      labels, the modelled stack or the budget. */
  datatype Kind = Opcode | CreateRandom | CreateCall | Jumpdest | Jump | LabelJump | BoundedLoop | StackAware | ArithEdge
                | StaticContext | ReturnDataCopy | SelfDestruct | InvalidJump | StackFill | Plain(n: nat)

  datatype Row = Row(kind: Kind, importance: int)

  const BASIC: seq<Row> := [
    Row(Opcode, 10), Row(Plain(1), 1), Row(Plain(2), 3), Row(Plain(3), 3), Row(Plain(4), 3), Row(Plain(5), 1),
    Row(Plain(6), 1), Row(Plain(7), 4), Row(Plain(8), 2), Row(Plain(9), 1), Row(Plain(10), 1), Row(Plain(11), 1),
    Row(Plain(12), 1)]
  const CALLS: seq<Row> := [Row(CreateRandom, 4), Row(CreateCall, 5), Row(Plain(13), 4), Row(Plain(14), 8)]
  const JUMPS: seq<Row> := [Row(Jumpdest, 5), Row(Jump, 7), Row(LabelJump, 5), Row(BoundedLoop, 4)]
  const STACK: seq<Row> := [Row(StackAware, 12), Row(ArithEdge, 6)]
  const COVERAGE: seq<Row> := [
    Row(StaticContext, 3), Row(Plain(15), 2), Row(Plain(16), 2), Row(Plain(17), 2), Row(Plain(18), 1),
    Row(ReturnDataCopy, 2), Row(Plain(19), 2), Row(Plain(20), 2), Row(SelfDestruct, 1), Row(InvalidJump, 1),
    Row(StackFill, 1)]

  const TABLE: seq<Row> := BASIC + CALLS + JUMPS + STACK + COVERAGE

  /** What the fallback, at the end of the table, stands for. */
  const FALLBACK_KIND := Plain(0)

  /** Rows as the selector sees them. */
  function Weighed(rows: seq<Row>): (ss: seq<Selection.Strategy>)
    ensures |ss| == |rows|
  {
    seq(|rows|, i requires 0 <= i < |rows| => Selection.Strategy(rows[i].importance, false))
  }

  function Weights(): seq<Selection.Strategy>
  {
    Weighed(TABLE)
  }

  /** The strategy at index i of the selector. */
  function KindAt(i: nat): Kind
    requires i <= |TABLE|
  {
    if i < |TABLE| then TABLE[i].kind else FALLBACK_KIND
  }

  /** Where a kind stands in the table: the groups one after the other, then the fallback. */
  function IndexOf(kind: Kind): nat
  {
    match kind
    case Opcode => 0
    case CreateRandom => 13
    case CreateCall => 14
    case Jumpdest => 17
    case Jump => 18
    case LabelJump => 19
    case BoundedLoop => 20
    case StackAware => 21
    case ArithEdge => 22
    case StaticContext => 23
    case ReturnDataCopy => 28
    case SelfDestruct => 31
    case InvalidJump => 32
    case StackFill => 33
    case Plain(n) => if n == 0 then 34 else if n <= 12 then n else if n <= 14 then n + 2
                     else if n <= 18 then n + 9 else n + 10
  }

  /** Every kind is chosen by its own index and by no other. */
  lemma KindIndex(i: nat)
    requires i <= |TABLE|
    ensures IndexOf(KindAt(i)) == i
  {
    GroupIndex();
    TablePlaces(i);
    hide BASIC;
    hide CALLS;
    hide JUMPS;
    hide STACK;
    hide COVERAGE;
    hide IndexOf;
  }

  lemma GroupIndex()
    ensures |BASIC| == 13 && |CALLS| == 4 && |JUMPS| == 4 && |STACK| == 2 && |COVERAGE| == 11
    ensures forall i :: 0 <= i < 13 ==> IndexOf(BASIC[i].kind) == i
    ensures forall i :: 0 <= i < 4 ==> IndexOf(CALLS[i].kind) == 13 + i
    ensures forall i :: 0 <= i < 4 ==> IndexOf(JUMPS[i].kind) == 17 + i
    ensures forall i :: 0 <= i < 2 ==> IndexOf(STACK[i].kind) == 21 + i
    ensures forall i :: 0 <= i < 11 ==> IndexOf(COVERAGE[i].kind) == 23 + i
    ensures IndexOf(FALLBACK_KIND) == 34
  {
  }

  lemma TablePlaces(i: nat)
    requires |BASIC| == 13 && |CALLS| == 4 && |JUMPS| == 4 && |STACK| == 2 && |COVERAGE| == 11 && i <= |TABLE|
    ensures |TABLE| == 34
    ensures KindAt(i) == if i < 13 then BASIC[i].kind else if i < 17 then CALLS[i - 13].kind
                         else if i < 21 then JUMPS[i - 17].kind else if i < 23 then STACK[i - 21].kind
                         else if i < 34 then COVERAGE[i - 23].kind else FALLBACK_KIND
  {
    hide BASIC;
    hide CALLS;
    hide JUMPS;
    hide STACK;
    hide COVERAGE;
  }

  lemma TableSize()
    ensures |Weights() + [Selection.FALLBACK]| == |TABLE| + 1
  {
  }

  function Importances(rows: seq<Row>): int
  {
    if rows == [] then 0 else rows[0].importance + Importances(rows[1..])
  }

  lemma {:induction false} ImportancesJoin(a: seq<Row>, b: seq<Row>)
    ensures Importances(a + b) == Importances(a) + Importances(b)
    decreases |a|
  {
    if a == [] {
      assert a + b == b;
    } else {
      assert (a + b)[1..] == a[1..] + b;
      ImportancesJoin(a[1..], b);
    }
  }

  lemma First(r: Row, rows: seq<Row>)
    ensures Importances([r] + rows) == r.importance + Importances(rows)
  {
    assert ([r] + rows)[1..] == rows;
  }

  lemma Four(a: Row, b: Row, c: Row, d: Row, rows: seq<Row>)
    ensures Importances([a, b, c, d] + rows) == a.importance + b.importance + c.importance + d.importance + Importances(rows)
  {
    hide Importances;
    First(a, [b, c, d] + rows);
    First(b, [c, d] + rows);
    First(c, [d] + rows);
    First(d, rows);
    assert [a, b, c, d] + rows == [a] + ([b, c, d] + rows);
    assert [b, c, d] + rows == [b] + ([c, d] + rows);
    assert [c, d] + rows == [c] + ([d] + rows);
  }

  /** Four rows more, counted off a group at position i. */
  lemma Next4(rows: seq<Row>, i: nat)
    requires i + 4 <= |rows|
    ensures Importances(rows[i..]) == rows[i].importance + rows[i + 1].importance + rows[i + 2].importance
                                      + rows[i + 3].importance + Importances(rows[i + 4..])
  {
    hide Importances;
    Four(rows[i], rows[i + 1], rows[i + 2], rows[i + 3], rows[i + 4..]);
    assert rows[i..] == [rows[i], rows[i + 1], rows[i + 2], rows[i + 3]] + rows[i + 4..];
  }

  lemma Next1(rows: seq<Row>, i: nat)
    requires i < |rows|
    ensures Importances(rows[i..]) == rows[i].importance + Importances(rows[i + 1..])
  {
    assert rows[i..][1..] == rows[i + 1..];
  }

  lemma TableSum()
    ensures |TABLE| == 34 && Importances(TABLE) == 111
  {
    GroupSums();
    ImportancesJoin(BASIC, CALLS);
    ImportancesJoin(BASIC + CALLS, JUMPS);
    ImportancesJoin(BASIC + CALLS + JUMPS, STACK);
    ImportancesJoin(BASIC + CALLS + JUMPS + STACK, COVERAGE);
  }

  lemma GroupSums()
    ensures Importances(BASIC) == 32 && Importances(CALLS) == 21 && Importances(JUMPS) == 21
    ensures Importances(STACK) == 18 && Importances(COVERAGE) == 19
  {
    hide Importances;
    assert BASIC[0..] == BASIC && CALLS[0..] == CALLS && JUMPS[0..] == JUMPS && STACK[0..] == STACK && COVERAGE[0..] == COVERAGE;
    Next4(BASIC, 0);
    Next4(BASIC, 4);
    Next4(BASIC, 8);
    Next1(BASIC, 12);
    Next4(CALLS, 0);
    Next4(JUMPS, 0);
    Next1(STACK, 0);
    Next1(STACK, 1);
    Next4(COVERAGE, 0);
    Next4(COVERAGE, 4);
    Next1(COVERAGE, 8);
    Next1(COVERAGE, 9);
    Next1(COVERAGE, 10);
    NoRows();
    assert BASIC[13..] == CALLS[4..] == JUMPS[4..] == STACK[2..] == COVERAGE[11..] == [];
  }

  lemma NoRows()
    ensures Importances([]) == 0
  {
  }

  lemma {:induction false} BeforeInRows(rows: seq<Row>, i: nat)
    requires i <= |rows| && forall j :: 0 <= j < |rows| ==> rows[j].importance >= 1
    ensures Selection.Before(Weighed(rows) + [Selection.FALLBACK], i) == Importances(rows[..i])
  {
    if i > 0 {
      BeforeInRows(rows, i - 1);
      assert rows[..i] == rows[..i - 1] + [rows[i - 1]];
      ImportancesJoin(rows[..i - 1], [rows[i - 1]]);
      First(rows[i - 1], []);
      NoRows();
      hide Importances;
    } else {
      NoRows();
    }
  }

  lemma Positive()
    ensures forall j :: 0 <= j < |TABLE| ==> TABLE[j].importance >= 1
  {
  }

  /** The weights of the strategies sum to 128, so of the 65536 draws each strategy gets
      exactly 512 for every unit of its weight: none of them is favoured by the remainder. */
  lemma TableIsExact(i: nat)
    requires i <= |TABLE|
    ensures |TABLE| == 34 && |Weights() + [Selection.FALLBACK]| == 35
    ensures var ss := Weights() + [Selection.FALLBACK];
            Selection.Sum(ss) == 128 && Selection.Share(ss, i, Selection.DRAWS) == 512 * Selection.Weight(ss[i])
  {
    var ss := Weights() + [Selection.FALLBACK];
    TableSum();
    Positive();
    hide Importances;
    hide TABLE;
    BeforeInRows(TABLE, 34);
    assert TABLE[..34] == TABLE;
    assert Selection.Before(ss, 35) == 128;
    Selection.ShareExactly(ss, i, Selection.DRAWS);
    assert Selection.DRAWS == 128 * 512 && Selection.DRAWS % 128 == 0;
  }
}
