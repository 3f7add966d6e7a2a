/**
 * The line selector: get_bus_sort_key, get_sorted_bus_lines and
 * filter_departures_by_selected_lines.
 */
module BusLines {
  import opened Wrappers
  import opened Seqs
  import opened Departures

  predicate IsDigit(c: char) {
    '0' <= c <= '9'
  }

  /** The digit characters of `s`, left to right. */
  function Digits(s: string): (r: string)
    ensures forall i :: 0 <= i < |r| ==> IsDigit(r[i])
    ensures |r| == 0 <==> forall i :: 0 <= i < |s| ==> !IsDigit(s[i])
    ensures |r| <= |s|
  {
    if |s| == 0 then ""
    else
      var rest := Digits(s[1..]);
      assert forall i :: 1 <= i < |s| ==> s[i] == s[1..][i - 1];
      if IsDigit(s[0]) then [s[0]] + rest else rest
  }

  function DigitValue(c: char): nat
    requires IsDigit(c)
  {
    c as int - '0' as int
  }

  /**
   * Python's `int()` on a string of decimal digits. It is only applied to a
   * non-empty result of `Digits`; `int("")` would raise, while this gives 0.
   */
  function DecimalValue(ds: string): nat
    requires forall i :: 0 <= i < |ds| ==> IsDigit(ds[i])
  {
    if |ds| == 0 then 0
    else DecimalValue(ds[..|ds| - 1]) * 10 + DigitValue(ds[|ds| - 1])
  }

  /** A sort key: the number formed by a line's digits, or +infinity for a line without digits. */
  datatype SortKey = Num(n: nat) | Infinity

  /** The order on sort keys, where every number is below infinity. */
  predicate KeyLe(a: SortKey, b: SortKey) {
    match (a, b)
    case (Num(x), Num(y)) => x <= y
    case (Num(_), Infinity) => true
    case (Infinity, Num(_)) => false
    case (Infinity, Infinity) => true
  }

  /** get_bus_sort_key: all digits of the line, concatenated and read as a decimal number. */
  function BusSortKey(line: string): (k: SortKey)
    ensures k == Infinity <==> forall i :: 0 <= i < |line| ==> !IsDigit(line[i])
  {
    var ds := Digits(line);
    if |ds| == 0 then Infinity else Num(DecimalValue(ds))
  }

  lemma {:induction false} DigitsAppend(a: string, b: string)
    ensures Digits(a + b) == Digits(a) + Digits(b)
    decreases |a|
  {
    if |a| == 0 {
      assert a + b == b;
    } else {
      assert (a + b)[0] == a[0];
      assert (a + b)[1..] == a[1..] + b;
      DigitsAppend(a[1..], b);
    }
  }

  /** A letter, wherever it stands in the line, does not change the key. */
  lemma NonDigitIgnored(a: string, c: char, b: string)
    requires !IsDigit(c)
    ensures BusSortKey(a + [c] + b) == BusSortKey(a + b)
  {
    DigitsAppend(a + [c], b);
    DigitsAppend(a, [c]);
    DigitsAppend(a, b);
    assert Digits([c]) == [] by {
      assert [c][1..] == [];
    }
    assert Digits(a + [c]) == Digits(a);
  }

  /** The number a key stands for, with infinity read as "no digits yet". */
  function ValueSoFar(k: SortKey): nat {
    match k
    case Num(n) => n
    case Infinity => 0
  }

  /** A digit appended to the line is appended to the number: digits are read left to right. */
  lemma DigitAppended(s: string, c: char)
    requires IsDigit(c)
    ensures BusSortKey(s + [c]) == Num(ValueSoFar(BusSortKey(s)) * 10 + DigitValue(c))
  {
    DigitsAppend(s, [c]);
    assert Digits([c]) == [c] by {
      assert [c][1..] == [];
    }
    var ds := Digits(s) + [c];
    assert ds[..|ds| - 1] == Digits(s);
    assert ds[|ds| - 1] == c;
    assert DecimalValue(ds) == DecimalValue(Digits(s)) * 10 + DigitValue(c);
    if |Digits(s)| > 0 {
      assert BusSortKey(s) == Num(DecimalValue(Digits(s)));
    } else {
      assert BusSortKey(s) == Infinity;
      assert DecimalValue(Digits(s)) == 0;
    }
  }

  /** A line made only of digits is all digits: Digits keeps it whole. */
  lemma {:induction false} AllDigitsKept(s: string)
    requires forall i :: 0 <= i < |s| ==> IsDigit(s[i])
    ensures Digits(s) == s
    decreases |s|
  {
    if |s| > 0 {
      assert forall i :: 0 <= i < |s[1..]| ==> s[1..][i] == s[i + 1];
      AllDigitsKept(s[1..]);
      assert s == [s[0]] + s[1..];
    }
  }

  lemma TwoDigitKey(a: char, b: char)
    requires IsDigit(a) && IsDigit(b)
    ensures BusSortKey([a, b]) == Num(10 * DigitValue(a) + DigitValue(b))
  {
    AllDigitsKept([a, b]);
    assert [a][..0] == [];
    assert DecimalValue([a]) == DigitValue(a);
    assert [a, b][..1] == [a];
    assert DecimalValue([a, b]) == 10 * DigitValue(a) + DigitValue(b);
  }

  lemma ThreeDigitKey(a: char, b: char, c: char)
    requires IsDigit(a) && IsDigit(b) && IsDigit(c)
    ensures BusSortKey([a, b, c]) == Num(100 * DigitValue(a) + 10 * DigitValue(b) + DigitValue(c))
  {
    AllDigitsKept([a, b, c]);
    assert [a][..0] == [];
    assert DecimalValue([a]) == DigitValue(a);
    assert [a, b][..1] == [a];
    assert DecimalValue([a, b]) == 10 * DigitValue(a) + DigitValue(b);
    assert [a, b, c][..2] == [a, b];
    assert DecimalValue([a, b, c]) == 100 * DigitValue(a) + 10 * DigitValue(b) + DigitValue(c);
  }

  lemma Key409()
    ensures BusSortKey("409") == Num(409)
  {
    ThreeDigitKey('4', '0', '9');
    assert "409" == ['4', '0', '9'];
  }

  lemma Key428X()
    ensures BusSortKey("428X") == Num(428)
  {
    ThreeDigitKey('4', '2', '8');
    NonDigitIgnored(['4', '2', '8'], 'X', []);
    assert "428X" == ['4', '2', '8'] + ['X'] + [];
    assert ['4', '2', '8'] + [] == ['4', '2', '8'];
  }

  lemma Key71T()
    ensures BusSortKey("71T") == Num(71)
  {
    TwoDigitKey('7', '1');
    NonDigitIgnored(['7', '1'], 'T', []);
    assert "71T" == ['7', '1'] + ['T'] + [];
    assert ['7', '1'] + [] == ['7', '1'];
  }

  /** Letters after the digits are ignored: "428X" sorts as 428 and "71T" as 71. */
  lemma SortKeyExamples()
    ensures BusSortKey("409") == Num(409)
    ensures BusSortKey("428X") == Num(428)
    ensures BusSortKey("71T") == Num(71)
  {
    Key409();
    Key428X();
    Key71T();
  }

  /** The order the line selector sorts by. */
  function LineLe(): (string, string) -> bool {
    (a: string, b: string) => KeyLe(BusSortKey(a), BusSortKey(b))
  }

  lemma LineLeTotalPreorder()
    ensures TotalPreorder(LineLe())
  {
  }

  /** A line without digits sorts after every line with digits. */
  lemma NoDigitsLast(numeric: string, letters: string)
    requires exists i :: 0 <= i < |numeric| && IsDigit(numeric[i])
    requires forall i :: 0 <= i < |letters| ==> !IsDigit(letters[i])
    ensures LineLe()(numeric, letters) && !LineLe()(letters, numeric)
  {
  }

  /** The line of every departure, in order. */
  function LinesOf(ds: seq<Departure>): (r: seq<string>)
    ensures |r| == |ds|
    ensures forall i :: 0 <= i < |ds| ==> r[i] == ds[i].line
  {
    seq(|ds|, i requires 0 <= i < |ds| => ds[i].line)
  }

  /**
   * get_sorted_bus_lines: every line that occurs in `ds`, once, ordered by
   * sort key. Lines with equal keys keep their first-occurrence order here;
   * the source leaves their order to Python's set iteration.
   */
  function SortedBusLines(ds: seq<Departure>): (r: seq<string>)
    ensures NoDuplicates(r)
    ensures forall l :: l in r <==> exists d :: d in ds && d.line == l
    ensures SortedBy(r, LineLe())
  {
    var lines := Distinct(LinesOf(ds));
    var r := SortBy(lines, LineLe());
    LineLeTotalPreorder();
    SortBySorted(lines, LineLe());
    PermutationKeepsNoDuplicates(lines, r);
    SameMembers(lines, r);
    LinesOfMembers(ds);
    r
  }

  lemma LinesOfMembers(ds: seq<Departure>)
    ensures forall l :: l in Distinct(LinesOf(ds)) <==> exists d :: d in ds && d.line == l
  {
    var lines := LinesOf(ds);
    var dl := Distinct(lines);
    forall l
      ensures l in dl <==> exists d :: d in ds && d.line == l
    {
      if l in dl {
        var i :| 0 <= i < |dl| && dl[i] == l;
        assert l in lines;
        var j :| 0 <= j < |lines| && lines[j] == l;
        assert ds[j] in ds && ds[j].line == l;
      }
      if exists d :: d in ds && d.line == l {
        var d :| d in ds && d.line == l;
        var j :| 0 <= j < |ds| && ds[j] == d;
        assert lines[j] == l;
      }
    }
  }

  /** The four columns of a displayed row: Linje, Destination, Avgår, Hållplats. */
  datatype Row = Row(line: string, destination: string, display: string, stopPoint: string)

  function Project(d: Departure): Row {
    Row(d.line, d.destination, d.display, d.stopPoint)
  }

  /** The row of a departure whose line is selected. */
  function Selector(selected: seq<string>): Departure -> Option<Row> {
    (d: Departure) => if d.line in selected then Some(Project(d)) else None
  }

  /** filter_departures_by_selected_lines: the rows of the selected departures, in input order. */
  function FilterBySelection(ds: seq<Departure>, selected: seq<string>): (rows: seq<Row>)
    ensures |rows| <= |ds|
    ensures forall row :: row in rows ==> row.line in selected
    ensures |selected| == 0 ==> rows == []
    ensures (forall d :: d in ds ==> d.line in selected) ==> |rows| == |ds|
  {
    FilterMapKeeps(ds, Selector(selected), (row: Row) => row.line in selected);
    FilterMap(ds, Selector(selected))
  }

  /**
   * The rows are exactly the projections of the selected departures in input
   * order: there are increasing positions they come from, and every
   * departure of a selected line is among them. Any other sequence with
   * such positions is the same sequence.
   */
  lemma FilterBySelectionExact(ds: seq<Departure>, selected: seq<string>)
    ensures exists idx :: IsFilterMapping(ds, Selector(selected), FilterBySelection(ds, selected), idx)
    ensures forall rows, idx :: IsFilterMapping(ds, Selector(selected), rows, idx)
              ==> rows == FilterBySelection(ds, selected)
  {
    assert FilterBySelection(ds, selected) == FilterMap(ds, Selector(selected));
    FilterMapSelects(ds, Selector(selected));
    forall rows, idx | IsFilterMapping(ds, Selector(selected), rows, idx)
      ensures rows == FilterBySelection(ds, selected)
    {
      FilterMappingUnique(ds, Selector(selected), rows, idx);
    }
  }

  /** Selecting every line the selector offers shows every departure, in order. */
  lemma {:induction false} AllLinesShowsAll(ds: seq<Departure>)
    ensures FilterBySelection(ds, SortedBusLines(ds)) == seq(|ds|, i requires 0 <= i < |ds| => Project(ds[i]))
    decreases |ds|
  {
    var sel := SortedBusLines(ds);
    assert FilterBySelection(ds, sel) == FilterMap(ds, Selector(sel));
    AllSelectedProjects(ds, sel);
  }

  lemma {:induction false} AllSelectedProjects(ds: seq<Departure>, sel: seq<string>)
    requires forall i :: 0 <= i < |ds| ==> ds[i].line in sel
    ensures FilterMap(ds, Selector(sel)) == seq(|ds|, i requires 0 <= i < |ds| => Project(ds[i]))
    decreases |ds|
  {
    if |ds| > 0 {
      assert forall i :: 0 <= i < |ds[1..]| ==> ds[1..][i] == ds[i + 1];
      AllSelectedProjects(ds[1..], sel);
    }
  }
}
