/**
 * The order of the departure table: the sort at the end of
 * fetch_departure_data, ascending by expected time with untimed departures
 * last.
 *
 * As written, the sort key is `x["expected"] or datetime.max`. Every parsed
 * time is timezone-aware (UTC) while `datetime.max` is naive, and Python
 * raises TypeError when it compares the two. The sort therefore succeeds only
 * when all departures are timed or all are untimed. `SortAsWritten` models
 * that; `SortDepartures` is the intended order the comment above the sort
 * states, and the rest of the model uses it.
 */
module DepartureOrder {
  import opened Wrappers
  import opened Seqs
  import opened ExpectedTime
  import opened Departures

  /** The position of a departure in time; `Never` is after every instant. */
  datatype TimeKey = At(t: Instant) | Never

  function TimeKeyOf(d: Departure): TimeKey {
    match d.expected
    case Some(t) => At(t)
    case None => Never
  }

  predicate TimeLe(a: TimeKey, b: TimeKey) {
    match (a, b)
    case (At(x), At(y)) => x <= y
    case (At(_), Never) => true
    case (Never, At(_)) => false
    case (Never, Never) => true
  }

  /** The intended departure order. */
  function DepartureLe(): (Departure, Departure) -> bool {
    (a: Departure, b: Departure) => TimeLe(TimeKeyOf(a), TimeKeyOf(b))
  }

  lemma DepartureLeTotalPreorder()
    ensures TotalPreorder(DepartureLe())
  {
  }

  /**
   * The intended sort: by expected time, untimed departures after all timed
   * ones, and a stable order among departures due at the same instant.
   */
  function SortDepartures(ds: seq<Departure>): (r: seq<Departure>)
    ensures multiset(r) == multiset(ds)
    ensures SortedBy(r, DepartureLe())
    ensures forall i, j :: 0 <= i < j < |r| && r[i].expected.None? ==> r[j].expected.None?
    ensures forall i, j :: 0 <= i < j < |r| && r[j].expected.Some? ==> r[i].expected.Some? && r[i].expected.value <= r[j].expected.value
  {
    DepartureLeTotalPreorder();
    SortBySorted(ds, DepartureLe());
    var r := SortBy(ds, DepartureLe());
    assert forall i, j :: 0 <= i < j < |r| ==> DepartureLe()(r[i], r[j]);
    r
  }

  /** Departures due at the same time (or all the untimed ones) keep their input order. */
  lemma SortDeparturesStable(ds: seq<Departure>, e: Departure)
    ensures Filter(SortDepartures(ds), EquivalentTo(DepartureLe(), e)) == Filter(ds, EquivalentTo(DepartureLe(), e))
  {
    DepartureLeTotalPreorder();
    SortByStable(ds, DepartureLe(), e);
  }

  /** The three-record example: 410 due at t1, 409 at a later t2, 420 untimed. */
  lemma SortExample(d409: Departure, d410: Departure, d420: Departure, t1: Instant, t2: Instant)
    requires t1 < t2
    requires d409.expected == Some(t2) && d410.expected == Some(t1) && d420.expected.None?
    ensures SortDepartures([d409, d410, d420]) == [d410, d409, d420]
  {
    assert SortDepartures([d409, d410, d420]) == SortBy([d409, d410, d420], DepartureLe());
    SortByExample(d409, d410, d420, t1, t2);
  }

  lemma SortByExample(d409: Departure, d410: Departure, d420: Departure, t1: Instant, t2: Instant)
    requires t1 < t2
    requires d409.expected == Some(t2) && d410.expected == Some(t1) && d420.expected.None?
    ensures SortBy([d409, d410, d420], DepartureLe()) == [d410, d409, d420]
  {
    var le := DepartureLe();
    assert [d420][1..] == [];
    assert SortBy([d420], le) == [d420];
    assert [d410, d420][1..] == [d420];
    assert SortBy([d410, d420], le) == [d410, d420];
    assert [d409, d410, d420][1..] == [d410, d420];
    assert InsertBy(d409, [d420], le) == [d409, d420];
  }

  // ---------------------------------------------------------------------------
  // The sort as written
  // ---------------------------------------------------------------------------

  /**
   * `(a or datetime.max) < (b or datetime.max)` for two expected times. `None`
   * is the TypeError Python raises when it compares the naive `datetime.max`
   * with an aware time.
   */
  function LessAsWritten(a: Option<Instant>, b: Option<Instant>): (r: Option<bool>)
    ensures r.None? <==> a.Some? != b.Some?
  {
    match (a, b)
    case (Some(x), Some(y)) => Some(x < y)
    case (None, None) => Some(false)
    case _ => None
  }

  /**
   * Insertion of `x` in front of the first element it is not greater than,
   * asking only `<` as Python's sort does; `None` when a comparison raises.
   */
  function InsertAsWritten(x: Departure, s: seq<Departure>): (r: Option<seq<Departure>>)
    ensures r.Some? ==> multiset(r.value) == multiset(s) + multiset{x}
  {
    if |s| == 0 then Some([x])
    else
      match LessAsWritten(s[0].expected, x.expected)
      case None => None
      case Some(false) => Some([x] + s)
      case Some(true) =>
        match InsertAsWritten(x, s[1..])
        case None => None
        case Some(t) =>
          assert s == [s[0]] + s[1..];
          Some([s[0]] + t)
  }

  /**
   * The sort as written, as an insertion sort with Python's comparison. On
   * two elements it asks the single question Python's sort asks,
   * `list[1] < list[0]`.
   */
  function SortAsWritten(ds: seq<Departure>): (r: Option<seq<Departure>>)
    ensures r.Some? ==> multiset(r.value) == multiset(ds)
  {
    if |ds| == 0 then Some([])
    else
      match SortAsWritten(ds[1..])
      case None => None
      case Some(s) =>
        assert ds == [ds[0]] + ds[1..];
        InsertAsWritten(ds[0], s)
  }

  /** A timed and an untimed departure cannot be sorted as written, in either order. */
  lemma MixedTimesRaise(timed: Departure, untimed: Departure)
    requires timed.expected.Some? && untimed.expected.None?
    ensures SortAsWritten([timed, untimed]).None?
    ensures SortAsWritten([untimed, timed]).None?
    ensures SortDepartures([untimed, timed]) == [timed, untimed]
    ensures SortDepartures([timed, untimed]) == [timed, untimed]
  {
    assert [timed, untimed][1..] == [untimed];
    assert [untimed, timed][1..] == [timed];
    assert [untimed][1..] == [] && [timed][1..] == [];
    assert SortAsWritten([untimed]) == Some([untimed]);
    assert SortAsWritten([timed]) == Some([timed]);
    var le := DepartureLe();
    assert SortBy([untimed], le) == [untimed];
    assert SortBy([timed], le) == [timed];
  }

  /** All expected times are present, or all are absent. */
  predicate UniformTimes(ds: seq<Departure>) {
    (forall i :: 0 <= i < |ds| ==> ds[i].expected.Some?) || (forall i :: 0 <= i < |ds| ==> ds[i].expected.None?)
  }

  lemma {:induction false} InsertAgrees(x: Departure, s: seq<Departure>)
    requires UniformTimes([x] + s)
    ensures InsertAsWritten(x, s) == Some(InsertBy(x, s, DepartureLe()))
    decreases |s|
  {
    if |s| > 0 {
      assert ([x] + s)[1] == s[0];
      assert [x] + s[1..] == ([x] + s)[..1] + ([x] + s)[2..];
      assert UniformTimes([x] + s[1..]) by {
        forall i | 1 <= i < |[x] + s[1..]|
          ensures ([x] + s[1..])[i] == ([x] + s)[i + 1]
        {
        }
      }
      InsertAgrees(x, s[1..]);
    }
  }

  /** Reordering keeps uniform times uniform. */
  lemma UniformPermutation(a: seq<Departure>, b: seq<Departure>)
    requires multiset(a) == multiset(b)
    requires UniformTimes(a)
    ensures UniformTimes(b)
  {
    forall i | 0 <= i < |b|
      ensures b[i] in a
    {
      assert b[i] in multiset(b);
    }
    if forall i :: 0 <= i < |a| ==> a[i].expected.Some? {
      forall i | 0 <= i < |b|
        ensures b[i].expected.Some?
      {
        var j :| 0 <= j < |a| && a[j] == b[i];
      }
    } else {
      forall i | 0 <= i < |b|
        ensures b[i].expected.None?
      {
        var j :| 0 <= j < |a| && a[j] == b[i];
      }
    }
  }

  /** Where Python's sort does not raise (uniform times), it agrees with the intended order. */
  lemma {:induction false} UniformAgrees(ds: seq<Departure>)
    requires UniformTimes(ds)
    ensures SortAsWritten(ds) == Some(SortDepartures(ds))
    decreases |ds|
  {
    if |ds| > 0 {
      assert ds == [ds[0]] + ds[1..];
      UniformPermutation(ds, [ds[0]] + ds[1..]);
      assert UniformTimes(ds[1..]) by {
        forall i | 0 <= i < |ds[1..]|
          ensures ds[1..][i] == ds[i + 1]
        {
        }
      }
      UniformAgrees(ds[1..]);
      var s := SortBy(ds[1..], DepartureLe());
      assert SortDepartures(ds[1..]) == s;
      assert SortDepartures(ds) == InsertBy(ds[0], s, DepartureLe());
      UniformPermutation(ds, [ds[0]] + s);
      InsertAgrees(ds[0], s);
    }
  }

  lemma ShortIsUniform(ds: seq<Departure>)
    ensures |ds| <= 1 ==> UniformTimes(ds)
  {
    if |ds| == 1 {
      assert ds[0].expected.Some? || ds[0].expected.None?;
    }
  }

  /** Prepending a departure of the same kind keeps uniform times uniform. */
  lemma UniformCons(x: Departure, tail: seq<Departure>)
    ensures UniformTimes(tail) && |tail| > 0 && x.expected.Some? == tail[0].expected.Some?
            ==> UniformTimes([x] + tail)
  {
    if UniformTimes(tail) && |tail| > 0 && x.expected.Some? == tail[0].expected.Some? {
      var ds := [x] + tail;
      assert forall i :: 1 <= i < |ds| ==> ds[i] == tail[i - 1];
    }
  }

  /** In a uniform sequence every element has the kind of any other. */
  lemma UniformSameKind(a: seq<Departure>, i: nat, j: nat)
    requires UniformTimes(a)
    requires i < |a| && j < |a|
    ensures a[i].expected.Some? == a[j].expected.Some?
  {
  }

  /** As written, the sort raises whenever timed and untimed departures are mixed, at any length. */
  lemma {:induction false} MixedRaises(ds: seq<Departure>)
    requires !UniformTimes(ds)
    ensures SortAsWritten(ds).None?
    decreases |ds|
  {
    ShortIsUniform(ds);
    var tail := ds[1..];
    assert ds == [ds[0]] + tail;
    if !UniformTimes(tail) {
      MixedRaises(tail);
    } else {
      UniformCons(ds[0], tail);
      UniformAgrees(tail);
      var s := SortDepartures(tail);
      assert s[0] in multiset(tail);
      var j :| 0 <= j < |tail| && tail[j] == s[0];
      UniformSameKind(tail, 0, j);
      assert LessAsWritten(s[0].expected, ds[0].expected).None?;
    }
  }
}
