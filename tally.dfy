/**
 * The per-client tallies of `calculate_tpv_total` and `calculate_tpt_total` in server.py:
 * a loop adding each filtered row's weight to the entry of its client id, then the sum of the
 * entries.
 */
module Tally {
  import opened Wrappers
  import opened Text
  import opened Query

  /** TPV weighs a row by its amount, TPT counts it. */
  datatype Metric = Tpv | Tpt

  function MetricName(m: Metric): string
  {
    match m
    case Tpv => "TPV"
    case Tpt => "TPT"
  }

  /** `str(r["clientid"])` for a client id that is present. */
  function ClientKey(c: Scalar): string
  {
    match c
    case Str(s) => s
    case Int(n) => IntText(n)
    case Null => "None"
  }

  /** `int(r.get("amount", 0))` */
  function Amount(r: Row): int
  {
    r.amount.GetOr(0)
  }

  function Weight(r: Row, m: Metric): int
  {
    match m
    case Tpv => Amount(r)
    case Tpt => 1
  }

  predicate HasClientIds(rows: seq<Row>)
  {
    forall i :: 0 <= i < |rows| ==> rows[i].clientid.Some?
  }

  function KeyOf(r: Row): string
    requires r.clientid.Some?
  {
    ClientKey(r.clientid.value)
  }

  /** The client ids that appear among the rows. */
  function ClientKeys(rows: seq<Row>): set<string>
    requires HasClientIds(rows)
  {
    if rows == [] then {} else ClientKeys(rows[..|rows| - 1]) + {KeyOf(rows[|rows| - 1])}
  }

  /** The total weight of the rows of client `c`. */
  function ClientTotal(rows: seq<Row>, c: string, m: Metric): int
    requires HasClientIds(rows)
  {
    if rows == [] then 0
    else
      var last := rows[|rows| - 1];
      ClientTotal(rows[..|rows| - 1], c, m) + (if KeyOf(last) == c then Weight(last, m) else 0)
  }

  /** The total weight of all rows. */
  function Total(rows: seq<Row>, m: Metric): int
  {
    if rows == [] then 0 else Total(rows[..|rows| - 1], m) + Weight(rows[|rows| - 1], m)
  }

  /** The sum of the values of a map, in no particular order. */
  ghost function SumValues(t: map<string, int>): int
    decreases |t.Keys|
  {
    if t == map[] then 0
    else
      var k :| k in t;
      assert (t - {k}).Keys == t.Keys - {k};
      t[k] + SumValues(t - {k})
  }

  /** The per-client dictionary and the grand total. */
  datatype Counts = Counts(perClient: map<string, int>, grandTotal: int)

  /** The two loops of server.py:74-77 (and 97-100). */
  method Accumulate(rows: seq<Row>, m: Metric) returns (r: Result<Counts, QueryError>)
    ensures r.Err? <==> !HasClientIds(rows)
    ensures r.Err? ==> r.error == MissingClientId
    ensures r.Ok? ==>
      HasClientIds(rows) &&
      r.value.perClient.Keys == ClientKeys(rows) &&
      (forall c :: c in r.value.perClient ==> r.value.perClient[c] == ClientTotal(rows, c, m)) &&
      r.value.grandTotal == SumValues(r.value.perClient) == Total(rows, m)
  {
    var perClient := PerClient(rows, m);
    if perClient.None? {
      return Err(MissingClientId);
    }
    var grand := SumEntries(perClient.value);
    r := Ok(Counts(perClient.value, grand));
  }

  /** `t` is the per-client dictionary of `rows`: one entry per client appearing, holding its total. */
  ghost predicate Tallies(t: map<string, int>, rows: seq<Row>, m: Metric)
  {
    HasClientIds(rows) &&
    t.Keys == ClientKeys(rows) &&
    (forall c :: c in t ==> t[c] == ClientTotal(rows, c, m)) &&
    SumValues(t) == Total(rows, m)
  }

  /** The loop filling `per_client`; None where `r["clientid"]` raises. */
  method PerClient(rows: seq<Row>, m: Metric) returns (r: Option<map<string, int>>)
    ensures r.None? <==> !HasClientIds(rows)
    ensures r.Some? ==> Tallies(r.value, rows, m)
  {
    var perClient: map<string, int> := map[];
    for i := 0 to |rows|
      invariant Tallies(perClient, rows[..i], m)
    {
      var row := rows[i];
      if row.clientid.None? {
        return None;
      }
      var cid := ClientKey(row.clientid.value);
      var previous := if cid in perClient then perClient[cid] else 0;
      TalliesStep(perClient, rows[..i], row, m);
      perClient := perClient[cid := previous + Weight(row, m)];
      assert rows[..i + 1] == rows[..i] + [row];
    }
    assert rows[..|rows|] == rows;
    r := Some(perClient);
  }

  /** One iteration of the loop keeps the dictionary that of the rows seen so far. */
  lemma TalliesStep(t: map<string, int>, rows: seq<Row>, row: Row, m: Metric)
    requires Tallies(t, rows, m) && row.clientid.Some?
    ensures var k := KeyOf(row);
      Tallies(t[k := (if k in t then t[k] else 0) + Weight(row, m)], rows + [row], m)
  {
    var k := KeyOf(row);
    var rows' := rows + [row];
    var t' := t[k := (if k in t then t[k] else 0) + Weight(row, m)];
    assert rows'[..|rows'| - 1] == rows;
    assert HasClientIds(rows');
    TotalsStep(t, rows, row, m);
    SumValuesUpdate(t, k, t'[k]);
  }

  /** The entries after the update hold the totals of the extended rows. */
  lemma TotalsStep(t: map<string, int>, rows: seq<Row>, row: Row, m: Metric)
    requires Tallies(t, rows, m) && row.clientid.Some?
    ensures var k := KeyOf(row);
      HasClientIds(rows + [row]) &&
      forall c :: c in t[k := (if k in t then t[k] else 0) + Weight(row, m)] ==>
        t[k := (if k in t then t[k] else 0) + Weight(row, m)][c] == ClientTotal(rows + [row], c, m)
  {
    var k := KeyOf(row);
    var rows' := rows + [row];
    assert rows'[..|rows'| - 1] == rows;
    if k !in t {
      ClientTotalAbsent(rows, k, m);
    }
  }

  /** `sum(per_client.values())` */
  method SumEntries(t: map<string, int>) returns (total: int)
    ensures total == SumValues(t)
  {
    total := 0;
    var remaining := t.Keys;
    assert Restrict(t, remaining) == t;
    while remaining != {}
      invariant remaining <= t.Keys
      invariant total + SumValues(Restrict(t, remaining)) == SumValues(t)
      decreases |remaining|
    {
      var c :| c in remaining;
      SumValuesRemove(Restrict(t, remaining), c);
      assert Restrict(t, remaining) - {c} == Restrict(t, remaining - {c});
      total := total + t[c];
      remaining := remaining - {c};
    }
    assert Restrict(t, {}) == map[];
  }

  function Restrict(t: map<string, int>, keys: set<string>): map<string, int>
    requires keys <= t.Keys
  {
    map k | k in keys :: t[k]
  }

  /** A client with no row has nothing. */
  lemma {:induction false} ClientTotalAbsent(rows: seq<Row>, c: string, m: Metric)
    requires HasClientIds(rows) && c !in ClientKeys(rows)
    ensures ClientTotal(rows, c, m) == 0
    decreases |rows|
  {
    if rows != [] {
      ClientTotalAbsent(rows[..|rows| - 1], c, m);
    }
  }

  /** The sum does not depend on which key is taken out first. */
  lemma {:induction false} SumValuesRemove(t: map<string, int>, k: string)
    requires k in t
    ensures SumValues(t) == t[k] + SumValues(t - {k})
    decreases |t.Keys|
  {
    var j :| j in t && SumValues(t) == t[j] + SumValues(t - {j});
    if j != k {
      assert (t - {j}).Keys == t.Keys - {j};
      assert (t - {k}).Keys == t.Keys - {k};
      SumValuesRemove(t - {j}, k);
      SumValuesRemove(t - {k}, j);
      assert t - {j} - {k} == t - {k} - {j};
    }
  }

  lemma SumValuesUpdate(t: map<string, int>, k: string, v: int)
    ensures SumValues(t[k := v]) == SumValues(t) - (if k in t then t[k] else 0) + v
  {
    SumValuesRemove(t[k := v], k);
    assert t[k := v] - {k} == t - {k};
    if k in t {
      SumValuesRemove(t, k);
    } else {
      assert t - {k} == t;
    }
  }

  /** The payload of `calculate_tpv_total` and `calculate_tpt_total`. */
  datatype Report = Report(metric: string, filters: Filters, perClient: map<string, int>, grandTotal: int)

  /** What `calculate_tpv_total` (Tpv) or `calculate_tpt_total` (Tpt) answers on the loaded rows. */
  predicate IsReport(data: seq<Row>, f: Filters, m: Metric, r: Result<Report, QueryError>)
  {
    match FilterRowsAsWritten(data, f)
    case Err(e) => r == Err(e)
    case Ok(rows) =>
      (r.Err? <==> !HasClientIds(rows)) &&
      (r.Err? ==> r.error == MissingClientId) &&
      (r.Ok? ==>
        HasClientIds(rows) &&
        r.value.metric == MetricName(m) && r.value.filters == f &&
        r.value.perClient.Keys == ClientKeys(rows) &&
        (forall c :: c in r.value.perClient ==> r.value.perClient[c] == ClientTotal(rows, c, m)) &&
        r.value.grandTotal == Total(rows, m))
  }

  method CalculateTotal(data: seq<Row>, f: Filters, m: Metric) returns (r: Result<Report, QueryError>)
    ensures IsReport(data, f, m, r)
  {
    var rows := FilterRowsAsWritten(data, f);
    if rows.Err? {
      return Err(rows.error);
    }
    var counts := Accumulate(rows.value, m);
    if counts.Err? {
      return Err(counts.error);
    }
    r := Ok(Report(MetricName(m), f, counts.value.perClient, counts.value.grandTotal));
  }

  /** The description pins the answer down: two answers that both meet it are the same. */
  lemma ReportIsDetermined(data: seq<Row>, f: Filters, m: Metric, r1: Result<Report, QueryError>, r2: Result<Report, QueryError>)
    requires IsReport(data, f, m, r1) && IsReport(data, f, m, r2)
    ensures r1 == r2
  {
    if r1.Ok? && r2.Ok? {
      assert r1.value.perClient == r2.value.perClient;
    }
  }

  /** Every TPT entry counts at least one row, and the TPT grand total is the number of rows. */
  lemma {:induction false} TptCounts(rows: seq<Row>, c: string)
    requires HasClientIds(rows)
    ensures Total(rows, Tpt) == |rows|
    ensures c in ClientKeys(rows) ==> ClientTotal(rows, c, Tpt) >= 1
    ensures ClientTotal(rows, c, Tpt) >= 0
    decreases |rows|
  {
    if rows != [] {
      TptCounts(rows[..|rows| - 1], c);
    }
  }

  /** A TPV entry can be zero: a client whose only row has amount 0 (or none) gets an entry of 0. */
  lemma TpvEntryCanBeZero(r: Row, c: string)
    requires r.clientid == Some(Str(c)) && (r.amount == Some(0) || r.amount.None?)
    ensures ClientKeys([r]) == {c} && ClientTotal([r], c, Tpv) == 0
  {
    assert [r][..0] == [];
  }

  /** A client id stored as a number and the same id stored as text share one entry. */
  lemma ClientKeyNormalizes(n: nat)
    ensures ClientKey(Int(n)) == ClientKey(Str(DecimalText(n)))
    ensures ClientKey(Null) == "None"
  {
  }
}
