/**
 * The per-file part of `create_mcp_training_data` in mcp-data-processing/create_training_data.py:
 * pair every `tpt_<suffix>` column with `tpv_<suffix>`, unpivot each pair into one long row per
 * table row, clean both numbers, tag every row with the file's type and keep the rows with
 * activity.
 */
module Reshape {
  import opened Wrappers
  import opened Sequences
  import opened Text
  import opened NumberCleaning
  import opened Periods

  const BrandColumn := "brand_id"
  const CategoryColumn := "Product Category"
  const TptPrefix := "tpt_"
  const TpvPrefix := "tpv_"

  /**
   * A table as `pd.read_csv` returns it: the column names (distinct, since pandas renames
   * duplicates) and the rows of cell text. A cell a short row lacks reads as "" (pandas NaN).
   */
  datatype Table = Table(header: seq<string>, rows: seq<seq<string>>)

  /** A row of `df_long` before its numbers are cleaned. */
  datatype LongRow = LongRow(brandId: string, product: string, tptText: string, tpvText: string, month: string)

  /** A record of the training snapshot. */
  datatype Record = Record(brandId: string, product: string, tpt: nat, tpv: nat, month: string, dataType: string)

  /** A `tpt_` column, the `tpv_` column it is paired with, and the period label of the pair. */
  datatype Pair = Pair(tptColumn: string, tpvColumn: string, month: string)

  /** The KeyError a readable table can still raise. */
  datatype ReshapeError =
    | MissingKeyColumns     // `brand_id` or `Product Category` is absent (line 69)
    | MissingMetricColumns  // `df_long` is still the empty frame, so it has no `tpt` column (line 80)

  predicate IsTptColumn(name: string)
  {
    StartsWith(name, TptPrefix)
  }

  predicate IsTpvColumn(name: string)
  {
    StartsWith(name, TpvPrefix)
  }

  function TptColumns(header: seq<string>): seq<string>
  {
    Filter(header, IsTptColumn)
  }

  function TpvColumns(header: seq<string>): seq<string>
  {
    Filter(header, IsTpvColumn)
  }

  /** `col_tpt.replace('tpt_', 'tpv_')` */
  function PartnerColumn(column: string): string
  {
    ReplaceAll(column, TptPrefix, TpvPrefix)
  }

  /** `col_tpt.replace('tpt_', '')` */
  function Suffix(column: string): string
  {
    ReplaceAll(column, TptPrefix, "")
  }

  function PairOf(column: string): Pair
  {
    Pair(column, PartnerColumn(column), PeriodLabel(Suffix(column)))
  }

  /** The pairs found while scanning `columns` in order: those whose partner is a `tpv_` column. */
  function Pairs(columns: seq<string>, tpvColumns: seq<string>): seq<Pair>
  {
    if columns == [] then []
    else
      var last := columns[|columns| - 1];
      Pairs(columns[..|columns| - 1], tpvColumns) +
      (if PartnerColumn(last) in tpvColumns then [PairOf(last)] else [])
  }

  function PairedColumns(header: seq<string>): seq<Pair>
  {
    Pairs(TptColumns(header), TpvColumns(header))
  }

  function IndexOf(header: seq<string>, name: string): (r: Option<nat>)
    ensures r.Some? ==> r.value < |header| && header[r.value] == name
    ensures r.None? ==> name !in header
  {
    if header == [] then None
    else if header[0] == name then Some(0)
    else match IndexOf(header[1..], name)
      case Some(j) => Some(j + 1)
      case None => None
  }

  /** The cell of `row` under the column called `name`. */
  function CellOf(header: seq<string>, row: seq<string>, name: string): string
  {
    match IndexOf(header, name)
    case Some(j) => if j < |row| then row[j] else ""
    case None => ""
  }

  predicate HasKeyColumns(header: seq<string>)
  {
    BrandColumn in header && CategoryColumn in header
  }

  /** The long row a table row gives for one pair (`df[['brand_id', 'Product Category', col_tpt, col_tpv]]`). */
  function LongOf(header: seq<string>, row: seq<string>, p: Pair): LongRow
  {
    LongRow(CellOf(header, row, BrandColumn), CellOf(header, row, CategoryColumn),
            CellOf(header, row, p.tptColumn), CellOf(header, row, p.tpvColumn), p.month)
  }

  /** The block `df_temp` of one pair: one long row per table row, in row order. */
  function Block(t: Table, p: Pair): (r: seq<LongRow>)
    ensures |r| == |t.rows|
  {
    seq(|t.rows|, k requires 0 <= k < |t.rows| => LongOf(t.header, t.rows[k], p))
  }

  /** `df_long` after the loop: the blocks of the pairs, concatenated in pair order. */
  function Unpivot(t: Table, pairs: seq<Pair>): seq<LongRow>
  {
    if pairs == [] then [] else Unpivot(t, pairs[..|pairs| - 1]) + Block(t, pairs[|pairs| - 1])
  }

  /** One long row after `clean_number` on both metrics and the `type` column. */
  function Clean(row: LongRow, dataType: string): Record
  {
    Record(row.brandId, row.product, CleanNumber(row.tptText), CleanNumber(row.tpvText), row.month, dataType)
  }

  function Normalize(long: seq<LongRow>, dataType: string): (r: seq<Record>)
    ensures |r| == |long|
  {
    seq(|long|, i requires 0 <= i < |long| => Clean(long[i], dataType))
  }

  /** `(df_long['tpt'] > 0) | (df_long['tpv'] > 0)` */
  predicate Active(r: Record)
  {
    r.tpt > 0 || r.tpv > 0
  }

  /**
   * The records one readable table contributes. A table without any pair contributes none:
   * this is the corrected behaviour, see ReshapedAsWritten.
   */
  function Reshaped(t: Table, dataType: string): Result<seq<Record>, ReshapeError>
  {
    var pairs := PairedColumns(t.header);
    if pairs != [] && !HasKeyColumns(t.header) then Err(MissingKeyColumns)
    else Ok(Filter(Normalize(Unpivot(t, pairs), dataType), Active))
  }

  /** The code as written: with no pair, `df_long['tpt']` on the empty frame raises KeyError. */
  function ReshapedAsWritten(t: Table, dataType: string): Result<seq<Record>, ReshapeError>
  {
    if PairedColumns(t.header) == [] then Err(MissingMetricColumns) else Reshaped(t, dataType)
  }

  /**
   * The loop of lines 52-89, run on one readable table. It gives what the code as written gives,
   * which is the corrected result whenever it does not raise.
   */
  method ReshapeTable(t: Table, dataType: string) returns (r: Result<seq<Record>, ReshapeError>)
    ensures r == ReshapedAsWritten(t, dataType)
    ensures r.Ok? ==> r == Reshaped(t, dataType)
  {
    var tptCols := TptColumns(t.header);
    var tpvCols := TpvColumns(t.header);
    var long: seq<LongRow> := [];
    var paired := false;
    ghost var pairs: seq<Pair> := [];
    for i := 0 to |tptCols|
      invariant pairs == Pairs(tptCols[..i], tpvCols)
      invariant long == Unpivot(t, pairs)
      invariant paired <==> pairs != []
      invariant pairs != [] ==> HasKeyColumns(t.header)
    {
      PairsStep(tptCols, i, tpvCols);
      var colTpt := tptCols[i];
      var colTpv := PartnerColumn(colTpt);
      if colTpv in tpvCols {
        var month := PeriodLabel(Suffix(colTpt));
        if !HasKeyColumns(t.header) {
          PairFound(tptCols, i, tpvCols);
          return Err(MissingKeyColumns);
        }
        var p := Pair(colTpt, colTpv, month);
        UnpivotStep(t, pairs, p);
        long := long + Block(t, p);
        pairs := pairs + [p];
        paired := true;
      }
    }
    assert tptCols[..|tptCols|] == tptCols;
    if !paired {
      return Err(MissingMetricColumns);
    }
    var records := Normalize(long, dataType);
    r := Ok(Filter(records, Active));
  }

  lemma PairsStep(columns: seq<string>, i: nat, tpvColumns: seq<string>)
    requires i < |columns|
    ensures Pairs(columns[..i + 1], tpvColumns) ==
      Pairs(columns[..i], tpvColumns) + (if PartnerColumn(columns[i]) in tpvColumns then [PairOf(columns[i])] else [])
  {
    assert columns[..i + 1][..i] == columns[..i];
  }

  lemma UnpivotStep(t: Table, pairs: seq<Pair>, p: Pair)
    ensures Unpivot(t, pairs + [p]) == Unpivot(t, pairs) + Block(t, p)
  {
    assert (pairs + [p])[..|pairs|] == pairs;
  }

  /** A column whose partner is present yields a pair, wherever it stands. */
  lemma PairFound(columns: seq<string>, i: nat, tpvColumns: seq<string>)
    requires i < |columns| && PartnerColumn(columns[i]) in tpvColumns
    ensures Pairs(columns, tpvColumns) != []
  {
    PairsStep(columns, i, tpvColumns);
    PairsAppend(columns[..i + 1], columns[i + 1..], tpvColumns);
    assert columns[..i + 1] + columns[i + 1..] == columns;
  }

  lemma {:induction false} PairsAppend(a: seq<string>, b: seq<string>, tpvColumns: seq<string>)
    ensures Pairs(a + b, tpvColumns) == Pairs(a, tpvColumns) + Pairs(b, tpvColumns)
    decreases |b|
  {
    if b == [] {
      assert a + b == a;
    } else {
      var b' := b[..|b| - 1];
      assert (a + b)[..|a + b| - 1] == a + b';
      PairsAppend(a, b', tpvColumns);
    }
  }

  /** The partner of a `tpt_` column is a `tpv_` column, so line 55 only asks whether it is in the table. */
  lemma PartnerIsTpvColumn(column: string)
    requires IsTptColumn(column)
    ensures IsTpvColumn(PartnerColumn(column))
  {
    ReplaceAllKeepsPrefix(column, TptPrefix, TpvPrefix);
  }

  lemma {:induction false} PairsMembers(columns: seq<string>, tpvColumns: seq<string>, p: Pair)
    ensures p in Pairs(columns, tpvColumns) <==>
      exists c :: c in columns && PartnerColumn(c) in tpvColumns && p == PairOf(c)
    decreases |columns|
  {
    if columns != [] {
      var init := columns[..|columns| - 1];
      var last := columns[|columns| - 1];
      PairsMembers(init, tpvColumns, p);
      assert columns == init + [last];
      if p in Pairs(columns, tpvColumns) {
        if p !in Pairs(init, tpvColumns) {
          assert last in columns && PartnerColumn(last) in tpvColumns && p == PairOf(last);
        }
      }
    }
  }

  /** A pair is found exactly for each `tpt_` column whose `tpv_` partner is also a column. */
  lemma PairedColumnsIff(header: seq<string>, p: Pair)
    ensures p in PairedColumns(header) <==>
      exists c :: c in header && IsTptColumn(c) && PartnerColumn(c) in header && p == PairOf(c)
  {
    PairsMembers(TptColumns(header), TpvColumns(header), p);
    forall c | c in header && IsTptColumn(c)
      ensures PartnerColumn(c) in TpvColumns(header) <==> PartnerColumn(c) in header
    {
      PartnerIsTpvColumn(c);
    }
  }

  lemma {:induction false} UnpivotLength(t: Table, pairs: seq<Pair>)
    ensures |Unpivot(t, pairs)| == |pairs| * |t.rows|
    decreases |pairs|
  {
    if pairs != [] {
      UnpivotLength(t, pairs[..|pairs| - 1]);
    }
  }

  /** `df_long` holds, block after block, one row per table row: pair i, row k is at i·n + k. */
  lemma {:induction false} UnpivotAt(t: Table, pairs: seq<Pair>, i: nat, k: nat)
    requires i < |pairs| && k < |t.rows|
    ensures |Unpivot(t, pairs)| == |pairs| * |t.rows|
    ensures i * |t.rows| + k < |Unpivot(t, pairs)|
    ensures Unpivot(t, pairs)[i * |t.rows| + k] == LongOf(t.header, t.rows[k], pairs[i])
    decreases |pairs|
  {
    var n := |t.rows|;
    var m := |pairs|;
    var init := pairs[..m - 1];
    var front := Unpivot(t, init);
    UnpivotLength(t, pairs);
    UnpivotLength(t, init);
    MulSucc(m - 1, n);
    assert Unpivot(t, pairs) == front + Block(t, pairs[m - 1]);
    if i < m - 1 {
      UnpivotAt(t, init, i, k);
      assert init[i] == pairs[i];
      MulMonotone(i + 1, m - 1, n);
      MulSucc(i, n);
      assert i * n + k < |front|;
    } else {
      assert i * n + k == |front| + k;
    }
  }

  lemma MulMonotone(a: nat, b: nat, n: nat)
    requires a <= b
    ensures a * n <= b * n
  {
  }

  lemma MulSucc(a: nat, n: nat)
    ensures (a + 1) * n == a * n + n
  {
  }

  lemma {:induction false} UnpivotMembers(t: Table, pairs: seq<Pair>, x: LongRow)
    ensures x in Unpivot(t, pairs) <==>
      exists p, row :: p in pairs && row in t.rows && x == LongOf(t.header, row, p)
    decreases |pairs|
  {
    if pairs != [] {
      var init := pairs[..|pairs| - 1];
      var last := pairs[|pairs| - 1];
      UnpivotMembers(t, init, x);
      BlockMembers(t, last, x);
      assert x in Unpivot(t, pairs) <==> x in Unpivot(t, init) || x in Block(t, last);
      assert forall p :: p in pairs <==> p in init || p == last by {
        assert pairs == init + [last];
      }
    }
  }

  lemma BlockMembers(t: Table, p: Pair, x: LongRow)
    ensures x in Block(t, p) <==> exists row :: row in t.rows && x == LongOf(t.header, row, p)
  {
    if row :| row in t.rows && x == LongOf(t.header, row, p) {
      var k :| 0 <= k < |t.rows| && t.rows[k] == row;
      assert Block(t, p)[k] == x;
    }
  }

  /**
   * Corrected, a readable table fails exactly when it has a pair but lacks `brand_id` or
   * `Product Category` (the selection on line 69 raises KeyError).
   */
  lemma ReshapeFails(t: Table, dataType: string)
    ensures Reshaped(t, dataType).Err? <==>
      (exists c :: c in t.header && IsTptColumn(c) && PartnerColumn(c) in t.header) &&
      (BrandColumn !in t.header || CategoryColumn !in t.header)
  {
    var pairs := PairedColumns(t.header);
    if pairs != [] {
      PairedColumnsIff(t.header, pairs[0]);
    }
    if c :| c in t.header && IsTptColumn(c) && PartnerColumn(c) in t.header {
      PairedColumnsIff(t.header, PairOf(c));
    }
  }

  /**
   * As written, a readable table fails exactly when it has no pair (the cleaning on line 80
   * raises) or when it has one but lacks `brand_id` or `Product Category` (line 69 raises).
   */
  lemma ReshapeAsWrittenFails(t: Table, dataType: string)
    ensures ReshapedAsWritten(t, dataType).Err? <==>
      !(exists c :: c in t.header && IsTptColumn(c) && PartnerColumn(c) in t.header) ||
      BrandColumn !in t.header || CategoryColumn !in t.header
    ensures ReshapedAsWritten(t, dataType) == Err(MissingMetricColumns) <==>
      !(exists c :: c in t.header && IsTptColumn(c) && PartnerColumn(c) in t.header)
  {
    ReshapeFails(t, dataType);
    var pairs := PairedColumns(t.header);
    if pairs != [] {
      PairedColumnsIff(t.header, pairs[0]);
    }
    if c :| c in t.header && IsTptColumn(c) && PartnerColumn(c) in t.header {
      PairedColumnsIff(t.header, PairOf(c));
    }
  }

  /**
   * The records of a table are exactly the cleaned long rows, tagged with the file's type,
   * of some pair and some table row, that have activity.
   */
  lemma ReshapeMembers(t: Table, dataType: string, rec: Record)
    requires Reshaped(t, dataType).Ok?
    ensures rec in Reshaped(t, dataType).value <==>
      Active(rec) &&
      exists p, row :: p in PairedColumns(t.header) && row in t.rows && rec == Clean(LongOf(t.header, row, p), dataType)
  {
    var pairs := PairedColumns(t.header);
    var long := Unpivot(t, pairs);
    var recs := Normalize(long, dataType);
    if rec in recs {
      var i :| 0 <= i < |recs| && recs[i] == rec;
      UnpivotMembers(t, pairs, long[i]);
    }
    if exists p, row :: p in pairs && row in t.rows && rec == Clean(LongOf(t.header, row, p), dataType) {
      var p, row :| p in pairs && row in t.rows && rec == Clean(LongOf(t.header, row, p), dataType);
      UnpivotMembers(t, pairs, LongOf(t.header, row, p));
      var i :| 0 <= i < |long| && long[i] == LongOf(t.header, row, p);
      assert recs[i] == rec;
    }
  }

  /** Every record carries the type of its file, and has activity. */
  lemma ReshapeTagsAndFilters(t: Table, dataType: string)
    requires Reshaped(t, dataType).Ok?
    ensures forall rec :: rec in Reshaped(t, dataType).value ==> rec.dataType == dataType && Active(rec)
  {
    forall rec | rec in Reshaped(t, dataType).value
      ensures rec.dataType == dataType && Active(rec)
    {
      ReshapeMembers(t, dataType, rec);
    }
  }

  /** `reset_index` after the filter keeps the surviving rows in the order of `df_long`. */
  lemma ReshapeInOrder(t: Table, dataType: string)
    requires Reshaped(t, dataType).Ok?
    ensures IsSubsequence(Reshaped(t, dataType).value, Normalize(Unpivot(t, PairedColumns(t.header)), dataType))
  {
    FilterIsSubsequence(Normalize(Unpivot(t, PairedColumns(t.header)), dataType), Active);
  }

  /** With no pair at all, the code as written raises where the intended result is no records. */
  lemma NoPairAborts(t: Table, dataType: string)
    requires forall c :: c in t.header && IsTptColumn(c) ==> PartnerColumn(c) !in t.header
    ensures ReshapedAsWritten(t, dataType) == Err(MissingMetricColumns)
    ensures Reshaped(t, dataType) == Ok([])
  {
    var pairs := PairedColumns(t.header);
    if pairs != [] {
      PairedColumnsIff(t.header, pairs[0]);
      assert false;
    }
  }

  /** Whenever a table has a pair, the corrected and the as-written reshaping agree. */
  lemma AsWrittenAgrees(t: Table, dataType: string, c: string)
    requires c in t.header && IsTptColumn(c) && PartnerColumn(c) in t.header
    ensures ReshapedAsWritten(t, dataType) == Reshaped(t, dataType)
  {
    PairedColumnsIff(t.header, PairOf(c));
  }

  lemma SepColumnKinds(tpt: string, tpv: string)
    requires tpt == "tpt_sep_2025" && tpv == "tpv_sep_2025"
    ensures IsTptColumn(tpt) && !IsTpvColumn(tpt) && IsTpvColumn(tpv) && !IsTptColumn(tpv)
  {
    assert tpt[..4] == TptPrefix && tpv[..4] == TpvPrefix;
  }

  lemma SepPartner(tpt: string, rest: string)
    requires rest == "sep_2025" && tpt == TptPrefix + rest
    ensures PartnerColumn(tpt) == TpvPrefix + rest
    ensures Suffix(tpt) == rest
  {
    assert 't' !in rest;
    PrefixedColumn(rest);
  }

  /** A `tpt_` column whose suffix holds no `t`: its partner and its suffix. */
  lemma PrefixedColumn(rest: string)
    requires 't' !in rest
    ensures PartnerColumn(TptPrefix + rest) == TpvPrefix + rest
    ensures Suffix(TptPrefix + rest) == rest
  {
    ReplaceAllAtStart(TptPrefix, rest, TpvPrefix);
    ReplaceAllAbsent(rest, TptPrefix, TpvPrefix);
    ReplaceAllAtStart(TptPrefix, rest, "");
    ReplaceAllAbsent(rest, TptPrefix, "");
  }

  lemma SepColumns(tpt: string, tpv: string)
    requires tpt == "tpt_sep_2025" && tpv == "tpv_sep_2025"
    ensures IsTptColumn(tpt) && !IsTpvColumn(tpt) && IsTpvColumn(tpv) && !IsTptColumn(tpv)
    ensures PartnerColumn(tpt) == tpv
    ensures PairOf(tpt) == Pair(tpt, tpv, "2025-09")
  {
    SepColumnKinds(tpt, tpv);
    var rest := "sep_2025";
    assert tpt == TptPrefix + rest && tpv == TpvPrefix + rest;
    SepPartner(tpt, rest);
    ParsedExample(rest);
  }

  /** A file whose only metric column is `tpt_sep_2025` makes the code as written abort. */
  lemma NoPairExample(t: Table)
    requires t.header == ["brand_id", "Product Category", "tpt_sep_2025"]
    ensures ReshapedAsWritten(t, "churn") == Err(MissingMetricColumns)
    ensures Reshaped(t, "churn") == Ok([])
  {
    var h := t.header;
    KeyColumnKinds(h[0], h[1]);
    SepColumns(h[2], "tpv_sep_2025");
    assert "tpv_sep_2025" !in h by {
      assert h[0][0] != 't' && h[1][0] != 't' && h[2][2] != "tpv_sep_2025"[2];
    }
    forall c | c in h && IsTptColumn(c)
      ensures PartnerColumn(c) !in h
    {
      assert c == h[2];
    }
    NoPairAborts(t, "churn");
  }

  lemma ScenarioCells(header: seq<string>, row: seq<string>)
    requires header == ["brand_id", "Product Category", "tpt_sep_2025", "tpv_sep_2025"]
    requires |row| == 4
    ensures LongOf(header, row, Pair("tpt_sep_2025", "tpv_sep_2025", "2025-09")) ==
      LongRow(row[0], row[1], row[2], row[3], "2025-09")
  {
    assert IndexOf(header, BrandColumn) == Some(0);
    assert IndexOf(header, CategoryColumn) == Some(1);
    assert IndexOf(header, "tpt_sep_2025") == Some(2);
    assert IndexOf(header, "tpv_sep_2025") == Some(3);
  }

  lemma DecimalExample(s: string, n: nat)
    requires (n == 120 && s == "120") || (n == 0 && s == "0")
    ensures CleanNumber(s) == n
  {
    if n == 120 {
      assert DecimalText(12) == "12";
      assert DecimalText(120) == DecimalText(12) + "0";
    }
    assert DecimalText(n) == s;
    CleanNumberOfDecimalText(n);
  }

  /**
   * The cell `45,000` as pandas reads it from `"45,000"` in the CSV file, and a cell whose
   * double quotes are part of its text (written `"""45,000"""` in the file), both clean to 45000.
   */
  lemma GroupedExample(s: string)
    requires s == "45,000" || s == "\"45,000\""
    ensures CleanNumber(s) == 45000
  {
    Grouped45000();
    CleanNumberOfGrouped(45000);
    if s != "45,000" {
      assert s == "\"" + "45,000" + "\"";
    }
  }

  lemma Grouped45000()
    ensures Grouped(45000) == "45,000"
  {
    DecimalText45();
    ZeroDigits();
    assert Grouped(45000) == Grouped(45) + "," + FixedDigits(0, 3);
  }

  lemma DecimalText45()
    ensures Grouped(45) == "45"
  {
    assert DecimalText(4) == "4";
    assert DecimalText(45) == DecimalText(4) + [DigitChar(5)];
  }

  lemma ZeroDigits()
    ensures FixedDigits(0, 3) == "000"
  {
    assert FixedDigits(0, 1) == "0";
    assert FixedDigits(0, 2) == FixedDigits(0, 1) + "0";
  }

  lemma ScenarioNumbers()
    ensures CleanNumber("120") == 120
    ensures CleanNumber("45,000") == 45000
    ensures CleanNumber("0") == 0
  {
    DecimalExample("120", 120);
    DecimalExample("0", 0);
    GroupedExample("45,000");
  }

  /**
   * One `tpt_sep_2025`/`tpv_sep_2025` pair over an active and an idle row: the active row
   * becomes one record, with the thousands-separated volume read as a number and the
   * month written as 2025-09; the idle row is dropped.
   */
  lemma ScenarioExample(t: Table)
    requires t == Table(["brand_id", "Product Category", "tpt_sep_2025", "tpv_sep_2025"],
                        [["A", "X", "120", "45,000"], ["A", "X", "0", "0"]])
    ensures Reshaped(t, "churn") == Ok([Record("A", "X", 120, 45000, "2025-09", "churn")])
  {
    var p := Pair("tpt_sep_2025", "tpv_sep_2025", "2025-09");
    ScenarioPairs(t.header);
    assert HasKeyColumns(t.header);
    var long := ScenarioLong(t);
    ScenarioRecords(long);
  }

  lemma ScenarioPairs(header: seq<string>)
    requires header == ["brand_id", "Product Category", "tpt_sep_2025", "tpv_sep_2025"]
    ensures PairedColumns(header) == [Pair("tpt_sep_2025", "tpv_sep_2025", "2025-09")]
  {
    SepColumns(header[2], header[3]);
    KeyColumnKinds(header[0], header[1]);
    PairsOfFour(header[0], header[1], header[2], header[3]);
  }

  lemma KeyColumnKinds(brand: string, category: string)
    requires brand == BrandColumn && category == CategoryColumn
    ensures !IsTptColumn(brand) && !IsTpvColumn(brand) && !IsTptColumn(category) && !IsTpvColumn(category)
  {
    assert brand[0] != 't' && category[0] != 't';
  }

  /** Scenario helper: two key columns, then one `tpt_` column and its partner. */
  lemma PairsOfFour(a: string, b: string, tpt: string, tpv: string)
    requires !IsTptColumn(a) && !IsTpvColumn(a) && !IsTptColumn(b) && !IsTpvColumn(b)
    requires IsTptColumn(tpt) && !IsTpvColumn(tpt) && IsTpvColumn(tpv) && !IsTptColumn(tpv)
    requires PartnerColumn(tpt) == tpv
    ensures PairedColumns([a, b, tpt, tpv]) == [PairOf(tpt)]
  {
    FilterOfFour(a, b, tpt, tpv, IsTptColumn);
    FilterOfFourSwapped(a, b, tpt, tpv, IsTpvColumn);
    assert TptColumns([a, b, tpt, tpv]) == [tpt];
    assert TpvColumns([a, b, tpt, tpv]) == [tpv];
    assert [tpt][..0] == [];
    assert Pairs([tpt], [tpv]) == Pairs([], [tpv]) + [PairOf(tpt)];
  }

  /** Scenario helper: `Filter` over four values of which only the third is kept. */
  lemma FilterOfFour<T(!new)>(a: T, b: T, c: T, d: T, p: T -> bool)
    requires !p(a) && !p(b) && p(c) && !p(d)
    ensures Filter([a, b, c, d], p) == [c]
  {
    FilterOfTwo(a, b, p);
    assert [a, b, c][..2] == [a, b];
    assert Filter([a, b, c], p) == [c];
    assert [a, b, c, d][..3] == [a, b, c];
  }

  /** Scenario helper: `Filter` over four values of which only the fourth is kept. */
  lemma FilterOfFourSwapped<T(!new)>(a: T, b: T, c: T, d: T, p: T -> bool)
    requires !p(a) && !p(b) && !p(c) && p(d)
    ensures Filter([a, b, c, d], p) == [d]
  {
    FilterOfTwo(a, b, p);
    assert [a, b, c][..2] == [a, b];
    assert Filter([a, b, c], p) == [];
    assert [a, b, c, d][..3] == [a, b, c];
  }

  lemma FilterOfTwo<T(!new)>(a: T, b: T, p: T -> bool)
    requires !p(a) && !p(b)
    ensures Filter([a, b], p) == []
  {
    assert [a, b][..1] == [a];
    assert [a][..0] == [];
  }

  lemma ScenarioLong(t: Table) returns (long: seq<LongRow>)
    requires t == Table(["brand_id", "Product Category", "tpt_sep_2025", "tpv_sep_2025"],
                        [["A", "X", "120", "45,000"], ["A", "X", "0", "0"]])
    ensures long == [LongRow("A", "X", "120", "45,000", "2025-09"), LongRow("A", "X", "0", "0", "2025-09")]
    ensures Unpivot(t, [Pair("tpt_sep_2025", "tpv_sep_2025", "2025-09")]) == long
  {
    var p := Pair("tpt_sep_2025", "tpv_sep_2025", "2025-09");
    ScenarioCells(t.header, t.rows[0]);
    ScenarioCells(t.header, t.rows[1]);
    long := [LongRow("A", "X", "120", "45,000", "2025-09"), LongRow("A", "X", "0", "0", "2025-09")];
    assert [p][..0] == [];
    assert Block(t, p) == long;
  }

  lemma ScenarioRecords(long: seq<LongRow>)
    requires long == [LongRow("A", "X", "120", "45,000", "2025-09"), LongRow("A", "X", "0", "0", "2025-09")]
    ensures Filter(Normalize(long, "churn"), Active) == [Record("A", "X", 120, 45000, "2025-09", "churn")]
  {
    ScenarioNumbers();
    NormalizeTwo(long[0], long[1], "churn");
    assert long == [long[0], long[1]];
    FilterKeepsFirst(Clean(long[0], "churn"), Clean(long[1], "churn"));
  }

  /** Scenario helper: cleaning two long rows. */
  lemma NormalizeTwo(first: LongRow, second: LongRow, dataType: string)
    ensures Normalize([first, second], dataType) == [Clean(first, dataType), Clean(second, dataType)]
  {
  }

  /** Scenario helper: of two records only the active first one is kept. */
  lemma FilterKeepsFirst(first: Record, second: Record)
    requires Active(first) && !Active(second)
    ensures Filter([first, second], Active) == [first]
  {
    assert [first, second][..1] == [first];
    assert [first][..0] == [];
  }
}
