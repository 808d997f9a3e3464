/**
 * The query engine of server.py over the loaded rows: the filters of `_filter_rows`, the
 * per-client tallies of `calculate_tpv_total` and `calculate_tpt_total`, and the monthly
 * listing of `get_data_product_monthly`.
 */
module Query {
  import opened Wrappers
  import opened Text
  import opened Sequences
  import YearMonth

  /** A JSON value that can sit in the `clientid` field. */
  datatype Scalar = Str(s: string) | Int(n: int) | Null

  /** One object of data.json; `None` is a missing key. */
  datatype Row = Row(date: Option<string>, product: Option<string>, clientid: Option<Scalar>, amount: Option<int>)

  /** Why an operation raises instead of answering. */
  datatype QueryError =
    | LoadFailed        // opening or parsing data.json raised
    | InvalidMonth(message: string)  // `_ensure_yyyy_mm` raised ValueError with this message
    | MissingClientId   // `r["clientid"]` raised KeyError

  /** The optional filter arguments, as the caller passed them. */
  datatype Filters = Filters(month: Option<string>, product: Option<string>, clientid: Option<string>)

  /** One condition a filter imposes on a row. */
  datatype Predicate =
    | DatePrefix(prefix: string)   // `str(r.get("date", "")).startswith(prefix)`
    | ProductIs(product: string)   // `r.get("product") == product`
    | ClientIs(clientid: string)   // `r.get("clientid") == clientid`

  /** A Python argument is used only when it is truthy: present and not the empty string. */
  predicate Given(arg: Option<string>)
  {
    arg.Some? && arg.value != ""
  }

  function DateText(r: Row): string
  {
    r.date.GetOr("")
  }

  predicate Holds(r: Row, p: Predicate)
  {
    match p
    case DatePrefix(prefix) => StartsWith(DateText(r), prefix)
    case ProductIs(product) => r.product == Some(product)
    case ClientIs(clientid) => r.clientid == Some(Str(clientid))
  }

  /** The condition of one list comprehension of `_filter_rows`. */
  function Test(p: Predicate): Row -> bool
  {
    (r: Row) => Holds(r, p)
  }

  /** The comprehensions applied one after the other, each to the result of the previous one. */
  function KeepAll(rows: seq<Row>, preds: seq<Predicate>): seq<Row>
    decreases |preds|
  {
    if preds == [] then rows else KeepAll(Filter(rows, Test(preds[0])), preds[1..])
  }

  predicate MonthAcceptable(f: Filters)
  {
    !Given(f.month) || YearMonth.IsYearMonth(f.month.value)
  }

  /** The conditions the given filters impose; the month prefix is the month's `YYYY-MM` text. */
  function Predicates(f: Filters): seq<Predicate>
    requires MonthAcceptable(f)
  {
    (if Given(f.month) then [DatePrefix(YearMonth.Canonical(f.month.value))] else []) +
    (if Given(f.product) then [ProductIs(f.product.value)] else []) +
    (if Given(f.clientid) then [ClientIs(f.clientid.value)] else [])
  }

  /** `_ensure_yyyy_mm` on a given month argument, as the error `_filter_rows` raises. */
  function CheckMonth(f: Filters): (r: Result<(), QueryError>)
    ensures r.Ok? <==> MonthAcceptable(f)
  {
    if Given(f.month) then
      match YearMonth.EnsureYearMonth(f.month.value)
      case Err(message) => Err(InvalidMonth(message))
      case Ok(_) => Ok(())
    else Ok(())
  }

  /** `_filter_rows` on the loaded rows, corrected to filter by the month it validated. */
  function FilterData(data: seq<Row>, f: Filters): Result<seq<Row>, QueryError>
  {
    match CheckMonth(f)
    case Err(e) => Err(e)
    case Ok(_) => Ok(KeepAll(data, Predicates(f)))
  }

  /** The conditions as written: the month prefix is the argument text itself. */
  function PredicatesAsWritten(f: Filters): seq<Predicate>
  {
    (if Given(f.month) then [DatePrefix(f.month.value)] else []) +
    (if Given(f.product) then [ProductIs(f.product.value)] else []) +
    (if Given(f.clientid) then [ClientIs(f.clientid.value)] else [])
  }

  /** `_filter_rows` as written: the month is validated, then used as the date prefix verbatim. */
  function FilterRowsAsWritten(data: seq<Row>, f: Filters): Result<seq<Row>, QueryError>
  {
    match CheckMonth(f)
    case Err(e) => Err(e)
    case Ok(_) => Ok(KeepAll(data, PredicatesAsWritten(f)))
  }

  lemma {:induction false} KeepAllMembers(rows: seq<Row>, preds: seq<Predicate>, x: Row)
    ensures x in KeepAll(rows, preds) <==> x in rows && forall p :: p in preds ==> Holds(x, p)
    decreases |preds|
  {
    if preds != [] {
      KeepAllMembers(Filter(rows, Test(preds[0])), preds[1..], x);
      assert preds == [preds[0]] + preds[1..];
    }
  }

  lemma {:induction false} KeepAllIsSubsequence(rows: seq<Row>, preds: seq<Predicate>)
    ensures IsSubsequence(KeepAll(rows, preds), rows)
    decreases |preds|
  {
    if preds == [] {
      SubsequenceReflexive(rows);
    } else {
      var kept := Filter(rows, Test(preds[0]));
      FilterIsSubsequence(rows, Test(preds[0]));
      KeepAllIsSubsequence(kept, preds[1..]);
      SubsequenceTransitive(KeepAll(rows, preds), kept, rows);
    }
  }

  /**
   * `_filter_rows` as written fails exactly on a given month `strptime` rejects, with the
   * validation message. Otherwise its rows are exactly the data rows whose date starts with the
   * month argument's text, of the product and of the client asked for, where each absent or
   * empty argument imposes nothing.
   */
  lemma FilterRowsAsWrittenMembers(data: seq<Row>, f: Filters, r: Row)
    ensures FilterRowsAsWritten(data, f).Err? <==> Given(f.month) && !YearMonth.IsYearMonth(f.month.value)
    ensures FilterRowsAsWritten(data, f).Err? ==> FilterRowsAsWritten(data, f).error == InvalidMonth(YearMonth.FormatMessage)
    ensures FilterRowsAsWritten(data, f).Ok? ==>
      (r in FilterRowsAsWritten(data, f).value <==>
        r in data &&
        (Given(f.month) ==> StartsWith(DateText(r), f.month.value)) &&
        (Given(f.product) ==> r.product == Some(f.product.value)) &&
        (Given(f.clientid) ==> r.clientid == Some(Str(f.clientid.value))))
  {
    if MonthAcceptable(f) {
      var preds := PredicatesAsWritten(f);
      KeepAllMembers(data, preds, r);
      if Given(f.month) {
        assert DatePrefix(f.month.value) in preds;
      }
      if Given(f.product) {
        assert ProductIs(f.product.value) in preds;
      }
      if Given(f.clientid) {
        assert ClientIs(f.clientid.value) in preds;
      }
    }
  }

  /** As written, the rows come back in their original relative order. */
  lemma FilterRowsAsWrittenInOrder(data: seq<Row>, f: Filters)
    requires FilterRowsAsWritten(data, f).Ok?
    ensures IsSubsequence(FilterRowsAsWritten(data, f).value, data)
  {
    KeepAllIsSubsequence(data, PredicatesAsWritten(f));
  }

  /**
   * Corrected, the filter fails on the same months, and otherwise keeps exactly the data rows
   * dated within the validated month (its zero-padded `YYYY-MM` text), of the product and of
   * the client asked for.
   */
  lemma FilterDataMembers(data: seq<Row>, f: Filters, r: Row)
    ensures FilterData(data, f).Err? <==> Given(f.month) && !YearMonth.IsYearMonth(f.month.value)
    ensures FilterData(data, f).Err? ==> FilterData(data, f).error == InvalidMonth(YearMonth.FormatMessage)
    ensures FilterData(data, f).Ok? ==>
      (r in FilterData(data, f).value <==>
        r in data &&
        (Given(f.month) ==> StartsWith(DateText(r), YearMonth.Canonical(f.month.value))) &&
        (Given(f.product) ==> r.product == Some(f.product.value)) &&
        (Given(f.clientid) ==> r.clientid == Some(Str(f.clientid.value))))
  {
    if MonthAcceptable(f) {
      var preds := Predicates(f);
      KeepAllMembers(data, preds, r);
      if Given(f.month) {
        assert DatePrefix(YearMonth.Canonical(f.month.value)) in preds;
      }
      if Given(f.product) {
        assert ProductIs(f.product.value) in preds;
      }
      if Given(f.clientid) {
        assert ClientIs(f.clientid.value) in preds;
      }
    }
  }

  /** Corrected, the rows come back in their original relative order too. */
  lemma FilterDataInOrder(data: seq<Row>, f: Filters)
    requires FilterData(data, f).Ok?
    ensures IsSubsequence(FilterData(data, f).value, data)
  {
    KeepAllIsSubsequence(data, Predicates(f));
  }

  /** With no filter argument, or only empty ones, the data come back unchanged. */
  lemma NoFiltersNoChange(data: seq<Row>, f: Filters)
    requires !Given(f.month) && !Given(f.product) && !Given(f.clientid)
    ensures FilterRowsAsWritten(data, f) == Ok(data)
    ensures FilterData(data, f) == Ok(data)
  {
    assert PredicatesAsWritten(f) == [] && Predicates(f) == [];
  }

  /** A client id stored as a JSON number never equals the text argument, so it is never matched. */
  lemma NumericClientIdNeverMatches(data: seq<Row>, f: Filters, r: Row)
    requires Given(f.clientid) && r.clientid.Some? && r.clientid.value.Int?
    requires FilterRowsAsWritten(data, f).Ok?
    ensures r !in FilterRowsAsWritten(data, f).value
  {
    FilterRowsAsWrittenMembers(data, f, r);
  }

  /** When the month is already written `YYYY-MM`, the code as written filters as intended. */
  lemma AsWrittenAgreesOnCanonicalMonth(data: seq<Row>, f: Filters)
    requires Given(f.month) ==> |f.month.value| == 7
    ensures FilterRowsAsWritten(data, f) == FilterData(data, f)
  {
    if MonthAcceptable(f) && Given(f.month) {
      YearMonth.CanonicalOfSevenChars(f.month.value);
    }
  }

  lemma ShortMonthIsJanuary(m: string)
    requires m == "2025-1"
    ensures YearMonth.IsYearMonth(m) && YearMonth.Canonical(m) == "2025-01"
  {
    assert m[..4] == "2025";
    ValueOfFixedDigits(2025, 4);
    assert FixedDigits(2025, 4) == "2025";
    assert YearMonth.MonthField(m[5..]) == Some(1);
    assert FixedDigits(1, 2) == "01";
  }

  lemma ExampleDates(jan: string, oct: string)
    requires jan == "2025-01-15" && oct == "2025-10-03"
    ensures StartsWith(jan, "2025-01") && !StartsWith(oct, "2025-01")
    ensures !StartsWith(jan, "2025-1") && StartsWith(oct, "2025-1")
  {
    assert jan[..7] == "2025-01" && oct[..7][5] != "2025-01"[5];
    assert jan[..6][5] != "2025-1"[5] && oct[..6] == "2025-1";
  }

  /**
   * "2025-1" passes validation as January 2025, yet as written it selects the October row and
   * drops the January one; the corrected filter selects January.
   */
  lemma ShortMonthExample(jan: Row, oct: Row, f: Filters)
    requires jan.date == Some("2025-01-15") && oct.date == Some("2025-10-03")
    requires f == Filters(Some("2025-1"), None, None)
    ensures FilterRowsAsWritten([jan, oct], f) == Ok([oct])
    ensures FilterData([jan, oct], f) == Ok([jan])
  {
    ShortMonthIsJanuary(f.month.value);
    ExampleDates(jan.date.value, oct.date.value);
    var data := [jan, oct];
    assert data[..1] == [jan] && data[..1][..0] == [];
    assert [DatePrefix("2025-1")][1..] == [] && [DatePrefix("2025-01")][1..] == [];
    assert PredicatesAsWritten(f) == [DatePrefix("2025-1")];
    assert !Holds(jan, DatePrefix("2025-1")) && Holds(oct, DatePrefix("2025-1"));
    assert Filter([jan], Test(DatePrefix("2025-1"))) == [];
    assert Filter(data, Test(DatePrefix("2025-1"))) == [oct];
    assert Predicates(f) == [DatePrefix("2025-01")];
    assert Holds(jan, DatePrefix("2025-01")) && !Holds(oct, DatePrefix("2025-01"));
    assert Filter([jan], Test(DatePrefix("2025-01"))) == [jan];
    assert Filter(data, Test(DatePrefix("2025-01"))) == [jan];
  }

  /** The payload of `get_data_product_monthly`. */
  datatype Listing = Listing(resource: string, month: string, product: Option<string>, count: nat, rows: seq<Row>)

  /** `get_data_product_monthly(month, product)` on the loaded rows. */
  function MonthlyListing(data: seq<Row>, month: string, product: Option<string>): Result<Listing, QueryError>
  {
    match FilterRowsAsWritten(data, Filters(Some(month), product, None))
    case Err(e) => Err(e)
    case Ok(rows) => Ok(Listing("get_data_product_monthly", month, product, |rows|, rows))
  }

  /**
   * The listing fails exactly on a malformed non-empty month; otherwise it echoes its
   * arguments, lists exactly the data rows whose date starts with the month text and of the
   * product, in order, and counts them.
   */
  lemma MonthlyListingMembers(data: seq<Row>, month: string, product: Option<string>, r: Row)
    ensures MonthlyListing(data, month, product).Err? <==> month != "" && !YearMonth.IsYearMonth(month)
    ensures MonthlyListing(data, month, product).Ok? ==>
      var l := MonthlyListing(data, month, product).value;
      l.resource == "get_data_product_monthly" &&
      l.month == month && l.product == product && l.count == |l.rows| &&
      IsSubsequence(l.rows, data) &&
      (r in l.rows <==>
        r in data &&
        (month != "" ==> StartsWith(DateText(r), month)) &&
        (Given(product) ==> r.product == Some(product.value)))
  {
    var f := Filters(Some(month), product, None);
    FilterRowsAsWrittenMembers(data, f, r);
    if FilterRowsAsWritten(data, f).Ok? {
      FilterRowsAsWrittenInOrder(data, f);
    }
  }

  /** For a month written `YYYY-MM`, the listing holds exactly the rows dated within that month. */
  lemma MonthlyListingOfMonth(data: seq<Row>, month: string, product: Option<string>, r: Row)
    requires |month| == 7 && YearMonth.IsYearMonth(month)
    ensures MonthlyListing(data, month, product).Ok?
    ensures r in MonthlyListing(data, month, product).value.rows <==>
      r in data && StartsWith(DateText(r), YearMonth.Canonical(month)) &&
      (Given(product) ==> r.product == Some(product.value))
  {
    var f := Filters(Some(month), product, None);
    AsWrittenAgreesOnCanonicalMonth(data, f);
    FilterDataMembers(data, f, r);
  }
}
