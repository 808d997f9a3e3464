/**
 * The state of server.py: the row cache behind `_load_data`, and the three operations that
 * load the rows before answering. What opening and parsing data.json would give at the moment
 * of a call is passed in as `file` (None where it raises).
 */
module Server {
  import opened Wrappers
  import opened Query
  import opened Tally

  class Analytics {
    /** `_data_cache` */
    var cache: Option<seq<Row>>
    /** How many times data.json has been read successfully. */
    ghost var loads: nat

    ghost predicate Valid()
      reads this
    {
      loads <= 1 && (cache.Some? <==> loads == 1)
    }

    constructor ()
      ensures Valid() && cache == None && loads == 0
    {
      cache := None;
      loads := 0;
    }

    /**
     * `_load_data`: read data.json only while nothing is cached; once the rows are cached,
     * later calls return the same rows whatever the file now holds. A failed read sets nothing.
     */
    method LoadData(file: Option<seq<Row>>) returns (r: Result<seq<Row>, QueryError>)
      requires Valid()
      modifies this
      ensures Valid()
      ensures old(cache).Some? ==> r == Ok(old(cache).value) && cache == old(cache) && loads == old(loads)
      ensures old(cache).None? && file.Some? ==> r == Ok(file.value) && cache == file && loads == old(loads) + 1
      ensures old(cache).None? && file.None? ==> r == Err(LoadFailed) && cache == None && loads == old(loads)
    {
      if cache.None? {
        if file.None? {
          return Err(LoadFailed);
        }
        cache := file;
        loads := loads + 1;
      }
      r := Ok(cache.value);
    }

    /** `_filter_rows`: the rows are loaded before the month is checked, then filtered as written. */
    method FilterRows(file: Option<seq<Row>>, f: Filters) returns (r: Result<seq<Row>, QueryError>)
      requires Valid()
      modifies this
      ensures Valid()
      ensures cache == (if old(cache).Some? then old(cache) else file)
      ensures loads == old(loads) + (if old(cache).None? && file.Some? then 1 else 0)
      ensures r == if cache.None? then Err(LoadFailed) else FilterRowsAsWritten(cache.value, f)
    {
      var data := LoadData(file);
      if data.Err? {
        return Err(data.error);
      }
      r := FilterRowsAsWritten(data.value, f);
    }

    /** `get_data_product_monthly` */
    method GetDataProductMonthly(file: Option<seq<Row>>, month: string, product: Option<string>)
      returns (r: Result<Listing, QueryError>)
      requires Valid()
      modifies this
      ensures Valid()
      ensures cache == (if old(cache).Some? then old(cache) else file)
      ensures loads == old(loads) + (if old(cache).None? && file.Some? then 1 else 0)
      ensures r == if cache.None? then Err(LoadFailed) else MonthlyListing(cache.value, month, product)
    {
      var data := LoadData(file);
      if data.Err? {
        return Err(data.error);
      }
      r := MonthlyListing(data.value, month, product);
    }

    /** `calculate_tpv_total` */
    method CalculateTpvTotal(file: Option<seq<Row>>, f: Filters) returns (r: Result<Report, QueryError>)
      requires Valid()
      modifies this
      ensures Valid()
      ensures cache == (if old(cache).Some? then old(cache) else file)
      ensures loads == old(loads) + (if old(cache).None? && file.Some? then 1 else 0)
      ensures cache.None? ==> r == Err(LoadFailed)
      ensures cache.Some? ==> IsReport(cache.value, f, Tpv, r)
    {
      var data := LoadData(file);
      if data.Err? {
        return Err(data.error);
      }
      r := CalculateTotal(data.value, f, Tpv);
    }

    /** `calculate_tpt_total` */
    method CalculateTptTotal(file: Option<seq<Row>>, f: Filters) returns (r: Result<Report, QueryError>)
      requires Valid()
      modifies this
      ensures Valid()
      ensures cache == (if old(cache).Some? then old(cache) else file)
      ensures loads == old(loads) + (if old(cache).None? && file.Some? then 1 else 0)
      ensures cache.None? ==> r == Err(LoadFailed)
      ensures cache.Some? ==> IsReport(cache.value, f, Tpt, r)
    {
      var data := LoadData(file);
      if data.Err? {
        return Err(data.error);
      }
      r := CalculateTotal(data.value, f, Tpt);
    }
  }

  /** Two queries in a row: the second is answered from the rows the first loaded. */
  method RepeatedQueries(server: Analytics, first: Option<seq<Row>>, later: Option<seq<Row>>, f: Filters)
    returns (r1: Result<seq<Row>, QueryError>, r2: Result<seq<Row>, QueryError>)
    requires server.Valid() && server.cache.None?
    modifies server
    ensures first.Some? ==> r1 == r2 == FilterRowsAsWritten(first.value, f) && server.loads == 1
    ensures first.None? ==> r1 == Err(LoadFailed) && r2 == (if later.Some? then FilterRowsAsWritten(later.value, f) else Err(LoadFailed))
  {
    r1 := server.FilterRows(first, f);
    r2 := server.FilterRows(later, f);
  }
}
