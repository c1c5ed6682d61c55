/**
 * covid_stats.py: one country's daily cases and deaths, averaged over seven days.
 *
 * `run` keeps the rows of one country (covid_stats.py:84), `plot` turns them into three
 * parallel lists and pairs each seven-day average with `date_list[:-6]`; `print_graph` does the
 * same over all rows it is given and pairs the averages with `x[6:]`.
 */
module Trend {
  import opened Averages

  /** A row; the parsed `dateRep` is of any type D, carried along and never inspected. */
  datatype Record<D> = Record(dateRep: D, cases: int, deaths: int, country: string)

  /** Python's `s[k:]`: clamped, so a short list gives []. */
  function From<T>(s: seq<T>, k: nat): (r: seq<T>)
    ensures |r| == if |s| >= k then |s| - k else 0
    ensures forall i :: 0 <= i < |r| ==> r[i] == s[k + i]
  {
    if k <= |s| then s[k..] else []
  }

  /** Python's `s[:-k]` for k >= 1: clamped, so a list of at most k elements gives []. */
  function DropLast<T>(s: seq<T>, k: nat): (r: seq<T>)
    requires k >= 1
    ensures |r| == if |s| >= k then |s| - k else 0
    ensures forall i :: 0 <= i < |r| ==> r[i] == s[i]
  {
    if k <= |s| then s[..|s| - k] else []
  }

  function Dates<D>(rows: seq<Record<D>>): seq<D>
  {
    seq(|rows|, i requires 0 <= i < |rows| => rows[i].dateRep)
  }

  function Cases<D>(rows: seq<Record<D>>): seq<int>
  {
    seq(|rows|, i requires 0 <= i < |rows| => rows[i].cases)
  }

  function Deaths<D>(rows: seq<Record<D>>): seq<int>
  {
    seq(|rows|, i requires 0 <= i < |rows| => rows[i].deaths)
  }

  /**
   * The loop of `plot` (and the identical one of `print_graph`): one element appended to each
   * list per row, in row order.
   */
  method Columns<D>(rows: seq<Record<D>>) returns (dateList: seq<D>, casesList: seq<int>, deathList: seq<int>)
    ensures |dateList| == |casesList| == |deathList| == |rows|
    ensures forall i :: 0 <= i < |rows| ==>
      dateList[i] == rows[i].dateRep && casesList[i] == rows[i].cases && deathList[i] == rows[i].deaths
  {
    dateList, casesList, deathList := [], [], [];
    for k := 0 to |rows|
      invariant |dateList| == |casesList| == |deathList| == k
      invariant forall i :: 0 <= i < k ==>
        dateList[i] == rows[i].dateRep && casesList[i] == rows[i].cases && deathList[i] == rows[i].deaths
    {
      var row := rows[k];
      dateList := dateList + [row.dateRep];
      casesList := casesList + [row.cases];
      deathList := deathList + [row.deaths];
    }
  }

  /**
   * `plot`: the x values `date_list[:-6]` and the two curves `moving_average(…, 7)` always have
   * the same length, max(0, |rows| - 6), whatever the number of rows; average i covers rows
   * i..i+6 and is drawn at the date of row i, the first of its window in list order.
   */
  method Plot<D>(rows: seq<Record<D>>) returns (xs: seq<D>, casesAvg: seq<real>, deathsAvg: seq<real>)
    ensures |xs| == |casesAvg| == |deathsAvg| == (if |rows| >= 7 then |rows| - 6 else 0)
    ensures forall i :: 0 <= i < |xs| ==>
      && xs[i] == rows[i].dateRep
      && casesAvg[i] == Mean(Cases(rows), i, 7)
      && deathsAvg[i] == Mean(Deaths(rows), i, 7)
  {
    var dateList, casesList, deathList := Columns(rows);
    assert casesList == Cases(rows) && deathList == Deaths(rows);
    xs := DropLast(dateList, 6);
    casesAvg := MovingAverage(casesList, 7);
    deathsAvg := MovingAverage(deathList, 7);
  }

  /**
   * `print_graph`: the x values `x[6:]` and the two curves agree in length for every number of
   * rows; average i covers rows i..i+6 and is drawn at the date of row i + 6, the last of its
   * window in list order.
   */
  method PrintGraph<D>(rows: seq<Record<D>>) returns (xs: seq<D>, casesAvg: seq<real>, deathsAvg: seq<real>)
    ensures |xs| == |casesAvg| == |deathsAvg| == (if |rows| >= 7 then |rows| - 6 else 0)
    ensures forall i :: 0 <= i < |xs| ==>
      && xs[i] == rows[i + 6].dateRep
      && casesAvg[i] == Mean(Cases(rows), i, 7)
      && deathsAvg[i] == Mean(Deaths(rows), i, 7)
  {
    var x, c, d := Columns(rows);
    assert c == Cases(rows) && d == Deaths(rows);
    xs := From(x, 6);
    casesAvg := MovingAverage(c, 7);
    deathsAvg := MovingAverage(d, 7);
  }

  /** covid_stats.py:84: `row for row in csv_reader if row['countriesAndTerritories'] == country`. */
  function OfCountry<D>(rows: seq<Record<D>>, country: string): (r: seq<Record<D>>)
    ensures |r| <= |rows|
    ensures forall i :: 0 <= i < |r| ==> r[i].country == country && r[i] in rows
  {
    if rows == [] then []
    else if rows[0].country == country then [rows[0]] + OfCountry(rows[1..], country)
    else OfCountry(rows[1..], country)
  }

  /** Every row of the country is kept. */
  lemma {:induction false} OfCountryKeepsAll<D>(rows: seq<Record<D>>, country: string, i: nat)
    requires i < |rows| && rows[i].country == country
    ensures rows[i] in OfCountry(rows, country)
  {
    if i > 0 {
      OfCountryKeepsAll(rows[1..], country, i - 1);
    }
  }

  /** The filter preserves order: it distributes over concatenation. */
  lemma {:induction false} OfCountryAppend<D>(a: seq<Record<D>>, b: seq<Record<D>>, country: string)
    ensures OfCountry(a + b, country) == OfCountry(a, country) + OfCountry(b, country)
  {
    if a == [] {
      assert a + b == b;
    } else {
      assert (a + b)[1..] == a[1..] + b;
      OfCountryAppend(a[1..], b, country);
    }
  }

  /** Rows that are all of the country pass through unchanged. */
  lemma {:induction false} OfCountryIdentity<D>(rows: seq<Record<D>>, country: string)
    requires forall i :: 0 <= i < |rows| ==> rows[i].country == country
    ensures OfCountry(rows, country) == rows
  {
    if rows != [] {
      OfCountryIdentity(rows[1..], country);
    }
  }

  /** Rows of other countries are dropped entirely. */
  lemma {:induction false} OfCountryNone<D>(rows: seq<Record<D>>, country: string)
    requires forall i :: 0 <= i < |rows| ==> rows[i].country != country
    ensures OfCountry(rows, country) == []
  {
    if rows != [] {
      OfCountryNone(rows[1..], country);
    }
  }

  /**
   * `run`: filter by country, then `plot`. Point i of both curves and its date come from the
   * i-th row of the country, in the order of the input.
   */
  method Run<D>(rows: seq<Record<D>>, country: string) returns (xs: seq<D>, casesAvg: seq<real>, deathsAvg: seq<real>)
    ensures var own := OfCountry(rows, country);
      && |xs| == |casesAvg| == |deathsAvg| == (if |own| >= 7 then |own| - 6 else 0)
      && forall i :: 0 <= i < |xs| ==>
        && xs[i] == own[i].dateRep
        && casesAvg[i] == Mean(Cases(own), i, 7)
        && deathsAvg[i] == Mean(Deaths(own), i, 7)
  {
    var own := OfCountry(rows, country);
    xs, casesAvg, deathsAvg := Plot(own);
  }
}
