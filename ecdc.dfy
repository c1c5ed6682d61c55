/**
 * covid_stats_compare.py: `get_ecdc_data(countries, kind)` builds one per-million series per
 * requested country, and `plot` averages each series over seven days.
 *
 * A row is an already-parsed CSV record reduced to the three fields the builder reads: the
 * country name, the count of the requested kind ("cases" or "deaths") and the population.
 */
module Ecdc {
  import opened Averages

  type Population = p: int | p > 0 witness 1

  datatype Row = Row(country: string, value: int, pop: Population)

  /** `value / pop * 1000000`, exact: the count per one million inhabitants. */
  function PerMillion(r: Row): (v: real)
    ensures v * r.pop as real == r.value as real * 1000000.0
    ensures v > 0.0 <==> r.value > 0
  {
    r.value as real / r.pop as real * 1000000.0
  }

  /** Per-million values of a run of rows, each with its own population. */
  function Scaled(s: seq<Row>): (v: seq<real>)
    ensures |v| == |s|
    ensures forall i :: 0 <= i < |s| ==> v[i] == PerMillion(s[i])
  {
    seq(|s|, i requires 0 <= i < |s| => PerMillion(s[i]))
  }

  /** The rows in the order `reversed(...)` yields them. */
  function Reverse(s: seq<Row>): (r: seq<Row>)
    ensures |r| == |s|
    ensures forall i :: 0 <= i < |s| ==> r[i] == s[|s| - 1 - i]
  {
    seq(|s|, i requires 0 <= i < |s| => s[|s| - 1 - i])
  }

  /** Scaling works row by row, so it distributes over concatenation. */
  lemma ScaledAppend(s: seq<Row>, t: seq<Row>)
    ensures Scaled(s + t) == Scaled(s) + Scaled(t)
  {
  }

  /** A stored value is positive exactly where its row's count is. */
  lemma ScaledPositive(s: seq<Row>, i: nat)
    requires i < |s|
    ensures Scaled(s)[i] > 0.0 <==> s[i].value > 0
  {
  }

  /** Reversing twice gives the rows back. */
  lemma ReverseReverse(s: seq<Row>)
    ensures Reverse(Reverse(s)) == s
  {
  }

  /** Reversal of a concatenation swaps and reverses the parts. */
  lemma ReverseAppend(s: seq<Row>, t: seq<Row>)
    ensures Reverse(s + t) == Reverse(t) + Reverse(s)
  {
  }

  /** The rows of country c, in the order given. */
  function Of(s: seq<Row>, c: string): seq<Row>
  {
    if s == [] then []
    else Of(s[..|s| - 1], c) + (if s[|s| - 1].country == c then [s[|s| - 1]] else [])
  }

  predicate HasPositive(s: seq<Row>)
  {
    exists i :: 0 <= i < |s| && s[i].value > 0
  }

  /** Drop every row before the first one with a positive count. */
  function FromFirstPositive(s: seq<Row>): seq<Row>
  {
    if s == [] then []
    else if s[0].value > 0 then s
    else FromFirstPositive(s[1..])
  }

  /** Whether the walk over `walk` has found country c. */
  predicate Found(walk: seq<Row>, c: string)
  {
    HasPositive(Of(walk, c))
  }

  /** The list the walk over `walk` has built for country c. */
  function Entry(walk: seq<Row>, c: string): seq<real>
  {
    Scaled(FromFirstPositive(Of(walk, c)))
  }

  /**
   * What the walk over the rows in the order `walk` builds: a key for each requested country
   * with a positive row, mapped to the per-million values from that row on.
   */
  function Collect(walk: seq<Row>, countries: seq<string>): map<string, seq<real>>
  {
    map c | c in countries && Found(walk, c) :: Entry(walk, c)
  }

  /** The result of `get_ecdc_data`: the walk goes over the rows in reversed input order. */
  function Series(rows: seq<Row>, countries: seq<string>): map<string, seq<real>>
  {
    Collect(Reverse(rows), countries)
  }

  lemma OfSnoc(s: seq<Row>, x: Row, c: string)
    ensures Of(s + [x], c) == Of(s, c) + (if x.country == c then [x] else [])
  {
    assert (s + [x])[..|s + [x]| - 1] == s;
  }

  lemma {:induction false} FromFirstPositiveSnoc(t: seq<Row>, x: Row)
    ensures FromFirstPositive(t + [x]) ==
      if HasPositive(t) then FromFirstPositive(t) + [x]
      else if x.value > 0 then [x] else []
  {
    if t == [] {
      assert [] + [x] == [x];
      assert [x][1..] == [];
    } else {
      assert (t + [x])[1..] == t[1..] + [x];
      FromFirstPositiveSnoc(t[1..], x);
      if t[0].value <= 0 {
        assert HasPositive(t) == HasPositive(t[1..]) by {
          if HasPositive(t) {
            var i :| 0 <= i < |t| && t[i].value > 0;
            assert t[1..][i - 1].value > 0;
          }
          if HasPositive(t[1..]) {
            var i :| 0 <= i < |t[1..]| && t[1..][i].value > 0;
            assert t[i + 1].value > 0;
          }
        }
      }
    }
  }

  lemma HasPositiveSnoc(t: seq<Row>, x: Row)
    ensures HasPositive(t + [x]) <==> HasPositive(t) || x.value > 0
  {
    if HasPositive(t) {
      var i :| 0 <= i < |t| && t[i].value > 0;
      assert (t + [x])[i].value > 0;
    }
    if HasPositive(t + [x]) && !(x.value > 0) {
      var i :| 0 <= i < |t + [x]| && (t + [x])[i].value > 0;
      assert t[i].value > 0;
    }
    assert (t + [x])[|t|] == x;
  }

  /** One step of the walk, seen from country c: only the row's own country changes. */
  lemma EntryStep(pre: seq<Row>, line: Row, c: string)
    ensures line.country != c ==> Found(pre + [line], c) == Found(pre, c) && Entry(pre + [line], c) == Entry(pre, c)
    ensures line.country == c ==> Found(pre + [line], c) == (Found(pre, c) || line.value > 0)
    ensures line.country == c && Found(pre, c) ==> Entry(pre + [line], c) == Entry(pre, c) + [PerMillion(line)]
    ensures line.country == c && !Found(pre, c) && line.value > 0 ==> Entry(pre + [line], c) == [PerMillion(line)]
  {
    OfSnoc(pre, line, c);
    var t := Of(pre, c);
    if line.country == c {
      HasPositiveSnoc(t, line);
      FromFirstPositiveSnoc(t, line);
      if HasPositive(t) {
        ScaledAppend(FromFirstPositive(t), [line]);
      }
    } else {
      assert t + [] == t;
    }
  }

  /**
   * `get_ecdc_data`: walk the rows from the last to the first, keep requested countries, mark a
   * country found at its first positive row and, from then on, append each row's per-million
   * value to its list.
   */
  method GetEcdcData(rows: seq<Row>, countries: seq<string>) returns (result: map<string, seq<real>>)
    ensures result == Series(rows, countries)
  {
    result := map[];
    var found: seq<string> := [];
    ghost var walk := Reverse(rows);
    for j := 0 to |rows|
      invariant forall c :: c in found <==> c in countries && Found(walk[..j], c)
      invariant forall c :: c in result <==> c in countries && Found(walk[..j], c)
      invariant forall c :: c in result ==> result[c] == Entry(walk[..j], c)
    {
      var line := rows[|rows| - 1 - j];
      ghost var pre, next := walk[..j], walk[..j + 1];
      assert next == pre + [line];
      ghost var result0, found0 := result, found;
      var c := line.country;
      if c in countries {
        if line.value > 0 {
          found := found + [c];
        }
        if c in found {
          if c in result {
            result := result[c := result[c] + [PerMillion(line)]];
          } else {
            result := result[c := [PerMillion(line)]];
          }
        }
      }
      forall d
        ensures d in found <==> d in countries && Found(next, d)
        ensures d in result <==> d in countries && Found(next, d)
        ensures d in result ==> result[d] == Entry(next, d)
      {
        EntryStep(pre, line, d);
        assert d in found0 <==> d in countries && Found(pre, d);
        assert d in result0 ==> result0[d] == Entry(pre, d);
      }
    }
    assert walk[..|rows|] == walk;
  }

  // ---------------------------------------------------------------------------------------
  // Properties of the series

  /** Some row of s belongs to country c and has a positive count. */
  predicate PositiveRowOf(s: seq<Row>, c: string)
  {
    exists i :: 0 <= i < |s| && s[i].country == c && s[i].value > 0
  }

  lemma PositiveRowOfSnoc(p: seq<Row>, x: Row, c: string)
    ensures PositiveRowOf(p + [x], c) <==> PositiveRowOf(p, c) || (x.country == c && x.value > 0)
  {
    if PositiveRowOf(p, c) {
      var i :| 0 <= i < |p| && p[i].country == c && p[i].value > 0;
      assert (p + [x])[i] == p[i];
    }
    if PositiveRowOf(p + [x], c) {
      var i :| 0 <= i < |p + [x]| && (p + [x])[i].country == c && (p + [x])[i].value > 0;
      if i < |p| {
        assert p[i] == (p + [x])[i];
      }
    }
    assert (p + [x])[|p|] == x;
  }

  lemma {:induction false} HasPositiveOf(s: seq<Row>, c: string)
    ensures HasPositive(Of(s, c)) <==> PositiveRowOf(s, c)
  {
    if s != [] {
      var p, x := s[..|s| - 1], s[|s| - 1];
      assert s == p + [x];
      HasPositiveOf(p, c);
      OfSnoc(p, x, c);
      PositiveRowOfSnoc(p, x, c);
      if x.country == c {
        HasPositiveSnoc(Of(p, c), x);
      } else {
        assert Of(p, c) + [] == Of(p, c);
      }
    }
  }

  /** Filtering by country commutes with reversal. */
  lemma {:induction false} OfReverse(s: seq<Row>, c: string)
    ensures Of(Reverse(s), c) == Reverse(Of(s, c))
  {
    if s != [] {
      var x, rest := s[0], s[1..];
      assert Reverse(s) == Reverse(rest) + [x];
      OfSnoc(Reverse(rest), x, c);
      OfReverse(rest, c);
      OfCons(x, rest, c);
      var t := Of(rest, c);
      assert s == [x] + rest;
      if x.country == c {
        assert Reverse([x] + t) == Reverse(t) + [x];
      } else {
        assert [] + t == t;
        assert Of(Reverse(rest), c) + [] == Of(Reverse(rest), c);
      }
    }
  }

  lemma {:induction false} OfCons(x: Row, s: seq<Row>, c: string)
    ensures Of([x] + s, c) == (if x.country == c then [x] else []) + Of(s, c)
    decreases |s|
  {
    if s == [] {
      assert [x] + s == [] + [x];
      assert [x][..0] == [];
    } else {
      var p, y := s[..|s| - 1], s[|s| - 1];
      assert [x] + s == ([x] + p) + [y];
      assert s == p + [y];
      OfSnoc([x] + p, y, c);
      OfSnoc(p, y, c);
      OfCons(x, p, c);
    }
  }

  /** FromFirstPositive keeps the suffix that starts at the first positive row. */
  lemma {:induction false} FromFirstPositiveShape(s: seq<Row>) returns (k: nat)
    requires HasPositive(s)
    ensures k < |s| && s[k].value > 0
    ensures forall j :: 0 <= j < k ==> s[j].value <= 0
    ensures FromFirstPositive(s) == s[k..]
  {
    if s[0].value > 0 {
      k := 0;
    } else {
      var i :| 0 <= i < |s| && s[i].value > 0;
      assert s[1..][i - 1].value > 0;
      var k' := FromFirstPositiveShape(s[1..]);
      k := k' + 1;
      assert s[1..][k'..] == s[k..];
      forall j | 0 <= j < k ensures s[j].value <= 0 {
        if j > 0 { assert s[j] == s[1..][j - 1]; }
      }
    }
  }

  /** The keys of the result are exactly the requested countries that have a positive row. */
  lemma SeriesKeys(rows: seq<Row>, countries: seq<string>, c: string)
    ensures c in Series(rows, countries) <==> c in countries && PositiveRowOf(rows, c)
  {
    var walk := Reverse(rows);
    HasPositiveOf(walk, c);
    if PositiveRowOf(rows, c) {
      var i :| 0 <= i < |rows| && rows[i].country == c && rows[i].value > 0;
      assert walk[|rows| - 1 - i] == rows[i];
    }
    if PositiveRowOf(walk, c) {
      var i :| 0 <= i < |walk| && walk[i].country == c && walk[i].value > 0;
      assert rows[|rows| - 1 - i] == walk[i];
    }
  }

  /**
   * The list of a country is the per-million values of its rows in reversed input order, from
   * its first positive row k (in that order) on; every later row, zeros included, is kept.
   */
  lemma SeriesShape(rows: seq<Row>, countries: seq<string>, c: string) returns (k: nat)
    requires c in Series(rows, countries)
    ensures k < |Of(rows, c)| && Reverse(Of(rows, c))[k].value > 0
    ensures forall j :: 0 <= j < k ==> Reverse(Of(rows, c))[j].value <= 0
    ensures Series(rows, countries)[c] == Scaled(Reverse(Of(rows, c))[k..])
  {
    OfReverse(rows, c);
    k := FromFirstPositiveShape(Of(Reverse(rows), c));
  }

  /** Each list starts with a positive value and is no longer than the country's rows. */
  lemma SeriesStartsPositive(rows: seq<Row>, countries: seq<string>, c: string)
    requires c in Series(rows, countries)
    ensures 0 < |Series(rows, countries)[c]| <= |Of(rows, c)|
    ensures Series(rows, countries)[c][0] > 0.0
  {
    var k := SeriesShape(rows, countries, c);
    var t := Reverse(Of(rows, c));
    assert t[k..][0] == t[k];
  }

  /**
   * Truncation is per country: a country's entry depends only on its own rows and on being
   * requested, never on other countries' rows or on which other countries are requested.
   */
  lemma SeriesIndependent(rows1: seq<Row>, cs1: seq<string>, rows2: seq<Row>, cs2: seq<string>, c: string)
    requires c in cs1 && c in cs2
    requires Of(rows1, c) == Of(rows2, c)
    ensures c in Series(rows1, cs1) <==> c in Series(rows2, cs2)
    ensures c in Series(rows1, cs1) ==> Series(rows1, cs1)[c] == Series(rows2, cs2)[c]
  {
    OfReverse(rows1, c);
    OfReverse(rows2, c);
  }

  // ---------------------------------------------------------------------------------------
  // `plot`: each country's series is averaged over seven days before it is drawn

  /** What `plot` hands to the chart for every key of `data`: `moving_average(data[c], 7)`. */
  method PlotAverages(data: map<string, seq<real>>) returns (plotted: map<string, seq<real>>)
    ensures plotted.Keys == data.Keys
    ensures forall c :: c in data ==> plotted[c] == WindowMeans(TruncAll(data[c]), 7)
  {
    plotted := map[];
    var todo := data.Keys;
    while todo != {}
      invariant todo <= data.Keys
      invariant plotted.Keys == data.Keys - todo
      invariant forall c :: c in plotted ==> plotted[c] == WindowMeans(TruncAll(data[c]), 7)
      decreases todo
    {
      var c :| c in todo;
      var avg := MovingAverage(TruncAll(data[c]), 7);
      plotted := plotted[c := avg];
      todo := todo - {c};
    }
  }

  /**
   * `run`: `get_ecdc_data` then `plot`. Every plotted country is a requested one with a positive
   * row; its curve has max(0, len - 6) points, with len the length of its series, and point i is
   * the mean of the truncated per-million values i..i+6. A short series gives an empty curve,
   * not an error.
   */
  method Compare(rows: seq<Row>, countries: seq<string>) returns (plotted: map<string, seq<real>>)
    ensures forall c :: c in plotted <==> c in countries && PositiveRowOf(rows, c)
    ensures plotted.Keys == Series(rows, countries).Keys
    ensures forall c :: c in plotted ==>
      var s := Series(rows, countries)[c];
      && 0 < |s| <= |Of(rows, c)|
      && |plotted[c]| == (if |s| >= 7 then |s| - 6 else 0)
      && forall i :: 0 <= i < |plotted[c]| ==> plotted[c][i] == Mean(TruncAll(s), i, 7)
  {
    var data := GetEcdcData(rows, countries);
    plotted := PlotAverages(data);
    forall c ensures c in plotted <==> c in countries && PositiveRowOf(rows, c) {
      SeriesKeys(rows, countries, c);
    }
    forall c | c in plotted ensures 0 < |data[c]| <= |Of(rows, c)| {
      SeriesStartsPositive(rows, countries, c);
    }
  }
}
