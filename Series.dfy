/**
  The chart feeds derived from the log in `renderCharts` (script.js:131-157):
  the dates in sorted key order, the mood series, the colour series, and how
  the colour trend is painted.
 */
module Series {
  import opened Palette
  import opened Entry
  import opened KeyOrder
  import opened DateKeys
  import opened Journal

  /** `sortedDates`: the keys of the log in sorted order, one per entry. */
  ghost function SortedDates(log: map<string, Record>): (r: seq<string>)
    ensures |r| == |log|
    ensures Sorted(r)
    ensures forall k :: k in r <==> k in log
  {
    SortedKeys(log.Keys)
  }

  /** The mood chart's data: the mood of each entry, in sorted key order. */
  ghost function MoodData(log: map<string, Record>): (r: seq<Option<MoodScore>>)
    ensures |r| == |log|
    ensures forall i :: 0 <= i < |r| ==> r[i] == log[SortedDates(log)[i]].mood
  {
    var dates := SortedDates(log);
    seq(|dates|, i requires 0 <= i < |dates| => log[dates[i]].mood)
  }

  /** `filter(Boolean)` on colour values: the set, non-empty ones, in order. */
  function DropFalsy(xs: seq<Option<string>>): (r: seq<string>)
    ensures |r| <= |xs|
    ensures forall i :: 0 <= i < |r| ==> r[i] != "" && Some(r[i]) in xs
    ensures forall i :: 0 <= i < |xs| && Present(xs[i]) ==> xs[i].value in r
  {
    if xs == [] then []
    else (if Present(xs[0]) then [xs[0].value] else []) + DropFalsy(xs[1..])
  }

  /** Filtering a concatenation filters each part and keeps them in order. */
  lemma {:induction false} DropFalsyAppend(a: seq<Option<string>>, b: seq<Option<string>>)
    ensures DropFalsy(a + b) == DropFalsy(a) + DropFalsy(b)
  {
    if a != [] {
      assert (a + b)[0] == a[0] && (a + b)[1..] == a[1..] + b;
      DropFalsyAppend(a[1..], b);
    } else {
      assert a + b == b;
    }
  }

  /** When every value is set and non-empty, the filter drops nothing. */
  lemma {:induction false} DropFalsyKeepsAll(xs: seq<Option<string>>)
    requires forall i :: 0 <= i < |xs| ==> Present(xs[i])
    ensures |DropFalsy(xs)| == |xs|
    ensures forall i :: 0 <= i < |xs| ==> DropFalsy(xs)[i] == xs[i].value
  {
    if xs != [] {
      DropFalsyKeepsAll(xs[1..]);
      assert DropFalsy(xs) == [xs[0].value] + DropFalsy(xs[1..]);
    }
  }

  /** The colours of the entries in sorted key order, before filtering. */
  ghost function ColorValues(log: map<string, Record>): (r: seq<Option<string>>)
    ensures |r| == |log|
    ensures forall i :: 0 <= i < |r| ==> r[i] == log[SortedDates(log)[i]].color
  {
    var dates := SortedDates(log);
    seq(|dates|, i requires 0 <= i < |dates| => log[dates[i]].color)
  }

  /** `colorData`: the colours in sorted key order with missing ones dropped; never more than the entries. */
  ghost function ColorData(log: map<string, Record>): (r: seq<string>)
    ensures r == DropFalsy(ColorValues(log))
    ensures |r| <= |log|
    ensures forall i :: 0 <= i < |r| ==> r[i] != ""
    ensures forall i :: 0 <= i < |r| ==> exists k :: k in log && log[k].color == Some(r[i])
    ensures forall k :: k in log && Present(log[k].color) ==> log[k].color.value in r
  {
    var values := ColorValues(log);
    var r := DropFalsy(values);
    var dates := SortedDates(log);
    forall i | 0 <= i < |r|
      ensures exists k :: k in log && log[k].color == Some(r[i])
    {
      var j :| 0 <= j < |values| && values[j] == Some(r[i]);
      assert dates[j] in log && log[dates[j]].color == Some(r[i]);
    }
    forall k | k in log && Present(log[k].color)
      ensures log[k].color.value in r
    {
      var j :| 0 <= j < |dates| && dates[j] == k;
      assert values[j] == log[k].color;
    }
    r
  }

  /**
    For a log whose every entry came from a save, each date contributes one
    mood point and one colour, both in sorted key order.
   */
  lemma WellFiledSeries(log: map<string, Record>)
    requires WellFiled(log)
    ensures var dates, moods, colors := SortedDates(log), MoodData(log), ColorData(log);
      && |moods| == |log| && |colors| == |log|
      && forall i :: 0 <= i < |log| ==>
           && moods[i] == log[dates[i]].mood && moods[i].Some?
           && colors[i] == log[dates[i]].color.value
  {
    var dates, values := SortedDates(log), ColorValues(log);
    assert forall i :: 0 <= i < |values| ==> values[i] == log[dates[i]].color;
    DropFalsyKeepsAll(values);
  }

  /** For keys built from valid dates, the series run from the earliest date to the latest. */
  lemma SeriesChronological(log: map<string, Record>, i: int, j: int,
                            y1: int, m1: int, d1: int, y2: int, m2: int, d2: int)
    requires 0 <= i < j < |log|
    requires ValidDate(y1, m1, d1) && ValidDate(y2, m2, d2)
    requires SortedDates(log)[i] == DateKey(y1, m1, d1)
    requires SortedDates(log)[j] == DateKey(y2, m2, d2)
    ensures Before(y1, m1, d1, y2, m2, d2)
  {
    DateKeyOrder(y1, m1, d1, y2, m2, d2);
  }

  /** Saving February 1st before January 1st still charts January first. */
  lemma FebruaryThenJanuary(log: map<string, Record>)
    requires log == Commit(Commit(map[], Record(Some(DateKey(2024, 1, 1)), Some(7), Some("#fdd835"), false), false),
                           Record(Some(DateKey(2024, 0, 1)), Some(2), Some("#1565c0"), true), true)
    ensures SortedDates(log) == [DateKey(2024, 0, 1), DateKey(2024, 1, 1)]
    ensures MoodData(log) == [Some(2), Some(7)]
  {
    var jan, feb := DateKey(2024, 0, 1), DateKey(2024, 1, 1);
    DateKeyOrder(2024, 0, 1, 2024, 1, 1);
    assert Precedes(jan, feb);
    assert log.Keys == {feb, jan};
    assert forall k :: k in [jan, feb] <==> k in log.Keys;
    SortedKeysUnique(log.Keys, [jan, feb]);
  }

  /** One colour stop of the gradient: its position across the chart and its colour. */
  datatype Stop = Stop(offset: real, color: string)

  /** How the colour trend is painted. */
  datatype ColorFill =
    | Blank                          // canvas cleared, nothing drawn
    | Flat(color: string)            // the whole canvas in one colour
    | Gradient(stops: seq<Stop>)     // a left-to-right gradient

  /** The position of stop `index` of `count`: `index / (count - 1)`, exactly. */
  function StopOffset(index: nat, count: nat): (offset: real)
    requires count >= 2
  {
    index as real / (count - 1) as real
  }

  /** Stop positions start at 0, end at 1 and strictly increase in between. */
  lemma StopOffsetsSpread(i: nat, j: nat, count: nat)
    requires count >= 2 && i < j < count
    ensures 0.0 <= StopOffset(i, count) < StopOffset(j, count) <= 1.0
    ensures StopOffset(0, count) == 0.0 && StopOffset(count - 1, count) == 1.0
  {
    var d := (count - 1) as real;
    assert StopOffset(i, count) * d == i as real;
    assert StopOffset(j, count) * d == j as real;
  }

  /**
    The colour trend (script.js:142-156): nothing for no colours, a flat fill
    for one, and otherwise a gradient with one stop per colour, stop `i` at
    `i / (n - 1)`, so the stops run from 0 to 1 in strictly increasing order.
   */
  method ColorTrendFill(colorData: seq<string>) returns (fill: ColorFill)
    ensures |colorData| == 0 <==> fill == Blank
    ensures |colorData| == 1 <==> fill.Flat?
    ensures fill.Flat? ==> fill.color == colorData[0]
    ensures |colorData| >= 2 <==> fill.Gradient?
    ensures fill.Gradient? ==>
      && |fill.stops| == |colorData|
      && (forall i :: 0 <= i < |colorData| ==>
            fill.stops[i].color == colorData[i] && fill.stops[i].offset == StopOffset(i, |colorData|))
      && fill.stops[0].offset == 0.0 && fill.stops[|fill.stops| - 1].offset == 1.0
      && (forall i, j :: 0 <= i < j < |fill.stops| ==> fill.stops[i].offset < fill.stops[j].offset)
  {
    var n := |colorData|;
    if n < 2 {
      if n == 1 {
        return Flat(colorData[0]);
      }
      return Blank;
    }
    var stops: seq<Stop> := [];
    var index := 0;
    while index < n
      invariant 0 <= index <= n
      invariant |stops| == index
      invariant forall i :: 0 <= i < index ==> stops[i] == Stop(StopOffset(i, n), colorData[i])
    {
      stops := stops + [Stop(StopOffset(index, n), colorData[index])];
      index := index + 1;
    }
    forall i, j | 0 <= i < j < n
      ensures stops[i].offset < stops[j].offset
    {
      StopOffsetsSpread(i, j, n);
    }
    StopOffsetsSpread(0, n - 1, n);
    fill := Gradient(stops);
  }

  /** Two colours give stops at exactly 0 and 1. */
  method TwoColorExample() returns (fill: ColorFill)
    ensures fill == Gradient([Stop(0.0, "#2e7d32"), Stop(1.0, "#f44336")])
  {
    fill := ColorTrendFill(["#2e7d32", "#f44336"]);
    assert fill.stops[1].offset == StopOffset(1, 2) == 1.0;
  }
}
