/**
  The mood scale and the colour palette of the journal, with the save-time
  congruence test between a mood score and a colour (script.js:16-29, 215-224).
 */
module Palette {

  /** A self-reported mood score; 10 is the most positive. */
  type MoodScore = m: int | 1 <= m <= 10 witness 1

  /** The mood icons offered to the user, top to bottom (`moodData`). */
  const MoodScale: seq<int> := [10, 9, 8, 7, 6, 5, 4, 3, 2, 1]

  /** A closed interval of mood scores `[lo, hi]`. */
  datatype MoodRange = MoodRange(lo: int, hi: int)

  /** The sixteen wedges of the colour wheel, in drawing order (`colors`). */
  const Colors: seq<string> := [
    "#0d47a1", "#1565c0", "#1e88e5",
    "#2e7d32", "#388e3c", "#43a047", "#66bb6a",
    "#fdd835", "#ffeb3b", "#fff176",
    "#ef6c00", "#f57c00", "#fb8c00",
    "#d32f2f", "#e53935", "#f44336"
  ]

  /** The nominal mood range of each colour (`colorMoodMapping`). */
  const ColorMoodMapping: map<string, MoodRange> := map[
    "#0d47a1" := MoodRange(1, 2), "#1565c0" := MoodRange(1, 2), "#1e88e5" := MoodRange(1, 2),
    "#2e7d32" := MoodRange(3, 5), "#388e3c" := MoodRange(3, 5), "#43a047" := MoodRange(3, 5),
    "#66bb6a" := MoodRange(3, 5),
    "#fdd835" := MoodRange(6, 7), "#ffeb3b" := MoodRange(6, 7), "#fff176" := MoodRange(6, 7),
    "#ef6c00" := MoodRange(8, 9), "#f57c00" := MoodRange(8, 9), "#fb8c00" := MoodRange(8, 9),
    "#d32f2f" := MoodRange(10, 10), "#e53935" := MoodRange(10, 10), "#f44336" := MoodRange(10, 10)
  ]

  /** The ranges of the five hue groups (blue, green, yellow, orange, red), low to high. */
  const HueBands: seq<MoodRange> :=
    [MoodRange(1, 2), MoodRange(3, 5), MoodRange(6, 7), MoodRange(8, 9), MoodRange(10, 10)]

  /** How many steps `mood` lies outside the range `r` (0 when inside). */
  function Distance(mood: int, r: MoodRange): nat
    requires r.lo <= r.hi
  {
    if mood < r.lo then r.lo - mood
    else if mood > r.hi then mood - r.hi
    else 0
  }

  /** The icons offer exactly the scores 1 to 10, each once. */
  lemma MoodScaleIsOneToTen()
    ensures |MoodScale| == 10
    ensures forall m :: m in MoodScale <==> 1 <= m <= 10
    ensures forall i, j :: 0 <= i < j < |MoodScale| ==> MoodScale[i] > MoodScale[j]
  {
  }

  /** Every wedge colour has a range, the table maps nothing else, and every range lies in 1..10. */
  lemma PaletteIsMapped()
    ensures |Colors| == 16
    ensures forall c :: c in ColorMoodMapping <==> c in Colors
    ensures forall c :: c in ColorMoodMapping ==>
      1 <= ColorMoodMapping[c].lo <= ColorMoodMapping[c].hi <= 10
  {
  }

  /** Every range in the table is one of the hue bands. */
  lemma RangesAreHueBands()
    ensures forall c :: c in ColorMoodMapping ==> ColorMoodMapping[c] in HueBands
  {
  }

  /** The hue bands tile the mood scale: they start at 1, end at 10, and each starts one above where the previous ends. */
  lemma HueBandsTile()
    ensures HueBands[0].lo == 1 && HueBands[|HueBands| - 1].hi == 10
    ensures forall i :: 0 <= i < |HueBands| ==> HueBands[i].lo <= HueBands[i].hi
    ensures forall i :: 0 < i < |HueBands| ==> HueBands[i].lo == HueBands[i - 1].hi + 1
  {
  }

  /** Each mood score lies in exactly one hue band, so the table covers 1..10 without gaps or overlaps. */
  lemma {:induction false} OneBandPerMood(m: int)
    requires 1 <= m <= 10
    ensures exists i :: 0 <= i < |HueBands| && HueBands[i].lo <= m <= HueBands[i].hi
    ensures forall i, j ::
              && 0 <= i < |HueBands| && HueBands[i].lo <= m <= HueBands[i].hi
              && 0 <= j < |HueBands| && HueBands[j].lo <= m <= HueBands[j].hi
              ==> i == j
  {
    var i := if m <= 2 then 0 else if m <= 5 then 1 else if m <= 7 then 2 else if m <= 9 then 3 else 4;
    assert HueBands[i].lo <= m <= HueBands[i].hi;
  }

  /** Every mood score has a wedge colour whose nominal range contains it. */
  lemma {:induction false} EveryMoodHasAColor(m: int)
    requires 1 <= m <= 10
    ensures exists c ::
              && c in Colors && c in ColorMoodMapping
              && ColorMoodMapping[c].lo <= m <= ColorMoodMapping[c].hi
  {
    var c := if m <= 2 then "#0d47a1" else if m <= 5 then "#2e7d32" else if m <= 7 then "#fdd835"
      else if m <= 9 then "#ef6c00" else "#d32f2f";
    assert c in Colors && c in ColorMoodMapping;
  }

  /**
    The save-time test: a mood and a colour call for confirmation exactly when
    the colour has a range and the mood lies more than one step outside it.
    An unmapped colour never calls for confirmation.
   */
  function NeedsConfirmation(mood: int, color: string): (warn: bool)
    ensures warn <==> color in ColorMoodMapping && Distance(mood, ColorMoodMapping[color]) > 1
    ensures color in ColorMoodMapping && ColorMoodMapping[color].lo <= mood <= ColorMoodMapping[color].hi ==> !warn
  {
    if color in ColorMoodMapping then
      PaletteIsMapped();
      var r := ColorMoodMapping[color];
      mood < r.lo - 1 || mood > r.hi + 1
    else
      false
  }

  /** A mood one step away from a green (3-5) colour passes silently; one three steps away warns. */
  lemma GreenTolerance()
    ensures !NeedsConfirmation(2, "#2e7d32") && !NeedsConfirmation(6, "#2e7d32")
    ensures NeedsConfirmation(1, "#2e7d32") && NeedsConfirmation(8, "#2e7d32")
  {
  }

  /** For each mood score, some wedge colour can be saved with it without a prompt. */
  lemma {:induction false} SilentChoiceExists(m: int)
    requires 1 <= m <= 10
    ensures exists c :: c in Colors && !NeedsConfirmation(m, c)
  {
    EveryMoodHasAColor(m);
    var c :| c in Colors && c in ColorMoodMapping &&
      ColorMoodMapping[c].lo <= m <= ColorMoodMapping[c].hi;
    assert !NeedsConfirmation(m, c);
  }
}
