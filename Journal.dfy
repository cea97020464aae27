/**
  The journal's state and its save path: the draft being composed
  (`dailyLog`), the in-memory log keyed by date (`masterLog`), the copy kept
  in browser storage, and the save handler that gates and commits the draft
  (script.js:33, 36, 121, 193-234).
 */
module Journal {
  import opened Palette
  import opened Entry

  /** How a press of the save button ends. */
  datatype SaveOutcome =
    | Incomplete  // date, mood or colour missing: the user is told, nothing changes
    | Declined    // incongruent pair and the user did not confirm: nothing changes
    | Saved       // the draft was written to the log and to storage

  /**
    The decision of the save handler for a draft. `confirmed` is the answer the
    user would give to the incongruence prompt; it matters only when the
    prompt is shown.
   */
  function Decide(draft: Record, confirmed: bool): (o: SaveOutcome)
    ensures o == Incomplete <==> !Ready(draft)
    ensures Ready(draft) ==>
      var m, c := draft.mood.value, draft.color.value;
      (o == Saved <==>
        confirmed || c !in ColorMoodMapping ||
        ColorMoodMapping[c].lo - 1 <= m <= ColorMoodMapping[c].hi + 1)
  {
    if !Ready(draft) then Incomplete
    else if NeedsConfirmation(draft.mood.value, draft.color.value) && !confirmed then Declined
    else Saved
  }

  /**
    The log after a committed save: the draft, with the medication flag read
    at save time, stored under the draft's date.
   */
  function Commit(log: map<string, Record>, draft: Record, meds: bool): (r: map<string, Record>)
    requires Present(draft.date)
    ensures r.Keys == log.Keys + {draft.date.value}
    ensures r[draft.date.value] == draft.(tookMeds := meds)
    ensures forall k :: k in log && k != draft.date.value ==> r[k] == log[k]
  {
    log[draft.date.value := draft.(tookMeds := meds)]
  }

  /** A save adds at most one key: none when the date already has an entry, one otherwise. */
  lemma CommitSize(log: map<string, Record>, draft: Record, meds: bool)
    requires Present(draft.date)
    ensures var r := Commit(log, draft, meds);
      |r| == if draft.date.value in log then |log| else |log| + 1
  {
    var r := Commit(log, draft, meds);
    var k := draft.date.value;
    if k in log {
      assert r.Keys == log.Keys;
    } else {
      assert r.Keys == log.Keys + {k};
      assert |log.Keys + {k}| == |log.Keys| + 1;
    }
  }

  /** A second save for the same date replaces the first entirely: no field of it survives. */
  lemma LastWriteWins(log: map<string, Record>, first: Record, m1: bool, second: Record, m2: bool)
    requires Present(first.date) && second.date == first.date
    ensures Commit(Commit(log, first, m1), second, m2) == Commit(log, second, m2)
  {
  }

  /** Saves for different dates commute, so the log does not depend on the order of the saves. */
  lemma CommitsCommute(log: map<string, Record>, a: Record, ma: bool, b: Record, mb: bool)
    requires Present(a.date) && Present(b.date) && a.date != b.date
    ensures Commit(Commit(log, a, ma), b, mb) == Commit(Commit(log, b, mb), a, ma)
  {
    var ka, kb := a.date.value, b.date.value;
    var ea, eb := a.(tookMeds := ma), b.(tookMeds := mb);
    assert ka != kb;
    assert Commit(Commit(log, a, ma), b, mb) == log[ka := ea][kb := eb];
    assert Commit(Commit(log, b, mb), a, ma) == log[kb := eb][ka := ea];
  }

  /** Saving a complete draft keeps every stored entry complete and filed under its own date. */
  lemma CommitKeepsWellFiled(log: map<string, Record>, draft: Record, meds: bool)
    requires WellFiled(log) && Ready(draft)
    ensures WellFiled(Commit(log, draft, meds))
  {
  }

  /** The log read from storage at start-up: the stored map, or an empty one when nothing is stored. */
  function Loaded(stored: Option<map<string, Record>>): (log: map<string, Record>)
    ensures stored.None? ==> log == map[]
    ensures stored.Some? ==> log == stored.value
  {
    if stored.Some? then stored.value else map[]
  }

  /** The page's journal state. */
  class MoodJournal {
    // the draft (`dailyLog`), field by field
    var date: Option<string>
    var mood: Option<MoodScore>
    var color: Option<string>
    var tookMeds: bool
    // the log (`masterLog`) and what storage holds under its key
    var masterLog: map<string, Record>
    var stored: Option<map<string, Record>>

    /** The draft as one value. */
    function Draft(): (draft: Record)
      reads this
    {
      Record(date, mood, color, tookMeds)
    }

    /** The log in memory is what storage holds, or empty when storage holds nothing. */
    ghost predicate Valid()
      reads this
    {
      masterLog == Loaded(stored)
    }

    /** Page load: an empty draft and the log read from storage. */
    constructor (persisted: Option<map<string, Record>>)
      ensures Valid()
      ensures stored == persisted
      ensures Draft() == EmptyDraft
    {
      date, mood, color, tookMeds := None, None, None, false;
      masterLog := Loaded(persisted);
      stored := persisted;
    }

    /** A calendar cell was clicked. */
    method SelectDate(dateStr: string)
      modifies this
      ensures Draft() == old(Draft()).(date := Some(dateStr))
      ensures masterLog == old(masterLog) && stored == old(stored)
    {
      date := Some(dateStr);
    }

    /** A mood icon was clicked. */
    method SelectMood(m: MoodScore)
      modifies this
      ensures Draft() == old(Draft()).(mood := Some(m))
      ensures masterLog == old(masterLog) && stored == old(stored)
    {
      mood := Some(m);
    }

    /** A colour wedge was clicked. */
    method SelectColor(c: string)
      modifies this
      ensures Draft() == old(Draft()).(color := Some(c))
      ensures masterLog == old(masterLog) && stored == old(stored)
    {
      color := Some(c);
    }

    /**
      The save button: refuse an incomplete draft, ask for confirmation of an
      incongruent pair, else store a copy of the draft under its date and write
      the whole log to storage. The draft is kept after a save.
     */
    method Save(medsChecked: bool, confirmed: bool) returns (o: SaveOutcome)
      requires Valid()
      modifies this
      ensures Valid()
      ensures o == Decide(old(Draft()), confirmed)
      ensures o == Saved ==>
        && masterLog == Commit(old(masterLog), old(Draft()), medsChecked)
        && Draft() == old(Draft()).(tookMeds := medsChecked)
        && stored == Some(masterLog)
      ensures o != Saved ==>
        masterLog == old(masterLog) && Draft() == old(Draft()) && stored == old(stored)
    {
      if !(Present(date) && mood.Some? && Present(color)) {
        return Incomplete;
      }
      var moodNum := mood.value;
      var proceed := true;
      if color.value in ColorMoodMapping {
        var range := ColorMoodMapping[color.value];
        if moodNum < range.lo - 1 || moodNum > range.hi + 1 {
          proceed := confirmed;
        }
      }
      if proceed {
        tookMeds := medsChecked;
        masterLog := masterLog[date.value := Draft()];
        stored := Some(masterLog);
        o := Saved;
      } else {
        o := Declined;
      }
    }
  }

  /** Saving January 1st twice keeps exactly one entry for that date: the second. */
  lemma ResaveExample()
    ensures var first := Record(Some("2024-01-01"), Some(3), Some("#2e7d32"), false);
      var second := Record(Some("2024-01-01"), Some(9), Some("#ef6c00"), true);
      var log := Commit(Commit(map[], first, false), second, true);
      log.Keys == {"2024-01-01"} && log["2024-01-01"] == second
  {
  }
}
