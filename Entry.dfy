/**
  The shape of a journal entry (`dailyLog`, script.js:33). The draft being
  composed and every value stored in the log have this shape: a save stores a
  copy of the draft (script.js:228), so a stored value may lack a field only
  when it came from storage written by something else.
 */
module Entry {
  import opened Palette

  datatype Option<T> = None | Some(value: T)

  /** A draft or stored entry; `None` stands for the draft's initial `null`. */
  datatype Record = Record(date: Option<string>, mood: Option<MoodScore>, color: Option<string>, tookMeds: bool)

  /** The draft when the page opens: nothing chosen, medication unchecked. */
  const EmptyDraft: Record := Record(None, None, None, false)

  /** A string field is truthy: set, and not the empty string. */
  function Present(s: Option<string>): (truthy: bool)
    ensures truthy <==> s != None && s != Some("")
  {
    s.Some? && s.value != ""
  }

  /** The guard of the save handler: date, mood and colour all chosen (script.js:210). */
  function Ready(r: Record): (ok: bool)
    ensures ok ==> r.date.Some? && r.mood.Some? && r.color.Some?
    ensures ok ==> r.date.value != "" && r.color.value != ""
    ensures r.date == Some("") || r.color == Some("") ==> !ok
    ensures r == EmptyDraft ==> !ok
  {
    Present(r.date) && r.mood.Some? && Present(r.color)
  }

  /** Every stored entry is complete and filed under its own date. */
  ghost predicate WellFiled(log: map<string, Record>)
  {
    forall k :: k in log ==> Ready(log[k]) && log[k].date == Some(k)
  }
}
