/** The shared types of `src/lib/types.ts`: the seven days, tasks and notes. */
module Week {
  import opened Wrappers

  /** The signed-in user's uid, which scopes every stored collection. */
  type Uid = string

  datatype Day = Monday | Tuesday | Wednesday | Thursday | Friday | Saturday | Sunday

  /** The string a `Day` is in JavaScript and in the stored documents. */
  function DayName(d: Day): string {
    match d
    case Monday => "Monday"
    case Tuesday => "Tuesday"
    case Wednesday => "Wednesday"
    case Thursday => "Thursday"
    case Friday => "Friday"
    case Saturday => "Saturday"
    case Sunday => "Sunday"
  }

  /** The day a stored string names, if it names one. */
  function ParseDay(s: string): (r: Option<Day>)
    ensures r.Some? ==> DayName(r.value) == s
  {
    if s == "Monday" then Some(Monday)
    else if s == "Tuesday" then Some(Tuesday)
    else if s == "Wednesday" then Some(Wednesday)
    else if s == "Thursday" then Some(Thursday)
    else if s == "Friday" then Some(Friday)
    else if s == "Saturday" then Some(Saturday)
    else if s == "Sunday" then Some(Sunday)
    else None
  }

  /** Every day's name is read back as that day, so `ParseDay` finds a day exactly
      when the string is one of the seven names. */
  lemma ParseDayName(d: Day)
    ensures ParseDay(DayName(d)) == Some(d)
  {
  }

  /** The key order of `initialTasks` and `initialNotes`, which `Object.keys` and
      `Object.values` follow. */
  const AllDays: seq<Day> := [Monday, Tuesday, Wednesday, Thursday, Friday, Saturday, Sunday]

  lemma AllDaysComplete(d: Day)
    ensures d in AllDays
  {
  }

  datatype Task = Task(id: string, text: string, completed: bool, day: Day)

  /** `DayTasks`: a record with one key per day. */
  type DayTasks = map<Day, seq<Task>>

  /** A note as the notes container hands it out: the document's `id`, its
      `content` and whatever other fields the stored document carries. */
  datatype Note = Note(id: string, content: string, extra: map<string, string>)

  /** `DayNotes`: a record with one key per day, each a note or `null`. */
  type DayNotes = map<Day, Option<Note>>

  /** The record has a key for every day. */
  ghost predicate IsTotal<V>(m: map<Day, V>) {
    forall d: Day :: d in m
  }

  lemma DayCases(d: Day)
    ensures d == Monday || d == Tuesday || d == Wednesday || d == Thursday
         || d == Friday || d == Saturday || d == Sunday
  {
  }
}
