/** The board of `src/components/WeeklyPlanner.tsx`: the seven columns, the
    per-day lookups and the rule that turns a suggestion result into a task. */
module PlannerView {
  import opened Wrappers
  import opened Week
  import opened Ui
  import Tasks

  const DaysOfWeek: seq<Day> := [Monday, Tuesday, Wednesday, Thursday, Friday, Saturday, Sunday]

  /** The board lists every day exactly once, Monday to Sunday, in the key order
      of the task and note records. */
  lemma DaysOfWeekOnce(d: Day)
    ensures |DaysOfWeek| == 7 && DaysOfWeek == AllDays
    ensures d in DaysOfWeek
    ensures forall i, j :: 0 <= i < j < |DaysOfWeek| ==> DaysOfWeek[i] != DaysOfWeek[j]
    ensures DaysOfWeek[0] == Monday && DaysOfWeek[6] == Sunday
  {
    DayCases(d);
  }

  const FallbackMessage: string := "Couldn't come up with a suggestion. Please try again."

  /** `Math.floor(Math.random() * n)`, with the random draw as a parameter in
      [0, 1): always a valid index. */
  function RandomIndex(random: real, n: nat): (k: nat)
    requires 0.0 <= random < 1.0 && n > 0
    ensures k < n
  {
    var x := random * (n as real);
    assert 0.0 <= x < n as real;
    x.Floor
  }

  /** The suggestion added: one of the returned texts, exactly when the action
      succeeded with a non-empty list. */
  function PickSuggestion(result: ActionResult<seq<string>>, random: real): (r: Option<string>)
    requires 0.0 <= random < 1.0
    ensures r.Some? <==> result.Succeeded? && |result.data| > 0
    ensures r.Some? ==> r.value in result.data
  {
    if result.Succeeded? && |result.data| > 0 then
      Some(result.data[RandomIndex(random, |result.data|)])
    else None
  }

  /** `result.error || "Couldn't come up with a suggestion. Please try again."`:
      the action's error when it has a non-empty one, the fixed text otherwise. */
  function FailureMessage(result: ActionResult<seq<string>>): (m: string)
    ensures result.Failed? && result.error != "" ==> m == result.error
    ensures !(result.Failed? && result.error != "") ==> m == FallbackMessage
  {
    if result.Failed? && result.error != "" then result.error else FallbackMessage
  }

  /** `tasks?.[day] ?? []`. */
  function TasksFor(tasks: Option<DayTasks>, d: Day): (r: seq<Task>)
    ensures tasks.None? || d !in tasks.value ==> r == []
    ensures tasks.Some? && d in tasks.value ==> r == tasks.value[d]
  {
    if tasks.Some? && d in tasks.value then tasks.value[d] else []
  }

  /** `notes?.[day] ?? null`. */
  function NoteFor(notes: Option<DayNotes>, d: Day): (r: Option<Note>)
    ensures notes.None? || d !in notes.value ==> r.None?
    ensures notes.Some? && d in notes.value ==> r == notes.value[d]
  {
    if notes.Some? && d in notes.value then notes.value[d] else None
  }

  function SuggestedToast(suggestion: string, d: Day): Toast {
    Toast("Task Suggested!", "Added \"" + suggestion + "\" to " + DayName(d) + ".", false)
  }

  class WeeklyPlanner {
    const tasks: Tasks.TaskProvider
    var toasts: seq<Toast>

    constructor(tasks: Tasks.TaskProvider)
      ensures this.tasks == tasks && toasts == []
    {
      this.tasks := tasks;
      toasts := [];
    }

    /** `handleSuggestTask` after the action resolves: a picked suggestion is
        added to the requested day through `addTask`, and a toast reports the
        outcome. `addTask` is not awaited, so the toast is shown whether or not
        the backend accepts the write (`rejects`). */
    method HandleSuggestTask(day: Day, result: ActionResult<seq<string>>, random: real, rejects: bool)
      returns (suggestion: Option<string>)
      requires 0.0 <= random < 1.0
      modifies tasks`store, this`toasts
      ensures suggestion == PickSuggestion(result, random)
      ensures suggestion.Some? ==>
                toasts == old(toasts) + [SuggestedToast(suggestion.value, day)] &&
                (tasks.user.None? || rejects ==> tasks.store == old(tasks.store)) &&
                (tasks.user.Some? && !rejects ==>
                   exists id :: id !in Tasks.CollectionOf(old(tasks.store), tasks.user.value) &&
                     tasks.store == old(tasks.store)[tasks.user.value :=
                       Tasks.Added(Tasks.CollectionOf(old(tasks.store), tasks.user.value), id, day, suggestion.value)])
      ensures suggestion.None? ==>
                tasks.store == old(tasks.store) &&
                toasts == old(toasts) + [Toast("Suggestion Failed", FailureMessage(result), true)]
    {
      suggestion := PickSuggestion(result, random);
      if suggestion.Some? {
        var outcome, id := tasks.AddTask(day, suggestion.value, rejects);
        toasts := toasts + [SuggestedToast(suggestion.value, day)];
      } else {
        toasts := toasts + [Toast("Suggestion Failed", FailureMessage(result), true)];
      }
    }
  }
}
