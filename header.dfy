/**
 * The summary button and theme toggle of `src/components/Header.tsx`. The
 * asynchronous `handleGetSummary` is split at its one `await`: `BeginSummary`
 * runs up to the server call and `FinishSummary` runs once it resolves.
 */
module HeaderView {
  import opened Wrappers
  import opened Week
  import opened Ui
  import Tasks

  /** `tasks.filter(t => t.completed).map(t => t.text)`. */
  function CompletedTexts(ts: seq<Task>): (r: seq<string>)
    ensures |r| <= |ts|
    ensures r == [] <==> forall k :: 0 <= k < |ts| ==> !ts[k].completed
    decreases |ts|
  {
    if ts == [] then []
    else (if ts[0].completed then [ts[0].text] else []) + CompletedTexts(ts[1..])
  }

  /** `tasks.filter(t => !t.completed).map(t => t.text)`. */
  function IncompleteTexts(ts: seq<Task>): (r: seq<string>)
    ensures |r| <= |ts|
    ensures r == [] <==> forall k :: 0 <= k < |ts| ==> ts[k].completed
    decreases |ts|
  {
    if ts == [] then []
    else (if ts[0].completed then [] else [ts[0].text]) + IncompleteTexts(ts[1..])
  }

  /** Every task lands in exactly one of the two lists: their lengths add up to
      the number of tasks, and both are empty only when there are no tasks. */
  lemma {:induction false} PartitionCounts(ts: seq<Task>)
    ensures |CompletedTexts(ts)| + |IncompleteTexts(ts)| == |ts|
    ensures CompletedTexts(ts) == [] && IncompleteTexts(ts) == [] <==> ts == []
    decreases |ts|
  {
    if ts != [] {
      PartitionCounts(ts[1..]);
    }
  }

  /** The completed list holds the texts of the completed tasks and no other
      text, and likewise the incomplete list. */
  lemma PartitionMembers(ts: seq<Task>, s: string)
    ensures s in CompletedTexts(ts) <==> exists i :: 0 <= i < |ts| && ts[i].completed && ts[i].text == s
    ensures s in IncompleteTexts(ts) <==> exists i :: 0 <= i < |ts| && !ts[i].completed && ts[i].text == s
  {
    CompletedMembers(ts, s);
    IncompleteMembers(ts, s);
  }

  lemma {:induction false} CompletedMembers(ts: seq<Task>, s: string)
    ensures s in CompletedTexts(ts) <==> exists i :: 0 <= i < |ts| && ts[i].completed && ts[i].text == s
    decreases |ts|
  {
    if ts != [] {
      var t := ts[1..];
      CompletedMembers(t, s);
      if i :| 0 <= i < |ts| && ts[i].completed && ts[i].text == s {
        if i > 0 {
          assert t[i - 1] == ts[i];
        }
      }
      if i :| 0 <= i < |t| && t[i].completed && t[i].text == s {
        assert ts[i + 1] == t[i];
      }
    }
  }

  lemma {:induction false} IncompleteMembers(ts: seq<Task>, s: string)
    ensures s in IncompleteTexts(ts) <==> exists i :: 0 <= i < |ts| && !ts[i].completed && ts[i].text == s
    decreases |ts|
  {
    if ts != [] {
      var t := ts[1..];
      IncompleteMembers(t, s);
      if i :| 0 <= i < |ts| && !ts[i].completed && ts[i].text == s {
        if i > 0 {
          assert t[i - 1] == ts[i];
        }
      }
      if i :| 0 <= i < |t| && !t[i].completed && t[i].text == s {
        assert ts[i + 1] == t[i];
      }
    }
  }

  /** The two lists the summary request carries. */
  datatype SummaryRequest = SummaryRequest(completed: seq<string>, incomplete: seq<string>)

  const NoTasksToast: Toast :=
    Toast("No tasks found", "Add some tasks to your week to get a summary.", true)

  /** The theme toggle: "light" becomes "dark", and anything else, an unset
      theme included, becomes "light". */
  function NextTheme(theme: Option<string>): (r: string)
    ensures r == "light" || r == "dark"
    ensures r == "dark" <==> theme == Some("light")
  {
    if theme == Some("light") then "dark" else "light"
  }

  lemma ThemeToggleTwice(theme: string)
    requires theme == "light" || theme == "dark"
    ensures NextTheme(Some(NextTheme(Some(theme)))) == theme
  {
  }

  class Header {
    var isSummaryOpen: bool
    var summary: string
    var isLoading: bool
    var toasts: seq<Toast>

    constructor()
      ensures !isSummaryOpen && summary == "" && !isLoading && toasts == []
    {
      isSummaryOpen := false;
      summary := "";
      isLoading := false;
      toasts := [];
    }

    /** `handleGetSummary` up to the server call: loading starts and the old
        summary is cleared; with no task on the board a toast is shown, loading
        ends and no request is made; otherwise the request carries the completed
        and the incomplete texts, Monday first. */
    method BeginSummary(tasks: DayTasks) returns (request: Option<SummaryRequest>)
      requires IsTotal(tasks)
      modifies this`isLoading, this`summary, this`toasts
      ensures summary == ""
      ensures request.None? <==> Tasks.Flatten(tasks) == []
      ensures request.None? ==> !isLoading && toasts == old(toasts) + [NoTasksToast]
      ensures request.Some? ==>
                isLoading && toasts == old(toasts) &&
                request.value == SummaryRequest(CompletedTexts(Tasks.Flatten(tasks)), IncompleteTexts(Tasks.Flatten(tasks)))
    {
      isLoading := true;
      summary := "";
      var allTasks := Tasks.Flatten(tasks);
      var completedTasks := CompletedTexts(allTasks);
      var incompleteTasks := IncompleteTexts(allTasks);
      PartitionCounts(allTasks);
      if |completedTasks| == 0 && |incompleteTasks| == 0 {
        toasts := toasts + [NoTasksToast];
        isLoading := false;
        return None;
      }
      request := Some(SummaryRequest(completedTasks, incompleteTasks));
    }

    /** `handleGetSummary` after the server call: a summary is shown in the
        dialog, an error is shown as a toast, and loading ends either way. */
    method FinishSummary(result: ActionResult<string>)
      modifies this`isLoading, this`summary, this`isSummaryOpen, this`toasts
      ensures !isLoading
      ensures result.Succeeded? ==> summary == result.data && isSummaryOpen && toasts == old(toasts)
      ensures result.Failed? ==>
                summary == old(summary) && isSummaryOpen == old(isSummaryOpen) &&
                toasts == old(toasts) + [Toast("Error", result.error, true)]
    {
      match result {
        case Succeeded(text) =>
          summary := text;
          isSummaryOpen := true;
        case Failed(error) =>
          toasts := toasts + [Toast("Error", error, true)];
      }
      isLoading := false;
    }
  }
}
