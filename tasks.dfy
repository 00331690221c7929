/**
  A task as the store sees it. The Todo, Event and Deadline classes are not
  part of this model, so their display format is not invented here: a task
  carries the two renderings its toString() can produce (not done and done)
  as opaque strings, and its display is the one its completion flag selects.
 */
module Tasks {
  import opened Strings

  /** Which constructor built the task: `new Todo(s)`, `new Event(s)` or `new Deadline(s)`. */
  datatype Kind = TodoTask | EventTask | DeadlineTask

  datatype Task = Task(
    kind: Kind,
    description: string,  // what getTask() returns, the text find searches
    completed: bool,
    openView: string,      // toString() while not completed
    doneView: string       // toString() once completed
  )

  /** Task.toString(). */
  function Display(t: Task): string
  {
    if t.completed then t.doneView else t.openView
  }

  /** Task.complete() and Task.uncomplete(): set the flag, keep everything else. */
  function WithCompletion(t: Task, done: bool): (r: Task)
    ensures r.completed == done
    ensures r.kind == t.kind && r.description == t.description
    ensures r.openView == t.openView && r.doneView == t.doneView
  {
    t.(completed := done)
  }

  /** The test find applies: the description contains the keyword, case-sensitively. */
  predicate Matches(t: Task, keyword: string)
  {
    Contains(t.description, keyword)
  }
}
