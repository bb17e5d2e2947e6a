/** The scheduling fields of a task, fixt/fixt_task.h and fixt/fixt_task.c. */
module Tasks {

  const INT_MAX := 2147483647

  /**
   c: quanta of work per job, p: period, d: relative deadline, a: quanta the current job has
   run, r: quanta until the task is ready (negative while a released job waits).
   */
  datatype Task = Task(c: int, p: int, d: int, a: int, r: int) {

    function CompletionTime(): int {
      c - a
    }

    function RemainingTime(): int {
      d + r
    }

    predicate AlreadyExecuting() {
      a > 0
    }

    /** Every run from scratch starts with no accumulated time and a ready task. */
    function Reset(): Task {
      this.(a := 0, r := 0)
    }

    /** The parameters the fixture registers tasks with. */
    predicate WellFormed() {
      1 <= c <= d <= p <= INT_MAX
    }

    predicate SameParameters(t: Task) {
      c == t.c && p == t.p && d == t.d
    }
  }

  predicate TaskSet(ts: seq<Task>) {
    && ts != []
    && forall i :: 0 <= i < |ts| ==> ts[i].WellFormed()
  }
}
