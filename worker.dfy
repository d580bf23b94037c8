/**
 * The worker branch of the daemon loop: the forked child executes one task,
 * sets its status, logs a failure, and either deletes or updates the task
 * according to the keep_completed / keep_failed settings, then exits.
 */
module Worker {

  datatype TaskStatus = Completed | Failed

  /** What happens to the task in the queue after it ran: exactly one of the two. */
  datatype Disposal = Delete | Update

  /**
   * The worker's observable effects: the status it gives the task, the
   * disposal, whether it logs the task's error message, and whether reading
   * that message clears it from the task (error_message(! keep_failed)).
   */
  datatype Result = Result(status: TaskStatus, disposal: Disposal, errorLogged: bool, messageCleared: bool)

  function StatusAfter(success: bool): TaskStatus
  {
    if success then Completed else Failed
  }

  /** The disposal condition of the worker branch. */
  predicate Discards(status: TaskStatus, keepCompleted: bool, keepFailed: bool)
  {
    (status == Completed && !keepCompleted) || (status == Failed && !keepFailed)
  }

  /**
   * One worker run, given whether execute() succeeded: the task is completed
   * exactly when it succeeded, and it is deleted exactly when its outcome is
   * one the configuration does not keep; otherwise it is updated.
   */
  function Finish(success: bool, keepCompleted: bool, keepFailed: bool): (r: Result)
    ensures r.status == Completed <==> success
    ensures r.disposal == Delete <==> (success && !keepCompleted) || (!success && !keepFailed)
    ensures r.disposal == Update <==> (success && keepCompleted) || (!success && keepFailed)
    ensures r.errorLogged <==> !success
    ensures r.messageCleared <==> !success && !keepFailed
    ensures r.messageCleared ==> r.errorLogged && r.disposal == Delete
  {
    var status := StatusAfter(success);
    var disposal := if Discards(status, keepCompleted, keepFailed) then Delete else Update;
    Result(status, disposal, !success, !success && !keepFailed)
  }

  /**
   * A failed task that the configuration keeps is persisted with its error
   * message still on it.
   */
  lemma KeptFailureKeepsMessage(keepCompleted: bool)
    ensures var r := Finish(false, keepCompleted, true);
      r.status == Failed && r.disposal == Update && r.errorLogged && !r.messageCleared
  {
  }
}
