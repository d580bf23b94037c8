/**
 * The PID file and the process probe behind status(), get_pid(), is_running()
 * and unlink_pid() of the daemon controller.
 *
 * The file is `None` when it does not exist and `Some(n)` when its contents are
 * the number n; get_pid() returns exactly that. The process table is the set
 * `running` of PIDs that have an entry under /proc.
 */
module PidFile {
  import opened Wrappers

  /** PHP truthiness of what get_pid() returns: FALSE and the number 0 are falsy. */
  predicate Truthy(pid: Option<int>)
  {
    pid.Some? && pid.value != 0
  }

  /** is_running(): a truthy PID whose /proc entry exists. */
  predicate IsRunning(pid: Option<int>, running: set<int>)
  {
    Truthy(pid) && pid.value in running
  }

  /** What status() returns, the PID file it leaves behind, and whether it reported an unclean shutdown. */
  datatype Report = Report(pid: Option<int>, file: Option<int>, unclean: bool)

  /**
   * status(): the PID recorded in the file when that process is running.
   * A file naming a process that is gone is an unclean shutdown: the file is
   * deleted and no PID is returned. Without a file nothing is deleted.
   */
  function Status(file: Option<int>, running: set<int>): (r: Report)
    ensures r.pid.Some? <==> file.Some? && file.value != 0 && file.value in running
    ensures r.pid.Some? ==> r.pid == file && r.file == file
    ensures r.unclean <==> file.Some? && file.value != 0 && file.value !in running
    ensures r.unclean ==> r.pid == None && r.file == None
    ensures !r.unclean ==> r.file == file
    ensures file == None ==> r == Report(None, None, false)
  {
    var pid := file;
    var run := IsRunning(pid, running);
    var stale := Truthy(pid) && !run;
    Report(if run then pid else None, if stale then None else file, stale)
  }

  /** Writing a live PID into the file and then asking status() gives that PID back, unchanged. */
  lemma WriteThenStatus(pid: int, running: set<int>)
    requires pid > 0 && pid in running
    ensures Status(Some(pid), running) == Report(Some(pid), Some(pid), false)
  {
  }

  /**
   * A second status() right after a first finds no stale file, deletes
   * nothing and agrees with the first; in particular, once no process is
   * running, every further call reports not-running.
   */
  lemma StatusSettles(file: Option<int>, running: set<int>)
    ensures var r := Status(file, running);
      Status(r.file, running) == Report(r.pid, r.file, false)
  {
  }
}
