/** `executeWithStatus`, sample.go:465-477. */
module Executor {
  import opened Wrappers
  import opened Status
  import opened Cloud

  /**
   * Runs one remote operation exactly once and hands back its response and
   * error unchanged; reports SUCCESS exactly when there is no error and the
   * status is 200, and otherwise FAILED with the failure detail.
   */
  method ExecuteWithStatus(env: Environment, c: Call) returns (response: Response, err: Option<string>)
    requires env.Valid() && ThroughExecutor(c)
    modifies env
    ensures env.Valid()
    ensures env.calls == old(env.calls) + [c]
    ensures Reply(response, err) == env.reply(c)
    ensures env.reports == old(env.reports) + [ExecutorReport(Reply(response, err))]
  {
    NarrationAppend(env.calls, c, env.reply);
    response, err := env.Invoke(c);
    if Succeeded(Reply(response, err)) {
      env.Write(Success);
    } else {
      var detail := GetFailureStatus(err, response);
      env.Write(Failure(detail));
    }
  }
}
