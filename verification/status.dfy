/**
 * What one remote operation yields, the success test of `executeWithStatus`
 * and the failure detail it writes (`getFailureStatus`), sample.go:465-494.
 */
module Status {
  import opened Wrappers
  import opened Text

  /**
   * An `autorest.Response`: the `*http.Response` it embeds may be nil; when
   * present it carries a status code and a status text.
   */
  datatype Response = NoResponse | HttpResponse(statusCode: int, status: string)

  /** The `(response, err)` pair of one remote operation; an error is its message. */
  datatype Reply = Reply(response: Response, err: Option<string>)

  /** `http.StatusOK` */
  const StatusOK := 200

  /**
   * `executeWithStatus` reads `response.StatusCode` whenever `err` is nil,
   * which dereferences the embedded response: a reply it can inspect without
   * a nil dereference.
   */
  predicate Inspectable(r: Reply) {
    r.err.Some? || r.response.HttpResponse?
  }

  /** The success test `nil == err && http.StatusOK == response.StatusCode`. */
  predicate Succeeded(r: Reply) {
    r.err.None? && r.response.HttpResponse? && r.response.statusCode == StatusOK
  }

  /** What the executor writes after the operation: SUCCESS, or FAILED and a detail. */
  datatype Report = Success | Failure(detail: string)

  const StatusCodeLabel := "\tStatus Code: "
  const ErrorLabel := "\tError: "
  const UnknownError := "An unknown error occurred.\n"

  /** The block written for a present response: its status code and status text. */
  function StatusBlock(resp: Response): string {
    match resp
    case NoResponse => ""
    case HttpResponse(code, status) => StatusCodeLabel + IntDecimal(code) + "\n\tStatus: " + status + "\n"
  }

  /** The line written for a non-nil error. */
  function ErrorLine(err: Option<string>): string {
    match err
    case None => ""
    case Some(e) => ErrorLabel + e + "\n"
  }

  /**
   * The failure detail: the status block when there is a response, then the
   * error line when there is an error, and the fallback text when neither.
   */
  function FailureStatus(err: Option<string>, resp: Response): (r: string)
    ensures |r| > 0
  {
    var text := StatusBlock(resp) + ErrorLine(err);
    if text == "" then UnknownError else text
  }

  /**
   * The shape of the failure detail: the status block comes first and is
   * there exactly when a response is, and alone when there is no error; the
   * error line comes last whenever there is an error, stands alone when
   * there is no response, and opens the detail exactly when there is an error
   * and no response; the fallback text stands alone, exactly when both are
   * absent.
   */
  lemma FailureStatusShape(err: Option<string>, resp: Response)
    ensures var r := FailureStatus(err, resp);
      && (r == UnknownError <==> resp.NoResponse? && err.None?)
      && (resp.HttpResponse? ==> StatusBlock(resp) <= r)
      && (resp.HttpResponse? && err.None? ==> r == StatusBlock(resp))
      && (resp.NoResponse? && err.Some? ==> r == ErrorLine(err))
      && (err.Some? ==> |ErrorLine(err)| <= |r| && r[|r| - |ErrorLine(err)|..] == ErrorLine(err))
      && (StatusCodeLabel <= r <==> resp.HttpResponse?)
      && (resp.NoResponse? ==> (ErrorLabel <= r <==> err.Some?))
  {
    var block, line := StatusBlock(resp), ErrorLine(err);
    var r := FailureStatus(err, resp);
    assert UnknownError[0] == 'A';
    assert StatusCodeLabel[0] == '\t' && StatusCodeLabel[1] == 'S';
    assert ErrorLabel[0] == '\t' && ErrorLabel[1] == 'E';
    if resp.HttpResponse? {
      assert block[..|StatusCodeLabel|] == StatusCodeLabel;
      assert r == block + line && r[0] == '\t';
    } else if err.Some? {
      assert r == line && line[..|ErrorLabel|] == ErrorLabel;
      assert r[1] == 'E';
    } else {
      assert r == UnknownError;
    }
  }

  /** `getFailureStatus`: builds the detail piece by piece. */
  method GetFailureStatus(err: Option<string>, resp: Response) returns (retval: string)
    ensures retval == FailureStatus(err, resp)
  {
    retval := "";
    if resp.HttpResponse? {
      retval := retval + StatusBlock(resp);
    }
    assert retval == StatusBlock(resp);
    if err.Some? {
      retval := retval + ErrorLine(err);
    }
    assert retval == StatusBlock(resp) + ErrorLine(err);
    if retval == "" {
      retval := UnknownError;
    }
  }

  /** The report the executor writes for a reply. */
  function ExecutorReport(r: Reply): (report: Report)
    ensures report.Failure? ==> |report.detail| > 0
  {
    if Succeeded(r) then Success else Failure(FailureStatus(r.err, r.response))
  }
}
