/**
 * `validate` (apps/server/src/middlewares/validate.middleware.ts): the
 * result of `validationResult(req)` is an input; any error ends the request
 * with 400 and the formatted list.
 */
module ValidateMiddleware {
  import opened Wrappers
  import opened Envelope

  /**
   * One error reported by the validator: its `type` ("field" for a field
   * error), its `path` (meaningful for field errors only) and its `msg`.
   */
  datatype Issue = Issue(kind: string, path: string, msg: string)

  /** What `validate` does: call `next()`, or send one response. */
  datatype Outcome = Next | Responded(response: HttpResponse<()>)

  /** `{field, message}` of one issue. */
  function FormatIssue(issue: Issue): (e: FieldError)
    ensures e.message == issue.msg
    ensures e.field == if issue.kind == "field" then issue.path else "unknown"
  {
    FieldError(if issue.kind == "field" then issue.path else "unknown", issue.msg)
  }

  /** `errors.array().map(...)`: same length, same order. */
  function FormatIssues(issues: seq<Issue>): (r: seq<FieldError>)
    ensures |r| == |issues|
    ensures forall i :: 0 <= i < |issues| ==> r[i] == FormatIssue(issues[i])
  {
    if issues == [] then [] else [FormatIssue(issues[0])] + FormatIssues(issues[1..])
  }

  /** `validate(req, res, next)`. */
  function Validate(issues: seq<Issue>): (r: Outcome)
    ensures r.Next? <==> issues == []
    ensures r.Responded? ==>
      && r.response.status == 400
      && !r.response.body.success
      && r.response.body.message == "Validation failed"
      && r.response.body.errors == Some(FormatIssues(issues))
  {
    if issues != [] then Responded(HttpResponse(400, Error("Validation failed", Some(FormatIssues(issues)))))
    else Next
  }

  /** Formatting distributes over concatenation, so the order of the issues is kept. */
  lemma {:induction false} FormatIssuesAppend(a: seq<Issue>, b: seq<Issue>)
    ensures FormatIssues(a + b) == FormatIssues(a) + FormatIssues(b)
  {
    if a != [] {
      assert (a + b)[1..] == a[1..] + b;
      FormatIssuesAppend(a[1..], b);
    } else {
      assert a + b == b;
    }
  }
}
