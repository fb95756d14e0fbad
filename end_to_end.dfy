/** What the frontend's requests do once they reach the backend. */
module EndToEnd {
  import opened Wrappers
  import opened Json
  import opened Store
  import JsNumbers
  import JoinModal
  import SubmissionsAdmin
  import StoreProperties

  /** Choosing a status in a submission's row selector sets exactly that submission's status:
      the id rendered into the URL parses back to the row's id, and the body carries the
      choice unchanged. */
  lemma StatusChangeUpdatesRow(rs: seq<Record>, k: nat, choice: string)
    requires k < |rs| && "id" in rs[k] && rs[k]["id"].Num?
    requires FindIndex(rs, Some(rs[k]["id"].n)) == k
    ensures var req := SubmissionsAdmin.StatusRequest(rs[k]["id"], choice);
            FindIndex(rs, JsNumbers.ParseInt(req.0)) == k
            && WithStatus(rs[k], StatusOf(req.1)) == rs[k]["status" := Str(choice)]
  {
    var req := SubmissionsAdmin.StatusRequest(rs[k]["id"], choice);
    assert StatusOf(req.1) == Some(Str(choice));
  }

  /** A join form that is submitted is stored as a pending submission holding the form's
      values under the server's id and timestamp; the `submissionDate` and `status` the
      client adds to the request make no difference. */
  lemma SubmittedFormIsStoredPending(form: JoinModal.FormData, clientClock: string, now: int, clock: string)
    ensures var body := JoinModal.SubmissionBody(form);
            var sent := Spread(body, map["submissionDate" := Str(clientClock), "status" := Str("pending")]);
            var stored := NewSubmission(sent, now, clock);
            stored == NewSubmission(body, now, clock)
            && stored.Keys == body.Keys + {"id", "submissionDate", "status"}
            && stored["status"] == Str("pending") && stored["submissionDate"] == Str(clock)
            && stored["name"] == Str(form.firstName + " " + form.lastName)
            && stored["interests"] == body["interests"]
  {
    var body := JoinModal.SubmissionBody(form);
    var sent := Spread(body, map["submissionDate" := Str(clientClock), "status" := Str("pending")]);
    assert "id" !in body && "submissionDate" !in body && "status" !in body;
    assert sent.Keys == body.Keys + {"submissionDate", "status"};
    assert sent - {"id", "submissionDate", "status"} == body;
    StoreProperties.SubmissionIgnoresAssignedFields(sent, body, now, clock);
    assert body - {"id", "submissionDate", "status"} == body;
  }
}
