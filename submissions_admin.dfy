/** The admin panel's list of join submissions: the status filter, the status colours and
    the per-row status selector. */
module SubmissionsAdmin {
  import opened Wrappers
  import opened Json
  import Lists
  import JsNumbers

  /** The filter callback `sub => sub.status === filterStatus`. */
  function HasStatus(filterStatus: string): Record -> bool
  {
    sub => "status" in sub && sub["status"] == Str(filterStatus)
  }

  /** `filteredSubmissions`: `"all"` shows every submission; any other value shows exactly the
      submissions with that status, in their original order. */
  function Filtered(subs: seq<Record>, filterStatus: string): (r: seq<Record>)
    ensures filterStatus == "all" ==> r == subs
    ensures filterStatus != "all" ==>
              (forall k :: 0 <= k < |r| ==> r[k] in subs && HasStatus(filterStatus)(r[k]))
              && (forall x :: HasStatus(filterStatus)(x) ==> multiset(r)[x] == multiset(subs)[x])
    ensures Lists.IsSubsequence(r, subs) && |r| <= |subs|
  {
    if filterStatus == "all" then
      Lists.SubsequenceOfSelf(subs);
      subs
    else
      Lists.FilterIsSubsequence(subs, HasStatus(filterStatus));
      forall x | HasStatus(filterStatus)(x)
        ensures multiset(Lists.Filter(subs, HasStatus(filterStatus)))[x] == multiset(subs)[x]
      {
        Lists.FilterCount(subs, HasStatus(filterStatus), x);
      }
      Lists.Filter(subs, HasStatus(filterStatus))
  }

  /** The badge colours (the CSS classes themselves are not modelled). */
  datatype Color = Yellow | Green | Red | Gray

  /** `getStatusColor(sub.status)`; `None` is a missing status. */
  function StatusColor(status: Option<Value>): (c: Color)
    ensures c == Yellow <==> status == Some(Str("pending"))
    ensures c == Green <==> status == Some(Str("approved"))
    ensures c == Red <==> status == Some(Str("rejected"))
  {
    match status
    case Some(Str(s)) =>
      if s == "pending" then Yellow
      else if s == "approved" then Green
      else if s == "rejected" then Red
      else Gray
    case _ => Gray
  }

  /** The choices of the per-row status selector. */
  const StatusOptions: seq<string> := ["pending", "approved", "rejected"]

  /** Every status the selector can set has a colour of its own; anything else is gray. */
  lemma SelectableStatusesAreColoured()
    ensures forall i, j :: 0 <= i < j < |StatusOptions| ==>
              StatusColor(Some(Str(StatusOptions[i]))) != StatusColor(Some(Str(StatusOptions[j])))
    ensures forall i :: 0 <= i < |StatusOptions| ==> StatusColor(Some(Str(StatusOptions[i]))) != Gray
  {
  }

  /** The text of `${v}`, as it appears in a URL. */
  function PathText(v: Value): (text: string)
    ensures v.Num? ==> JsNumbers.ParseInt(text) == Some(v.n)
    decreases v, 1
  {
    match v
    case Null => "null"
    case Bool(b) => if b then "true" else "false"
    case Num(n) => JsNumbers.ParseIntRoundTrip(n); JsNumbers.IntToString(n)
    case Str(s) => s
    case Arr(items) => JoinTexts(v, items)
    case Obj(_) => "[object Object]"
  }

  /** `items.join(",")` for the items of `whole`, where `null` elements give empty text. */
  function JoinTexts(whole: Value, items: seq<Value>): string
    requires forall i :: 0 <= i < |items| ==> items[i] < whole
    decreases whole, 0, |items|
  {
    if items == [] then ""
    else
      var first := if items[0].Null? then "" else PathText(items[0]);
      if |items| == 1 then first else first + "," + JoinTexts(whole, items[1..])
  }

  /** `handleStatusChange(sub.id, choice)`: the path parameter and body of the
      `PUT /api/join-submissions/:id/status` request it sends. */
  function StatusRequest(id: Value, choice: string): (req: (string, Record))
    ensures req.1 == map["status" := Str(choice)]
    ensures id.Num? ==> JsNumbers.ParseInt(req.0) == Some(id.n)
  {
    if id.Num? then JsNumbers.ParseIntRoundTrip(id.n); (PathText(id), map["status" := Str(choice)])
    else (PathText(id), map["status" := Str(choice)])
  }
}
