/** The "Join" form: its fields, the interest checkboxes, and the record it submits. */
module JoinModal {
  import opened Json
  import Lists

  /** The form's state. `age` is the text of the number input. */
  datatype FormData = FormData(
    firstName: string, lastName: string, email: string, phone: string,
    age: string, location: string, interests: seq<string>, message: string)

  /** The initial (and post-submit) form: every field empty. */
  const EmptyForm := FormData("", "", "", "", "", "", [], "")

  /** The text fields that `handleInputChange` is called with. */
  datatype Field = FirstName | LastName | Email | Phone | Age | Location | Message

  function Get(form: FormData, f: Field): string
  {
    match f
    case FirstName => form.firstName
    case LastName => form.lastName
    case Email => form.email
    case Phone => form.phone
    case Age => form.age
    case Location => form.location
    case Message => form.message
  }

  /** `{ ...prev, [field]: value }` */
  function WithField(form: FormData, f: Field, value: string): (r: FormData)
    ensures Get(r, f) == value
    ensures forall g :: g != f ==> Get(r, g) == Get(form, g)
    ensures r.interests == form.interests
  {
    match f
    case FirstName => form.(firstName := value)
    case LastName => form.(lastName := value)
    case Email => form.(email := value)
    case Phone => form.(phone := value)
    case Age => form.(age := value)
    case Location => form.(location := value)
    case Message => form.(message := value)
  }

  /** The filter callback `i => i !== interest`. */
  function Other(interest: string): string -> bool
  {
    i => i != interest
  }

  /** `handleInterestToggle`: a listed interest is removed (every occurrence of it), an
      unlisted one is appended. Its checkbox flips and no other one changes: on removal
      the other interests stay in their order and with their counts. */
  function ToggleInterest(xs: seq<string>, x: string): (r: seq<string>)
    ensures x in r <==> x !in xs
    ensures forall y :: y != x ==> (y in r <==> y in xs)
    ensures x in xs ==> Lists.IsSubsequence(r, xs)
                        && forall y :: y != x ==> multiset(r)[y] == multiset(xs)[y]
    ensures x !in xs ==> |r| == |xs| + 1 && r[..|xs|] == xs && r[|xs|] == x
  {
    if x in xs then
      var kept := Lists.Filter(xs, Other(x));
      Lists.FilterIsSubsequence(xs, Other(x));
      forall y | y != x
        ensures multiset(kept)[y] == multiset(xs)[y] && (y in kept <==> y in xs)
      {
        Lists.FilterCount(xs, Other(x), y);
        assert y in kept <==> y in multiset(kept);
        assert y in xs <==> y in multiset(xs);
      }
      kept
    else xs + [x]
  }

  /** No interest is listed twice. */
  ghost predicate NoDuplicates(xs: seq<string>)
  {
    forall y :: multiset(xs)[y] <= 1
  }

  /** Toggling an unlisted interest on and off again restores the list. */
  lemma ToggleTwiceRestores(xs: seq<string>, x: string)
    requires x !in xs
    ensures ToggleInterest(ToggleInterest(xs, x), x) == xs
  {
    Lists.FilterAppend(xs, [x], Other(x));
    Lists.FilterKeepsAll(xs, Other(x));
    assert Lists.Filter([x], Other(x)) == [];
  }

  /** Toggling never lists an interest twice. */
  lemma ToggleKeepsNoDuplicates(xs: seq<string>, x: string)
    requires NoDuplicates(xs)
    ensures NoDuplicates(ToggleInterest(xs, x))
  {
    var r := ToggleInterest(xs, x);
    forall y ensures multiset(r)[y] <= 1 {
      if x in xs {
        Lists.FilterCount(xs, Other(x), y);
      } else {
        assert multiset(r) == multiset(xs) + multiset{x};
      }
    }
  }

  /** `interests` as a JSON array of strings. */
  function StrArray(xs: seq<string>): (r: seq<Value>)
    ensures |r| == |xs| && forall i :: 0 <= i < |xs| ==> r[i] == Str(xs[i])
  {
    if xs == [] then [] else [Str(xs[0])] + StrArray(xs[1..])
  }

  /** `submissionData`: the record sent to the backend. */
  function SubmissionBody(form: FormData): (r: Record)
    ensures r.Keys == {"name", "email", "phone", "age", "location", "interests", "message"}
    ensures r["name"] == Str(form.firstName + " " + form.lastName)
    ensures r["email"] == Str(form.email) && r["phone"] == Str(form.phone) && r["age"] == Str(form.age)
    ensures r["location"] == Str(form.location) && r["message"] == Str(form.message)
    ensures r["interests"] == Arr(StrArray(form.interests))
  {
    map["name" := Str(form.firstName + " " + form.lastName), "email" := Str(form.email),
        "phone" := Str(form.phone), "age" := Str(form.age), "location" := Str(form.location),
        "interests" := Arr(StrArray(form.interests)), "message" := Str(form.message)]
  }

  class JoinForm {
    var formData: FormData
    var isSubmitting: bool

    constructor ()
      ensures formData == EmptyForm && !isSubmitting
    {
      formData, isSubmitting := EmptyForm, false;
    }

    /** Whether the checkbox of `interest` is ticked. */
    predicate Checked(interest: string)
      reads this
    {
      interest in formData.interests
    }

    /** `handleInputChange(field, value)` */
    method InputChange(f: Field, value: string)
      modifies this`formData
      ensures formData == WithField(old(formData), f, value)
    {
      formData := WithField(formData, f, value);
    }

    /** A click on the checkbox of `interest`. */
    method InterestToggle(interest: string)
      modifies this`formData
      ensures formData == old(formData).(interests := ToggleInterest(old(formData).interests, interest))
      ensures Checked(interest) == !old(Checked(interest))
    {
      formData := formData.(interests := ToggleInterest(formData.interests, interest));
    }

    /** `handleSubmit`: `sent` is the record posted; `accepted` is whether the post
        succeeded. On success the form is emptied and the modal asked to close; on failure
        the form keeps what was typed. */
    method Submit(accepted: bool) returns (sent: Record, close: bool)
      modifies this
      ensures sent == SubmissionBody(old(formData))
      ensures close == accepted
      ensures formData == if accepted then EmptyForm else old(formData)
      ensures !isSubmitting
    {
      isSubmitting := true;
      sent := SubmissionBody(formData);
      if accepted {
        formData := EmptyForm;
      }
      close := accepted;
      isSubmitting := false;
    }
  }
}
