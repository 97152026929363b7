/** The sign-up page (src/app/register/page.tsx): the form, the request it
    sends and the success or error message it shows afterwards. */
module RegisterPage {

  import opened Interfaces
  import opened Text
  import opened Endpoints
  import ApiClient

  const Welcome: string := "Registration successful. You can sign in now."
  const Friendly: string := "Registration failed. Please check your information or try a different email."
  const Generic: string := "Registration failed"

  /** The form inputs, named as the page names them. */
  datatype Field = Name | Email | Tel | Password | RoleChoice

  /** How the registration request ended: it succeeded, or threw an `Error`
      with a message, or threw something else. */
  datatype Settled = Registered | ThrewError(message: string) | ThrewOther

  const InitialForm: RegisterPayload := RegisterPayload("", "", "", "", "member")

  function WithField(form: RegisterPayload, field: Field, value: string): (r: RegisterPayload)
    ensures r.name == (if field == Name then value else form.name)
    ensures r.email == (if field == Email then value else form.email)
    ensures r.tel == (if field == Tel then value else form.tel)
    ensures r.password == (if field == Password then value else form.password)
    ensures r.role == (if field == RoleChoice then value else form.role)
  {
    match field
    case Name => form.(name := value)
    case Email => form.(email := value)
    case Tel => form.(tel := value)
    case Password => form.(password := value)
    case RoleChoice => form.(role := value)
  }

  lemma GenericNotRejection()
    ensures !Contains(Generic, "Request rejected")
  {
    forall i | 0 <= i <= |Generic| - 16
      ensures !OccursAt(Generic, "Request rejected", i)
    {
      assert Generic[i..i + 16][0] == Generic[i];
      assert Generic[i..i + 16][2] == Generic[i + 2];
    }
  }

  /** The error shown for a failed registration: a server rejection without a
      reason is replaced by friendlier advice. */
  function ShownError(s: Settled): (m: string)
    requires !s.Registered?
    ensures s.ThrewOther? ==> m == Generic
    ensures s.ThrewError? && Contains(s.message, "Request rejected") ==> m == Friendly
    ensures s.ThrewError? && !Contains(s.message, "Request rejected") ==> m == s.message
  {
    var message := if s.ThrewError? then s.message else Generic;
    GenericNotRejection();
    if Contains(message, "Request rejected") then Friendly else message
  }

  /** A bare `success: false` answer from the server reaches the visitor as the
      friendly advice, not as the API client's generic notice. */
  lemma BareRejectionIsReworded(status: nat, statusText: string)
    requires !ApiClient.IsOk(status)
    ensures var r := ApiClient.Response(status, statusText, Some(ApiClient.Body(None, None, None, Some(false))));
      ShownError(ThrewError(ApiClient.Outcome(r).message)) == Friendly
  {
    assert OccursAt(ApiClient.Rejected, "Request rejected", 0);
  }

  class Page {
    var form: RegisterPayload
    var success: Option<string>
    var error: Option<string>

    constructor()
      ensures form == InitialForm && success == None && error == None
    {
      form := InitialForm;
      success := None;
      error := None;
    }

    method Change(field: Field, value: string)
      modifies this`form
      ensures form == WithField(old(form), field, value)
    {
      form := WithField(form, field, value);
    }

    /** Submitting clears both messages and sends the form as it stands,
        without a token. */
    method Submit() returns (sent: Request)
      modifies this`success, this`error
      ensures success == None && error == None
      ensures sent == RegisterUser(form)
      ensures SkipsAuth(sent)
    {
      success := None;
      error := None;
      sent := RegisterUser(form);
    }

    method Settle(outcome: Settled)
      modifies this`success, this`error
      ensures outcome.Registered? ==> success == Some(Welcome) && error == old(error)
      ensures !outcome.Registered? ==> error == Some(ShownError(outcome)) && success == old(success)
    {
      if outcome.Registered? {
        success := Some(Welcome);
      } else {
        error := Some(ShownError(outcome));
      }
    }
  }
}
