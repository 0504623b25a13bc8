/** The profile page's pure helpers: the error text shown after a failed update and the check of
    the form before an update is sent. The avatar initials are `Dashboard.Initials`. */
module Profile {

  import opened Wrappers
  import opened Strings
  import opened Api
  import opened Dashboard

  /** A thrown value: an `Error` with its message, or anything else. */
  datatype Thrown = ErrorValue(message: string) | OtherValue

  const UpdateFailed := "Failed to update profile"
  const FieldsRequired := "Name and username are required."

  /** `getErrorMessage(error)`: the message of an `Error` when it is not empty, and the fixed
      text otherwise. */
  function ErrorMessage(error: Thrown): (r: string)
    ensures r != ""
    ensures error.ErrorValue? && error.message != "" ==> r == error.message
    ensures !(error.ErrorValue? && error.message != "") ==> r == UpdateFailed
  {
    if error.ErrorValue? && error.message != "" then error.message else UpdateFailed
  }

  /** A failed update whose response carries a detail shows that detail; one without shows
      the client's "Request failed". */
  lemma ErrorMessageOfResponse<J>(res: Response<J>)
    requires !Ok(res.status)
    ensures var detail := if res.body.Some? then res.body.value.detail else None;
      ErrorMessage(ErrorValue(HandleResponse(res).message))
        == if detail.Some? && detail.value != "" then detail.value else RequestFailed
  {
  }

  /** The values of the form's two fields. */
  datatype ProfileForm = ProfileForm(name: string, username: string)

  /** The payload of `updateProfile`. */
  datatype ProfileUpdate = ProfileUpdate(name: string, username: string)

  /** What `handleProfileSave` does: refuse with an error, or send an update. */
  datatype SaveDecision = Refused(error: string) | Send(update: ProfileUpdate)

  /** `handleProfileSave`'s check: a form with a blank name or username is refused with the fixed
      error and nothing is sent; otherwise the trimmed values are sent. */
  function ProfileSave(form: ProfileForm): (r: SaveDecision)
    ensures r.Refused? <==> AllSpace(form.name) || AllSpace(form.username)
    ensures r.Refused? ==> r.error == FieldsRequired
    ensures r.Send? ==> r.update.name == Trim(form.name) && r.update.username == Trim(form.username)
    ensures r.Send? ==> r.update.name != "" && r.update.username != ""
  {
    if Trim(form.name) == "" || Trim(form.username) == "" then Refused(FieldsRequired)
    else Send(ProfileUpdate(Trim(form.name), Trim(form.username)))
  }

  /** Saving a form filled with the values just sent sends them again unchanged. */
  lemma ProfileSaveStable(form: ProfileForm)
    requires ProfileSave(form).Send?
    ensures var u := ProfileSave(form).update; ProfileSave(ProfileForm(u.name, u.username)) == Send(u)
  {
    TrimIdempotent(form.name);
    TrimIdempotent(form.username);
  }

  /** A first and a last name give the initials of both. */
  lemma InitialsOfFullName(first: string, last: string)
    requires first != "" && last != ""
    requires ' ' !in first && ' ' !in last
    ensures Initials(Some(first + " " + last)) == [UpperChar(first[0]), UpperChar(last[0])]
  {
    SplitAtFirst(first, ' ', last);
    SplitWithout(last, ' ');
    assert Split(first + " " + last, ' ') == [first, last];
    FirstLettersOfSplit(first + " " + last);
    assert [last][1..] == [];
    assert FirstLetters([first, last]) == [UpperChar(first[0]), UpperChar(last[0])];
  }
}
