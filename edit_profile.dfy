/** The profile editor: a name and an optional phone number, checked and saved together. */
module EditProfile {
  import opened Wrappers
  import opened Text
  import opened Entities
  import opened Phone

  /** The form's two fields. */
  datatype Form = Form(name: string, phone: string)

  /** The fields start as the profile's name and phone, or empty when the profile has none. */
  function InitialForm(profile: Option<Profile>): (f: Form)
    ensures profile.None? ==> f == Form("", "")
    ensures profile.Some? ==> f.name == profile.value.name.GetOr("") && f.phone == profile.value.phone.GetOr("")
  {
    match profile
    case None => Form("", "")
    case Some(p) => Form(p.name.GetOr(""), p.phone.GetOr(""))
  }

  /** Why a save is refused, or the profile update it sends: only the name and the phone. */
  datatype SaveOutcome = EmptyName | InvalidPhone | Update(name: string, phone: string)

  /** `handleSave`: the name must not be blank; a phone, when typed, must clean to eight digits. */
  function HandleSave(form: Form): (o: SaveOutcome)
    ensures o == EmptyName <==> IsBlank(form.name)
    ensures o == InvalidPhone <==> !IsBlank(form.name) && form.phone != "" && !IsValidNumber(CleanNumber(form.phone))
    ensures o.Update? ==> o.name == Trim(form.name) && o.phone == CleanNumber(form.phone)
    ensures o.Update? ==> o.name != "" && (o.phone == "" || IsValidNumber(o.phone))
  {
    if Trim(form.name) == [] then EmptyName
    else if form.phone != "" && !IsValidNumber(CleanNumber(form.phone)) then InvalidPhone
    else Update(Trim(form.name), CleanNumber(form.phone))
  }

  /** Saving the values just saved sends the same update again. */
  lemma SaveIdempotent(form: Form)
    requires HandleSave(form).Update?
    ensures var u := HandleSave(form);
            HandleSave(Form(u.name, u.phone)) == u
  {
    var u := HandleSave(form);
    TrimIdempotent(form.name);
    CleanIdempotent(form.phone);
    assert !IsBlank(u.name) by {
      assert u.name != [];
    }
  }

  /** A profile whose fields came from a save can be saved again unchanged. */
  lemma {:induction false} ReopenAndSave(p: Profile, form: Form)
    requires HandleSave(form).Update?
    requires p.name == Some(HandleSave(form).name) && p.phone == Some(HandleSave(form).phone)
    ensures HandleSave(InitialForm(Some(p))) == HandleSave(form)
  {
    SaveIdempotent(form);
  }
}
