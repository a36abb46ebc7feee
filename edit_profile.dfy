/**
 * The profile editor of app/modal/edit-profile.tsx: loading the profile, the checks made
 * before saving, the PATCH request it sends, and when the save button is enabled.
 */
module EditProfile {
  import opened Common
  import Api

  /** The `avatar` member of a profile as the server sends it: left out, `null`, or a text. */
  datatype AvatarField = Missing | Null | Url(url: string)

  datatype UserProfile = UserProfile(id: string, name: string, email: string, roles: seq<string>, avatar: AvatarField)

  const ProfileUrl := "http://localhost:4000/users/profile"
  const SaveFailed := "Failed to update profile"

  const LoadFailed := Notice("Erreur", "Impossible de charger le profil")
  const Saved := Notice("Succès", "Profil mis à jour avec succès")

  /** `profile.avatar || null`: the avatar the screen keeps after loading; an absent, null or
      empty avatar becomes `null`. */
  function LoadedAvatar(p: UserProfile): (a: Option<string>)
    ensures a.Some? <==> p.avatar.Url? && p.avatar.url != ""
    ensures a.Some? ==> a.value == p.avatar.url
  {
    match p.avatar
    case Url(u) => if u != "" then Some(u) else None
    case _ => None
  }

  /** `getAuthHeaders`: always a JSON content type, and a bearer credential when the token
      store holds a non-empty access token. */
  function ProfileHeaders(accessToken: Option<string>): map<string, string> {
    var headers := map["Content-Type" := "application/json"];
    if accessToken.Some? && accessToken.value != "" then headers["Authorization" := "Bearer " + accessToken.value]
    else headers
  }

  /** The screen builds the same headers as the API layer does for a JSON request. */
  lemma ProfileHeadersAreAuthHeaders(accessToken: Option<string>)
    ensures ProfileHeaders(accessToken) == Api.AuthHeaders(true, accessToken)
    ensures "Content-Type" in ProfileHeaders(accessToken)
    ensures "Authorization" in ProfileHeaders(accessToken) <==> accessToken.Some? && accessToken.value != ""
  {
  }

  // ---------------------------------------------------------------------------
  // Validation and request
  // ---------------------------------------------------------------------------

  datatype ProfileError = EmptyName | InvalidEmail

  function ErrorNotice(e: ProfileError): Notice {
    match e
    case EmptyName => Notice("Erreur", "Le nom ne peut pas être vide")
    case InvalidEmail => Notice("Erreur", "Veuillez entrer un email valide")
  }

  /** The checks of `handleSave`: a name that is not blank, then an email that is not blank
      and contains `@`. */
  function CheckProfile(name: string, email: string): (r: Option<ProfileError>)
    ensures r == Some(EmptyName) <==> Trim(name) == ""
  {
    if Trim(name) == "" then Some(EmptyName)
    else if Trim(email) == "" || !Includes(email, "@") then Some(InvalidEmail)
    else None
  }

  /** A blank name is refused first; then an email that is blank or has no `@`; anything
      else passes. */
  lemma CheckProfileMeaning(name: string, email: string)
    ensures CheckProfile(name, email) == Some(EmptyName) <==> IsBlank(name)
    ensures CheckProfile(name, email) == Some(InvalidEmail) <==> !IsBlank(name) && (IsBlank(email) || !Includes(email, "@"))
    ensures CheckProfile(name, email).None? <==> !IsBlank(name) && !IsBlank(email) && Includes(email, "@")
  {
    TrimEmptyIffBlank(name);
    TrimEmptyIffBlank(email);
  }

  /** The `@` the check found in the email is still there once the email is trimmed, so the
      address sent contains it too. */
  lemma TrimmedEmailKeepsAt(email: string)
    requires Includes(email, "@")
    ensures Includes(Trim(email), "@")
  {
    var i :| OccursAt("@", email, i);
    assert email[i] == email[i..i + 1][0] == '@';
    NonSpaceSurvivesTrim(email, i);
    var j :| 0 <= j < |Trim(email)| && Trim(email)[j] == '@';
    CharOccurs(Trim(email), j);
  }

  lemma CharOccurs(s: string, j: int)
    requires 0 <= j < |s|
    ensures OccursAt([s[j]], s, j)
  {
    assert s[j..j + 1] == [s[j]];
  }

  /** The JSON body of the PATCH request. */
  datatype ProfileBody = ProfileBody(name: string, email: string, avatar: Option<string>)

  datatype ProfileRequest = ProfileRequest(httpMethod: Api.HttpMethod, url: string, headers: map<string, string>, body: ProfileBody)

  /** The request `handleSave` sends: a PATCH of the profile with the trimmed name and email
      and the current avatar. */
  function SaveRequest(name: string, email: string, avatar: Option<string>, accessToken: Option<string>): (q: ProfileRequest)
    ensures q.httpMethod == Api.PATCH && q.url == ProfileUrl
    ensures q.body.name == Trim(name) && q.body.email == Trim(email) && q.body.avatar == avatar
    ensures q.headers == ProfileHeaders(accessToken)
  {
    ProfileRequest(Api.PATCH, ProfileUrl, ProfileHeaders(accessToken), ProfileBody(Trim(name), Trim(email), avatar))
  }

  /** The alert after the request: success, or the error thrown — the server's `error` or
      "Failed to update profile" for a refused request, the transport error otherwise — with
      a generic text for an empty message. */
  function SaveNotice(response: Api.HttpOutcome<()>): (n: Notice)
    ensures response.Delivered? <==> n == Saved
    ensures response.Rejected? ==> n == Notice("Erreur", Api.ErrorMessage(response.serverError, SaveFailed))
    ensures response.Unreachable? ==>
      n == Notice("Erreur", if response.message != "" then response.message else "Impossible de mettre à jour le profil")
  {
    match Api.Reply(response, SaveFailed)
    case Ok(_) => Saved
    case Err(m) => Notice("Erreur", if m != "" then m else "Impossible de mettre à jour le profil")
  }

  // ---------------------------------------------------------------------------
  // hasChanges
  // ---------------------------------------------------------------------------

  /** `avatar !== originalProfile.avatar` with the strict equality of JavaScript: `null`
      equals only `null`, never an absent member. */
  predicate SameAvatar(current: Option<string>, original: AvatarField) {
    match original
    case Missing => false
    case Null => current.None?
    case Url(u) => current == Some(u)
  }

  /** `hasChanges` as written: it compares the kept avatar with the raw one. */
  function HasChangesAsWritten(original: Option<UserProfile>, name: string, email: string, avatar: Option<string>): (changed: bool)
    ensures original.None? ==> !changed
    ensures original.Some? && original.value.avatar.Missing? ==> changed
  {
    match original
    case None => false
    case Some(p) => name != p.name || email != p.email || !SameAvatar(avatar, p.avatar)
  }

  /** A profile whose avatar is absent or empty reports a change as soon as it is loaded,
      so the save button is enabled although nothing was edited. */
  lemma AsWrittenReportsChangeAfterLoad()
    ensures var p := UserProfile("u1", "Ada", "ada@example.com", [], Missing);
      HasChangesAsWritten(Some(p), p.name, p.email, LoadedAvatar(p))
  {
  }

  /** Right after loading, the rule as written reports a change exactly when the profile's
      avatar is absent or empty. */
  lemma AsWrittenAfterLoad(p: UserProfile)
    ensures HasChangesAsWritten(Some(p), p.name, p.email, LoadedAvatar(p))
            <==> p.avatar.Missing? || p.avatar == Url("")
  {
  }

  /** `hasChanges` comparing the avatar with the one the screen kept when loading. */
  function HasChanges(original: Option<UserProfile>, name: string, email: string, avatar: Option<string>): (changed: bool)
    ensures original.None? ==> !changed
    ensures original.Some? && name != original.value.name ==> changed
  {
    match original
    case None => false
    case Some(p) => name != p.name || email != p.email || avatar != LoadedAvatar(p)
  }

  /** Right after loading nothing has changed, and editing any field to a different value is
      a change. */
  lemma NoChangesAfterLoad(p: UserProfile, name: string, email: string, avatar: Option<string>)
    ensures !HasChanges(Some(p), p.name, p.email, LoadedAvatar(p))
    ensures name != p.name ==> HasChanges(Some(p), name, p.email, LoadedAvatar(p))
    ensures email != p.email ==> HasChanges(Some(p), p.name, email, LoadedAvatar(p))
    ensures avatar != LoadedAvatar(p) ==> HasChanges(Some(p), p.name, p.email, avatar)
  {
  }

  /** The two versions agree on every state exactly when the loaded avatar is already
      normalised (`null` or a non-empty text); otherwise they disagree right after loading. */
  lemma AsWrittenAgreesOnlyForNormalAvatars(p: UserProfile)
    ensures (p.avatar.Null? || (p.avatar.Url? && p.avatar.url != "")) ==>
      forall name, email, avatar :: HasChangesAsWritten(Some(p), name, email, avatar) == HasChanges(Some(p), name, email, avatar)
    ensures !(p.avatar.Null? || (p.avatar.Url? && p.avatar.url != "")) ==>
      HasChangesAsWritten(Some(p), p.name, p.email, LoadedAvatar(p)) != HasChanges(Some(p), p.name, p.email, LoadedAvatar(p))
  {
  }

  // ---------------------------------------------------------------------------
  // The screen
  // ---------------------------------------------------------------------------

  class EditProfileScreen {
    var isLoading: bool
    var isSaving: bool
    var name: string
    var email: string
    var avatar: Option<string>
    var originalProfile: Option<UserProfile>
    /** The last alert shown. */
    var alert: Option<Notice>

    /** A fresh screen: loading, empty fields, no avatar and no profile. */
    constructor ()
      ensures isLoading && !isSaving && name == "" && email == "" && avatar.None?
      ensures originalProfile.None? && alert.None?
    {
      isLoading, isSaving := true, false;
      name, email, avatar := "", "", None;
      originalProfile := None;
      alert := None;
    }

    /** Whether the save button is disabled in the current state, with `hasChanges` as
        written. */
    function SaveButtonDisabled(): (disabled: bool)
      reads this
      ensures !disabled <==> HasChangesAsWritten(originalProfile, name, email, avatar) && !isSaving
    {
      SaveDisabled(HasChangesAsWritten(originalProfile, name, email, avatar), isSaving)
    }

    /** `loadProfile`: a profile that arrived fills the form, its avatar normalised; a
        failed load shows an alert and changes nothing else. Loading is over either way. */
    method LoadProfile(fetched: Option<UserProfile>)
      modifies this
      ensures !isLoading && isSaving == old(isSaving)
      ensures fetched.Some? ==>
        && originalProfile == fetched
        && name == fetched.value.name && email == fetched.value.email
        && avatar == LoadedAvatar(fetched.value)
        && alert == old(alert)
        && (HasChangesAsWritten(originalProfile, name, email, avatar)
            <==> fetched.value.avatar.Missing? || fetched.value.avatar == Url(""))
        && !HasChanges(originalProfile, name, email, avatar)
      ensures fetched.None? ==>
        && alert == Some(LoadFailed)
        && originalProfile == old(originalProfile)
        && name == old(name) && email == old(email) && avatar == old(avatar)
    {
      isLoading := true;
      if fetched.Some? {
        var p := fetched.value;
        originalProfile := fetched;
        name := p.name;
        email := p.email;
        avatar := LoadedAvatar(p);
        AsWrittenAfterLoad(p);
      } else {
        alert := Some(LoadFailed);
      }
      isLoading := false;
    }

    /** `handleSave`: nothing is sent when a check fails, and the failing check is reported;
        otherwise the PATCH request is sent and its outcome reported. Saving is over
        afterwards either way; the form is left as it was. */
    method HandleSave(accessToken: Option<string>, response: Api.HttpOutcome<()>) returns (sent: Option<ProfileRequest>)
      modifies this`isSaving, this`alert
      ensures CheckProfile(name, email).Some? ==>
        sent.None? && alert == Some(ErrorNotice(CheckProfile(name, email).value)) && isSaving == old(isSaving)
      ensures CheckProfile(name, email).None? ==>
        && sent == Some(SaveRequest(name, email, avatar, accessToken))
        && alert == Some(SaveNotice(response))
        && !isSaving
    {
      var check := CheckProfile(name, email);
      if check.Some? {
        alert := Some(ErrorNotice(check.value));
        return None;
      }
      var request := SaveRequest(name, email, avatar, accessToken);
      isSaving := true;
      sent := Some(request);
      alert := Some(SaveNotice(response));
      isSaving := false;
    }
  }
}
