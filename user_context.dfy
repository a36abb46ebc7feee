/**
 * The user context of contexts/user-context.tsx: the signed-in user's display record, the
 * partial update `updateUser` applies to it, and the guard of `useUser`.
 */
module UserContext {
  import opened Common

  datatype User = User(name: string, email: string, avatar: Option<string>)

  /** `Partial<User>`: each member may be left out; a present `avatar` may be `null`. */
  datatype UserPatch = UserPatch(name: Option<string>, email: Option<string>, avatar: Option<Option<string>>)

  /** The user the provider starts with. */
  const InitialUser := User("Odilon Hema", "dummy@mail.com", None)

  const NoPatch := UserPatch(None, None, None)

  /** `{ ...prevUser, ...newUserData }`: members present in the patch replace the user's,
      the others are kept. */
  function Merge(u: User, p: UserPatch): (r: User)
    ensures p.name.Some? ==> r.name == p.name.value
    ensures p.name.None? ==> r.name == u.name
    ensures p.email.Some? ==> r.email == p.email.value
    ensures p.email.None? ==> r.email == u.email
    ensures p.avatar.Some? ==> r.avatar == p.avatar.value
    ensures p.avatar.None? ==> r.avatar == u.avatar
  {
    User(p.name.GetOr(u.name), p.email.GetOr(u.email), p.avatar.GetOr(u.avatar))
  }

  /** `{ ...p, ...q }` on two patches: what either sets, `q` winning where both do. */
  function Combine(p: UserPatch, q: UserPatch): (r: UserPatch)
    ensures r.name.None? <==> p.name.None? && q.name.None?
    ensures r.email.None? <==> p.email.None? && q.email.None?
    ensures r.avatar.None? <==> p.avatar.None? && q.avatar.None?
  {
    UserPatch(if q.name.Some? then q.name else p.name,
              if q.email.Some? then q.email else p.email,
              if q.avatar.Some? then q.avatar else p.avatar)
  }

  /** An empty patch changes nothing, and applying a patch twice is applying it once. */
  lemma MergeEmptyAndIdempotent(u: User, p: UserPatch)
    ensures Merge(u, NoPatch) == u
    ensures Merge(Merge(u, p), p) == Merge(u, p)
  {
  }

  /** Two updates in a row are one update with the combined patch. */
  lemma MergeComposes(u: User, p: UserPatch, q: UserPatch)
    ensures Merge(Merge(u, p), q) == Merge(u, Combine(p, q))
  {
  }

  /** A patch that sets every member gives the same user whatever the user was before. */
  lemma FullPatchReplaces(u: User, v: User, n: string, e: string, a: Option<string>)
    ensures Merge(u, UserPatch(Some(n), Some(e), Some(a))) == Merge(v, UserPatch(Some(n), Some(e), Some(a))) == User(n, e, a)
  {
  }

  const OutsideProvider := "useUser must be used within a UserProvider"

  /** `useUser`: the context's user, or the error it throws outside a provider. */
  function UseUser(context: Option<User>): (r: Result<User, string>)
    ensures r.Ok? <==> context.Some?
    ensures r.Ok? ==> r.value == context.value
    ensures r.Err? ==> r.error == OutsideProvider
  {
    match context
    case Some(u) => Ok(u)
    case None => Err(OutsideProvider)
  }
}
