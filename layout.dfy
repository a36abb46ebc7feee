/**
 * The root layout of app/_layout.tsx: where the route guard sends the user, when the
 * session refresh is started, and which connectivity banner is shown.
 *
 * `devBypass` stands for the build flag the layout reads as `DEV_AUTH_BYPASS`, and
 * `segment` for the first route segment, which may be missing.
 */
module Layout {
  import opened Common

  datatype Route = LoginPage | TabsHome

  /** The first segment of a route's path. */
  function SegmentOf(r: Route): string {
    match r
    case LoginPage => "login"
    case TabsHome => "(tabs)"
  }

  /** The segments that need a signed-in user. */
  predicate InAuthGroup(segment: Option<string>) {
    segment == Some("(tabs)") || segment == Some("modal")
  }

  /** The route guard: nothing while the session is loading or with the bypass on; a user who
      is not signed in is sent from the protected segments to the login page, and a signed-in
      user from the login page to the tabs. */
  function Redirect(isLoading: bool, devBypass: bool, isAuthenticated: bool, segment: Option<string>): (r: Option<Route>)
    ensures r == Some(LoginPage) <==> !isLoading && !devBypass && !isAuthenticated && InAuthGroup(segment)
    ensures r == Some(TabsHome) <==> !isLoading && !devBypass && isAuthenticated && segment == Some("login")
  {
    if isLoading || devBypass then None
    else if !isAuthenticated && InAuthGroup(segment) then Some(LoginPage)
    else if isAuthenticated && segment == Some("login") then Some(TabsHome)
    else None
  }

  /** Once the user is where the guard sent them, the guard sends them nowhere else. */
  lemma RedirectSettles(isLoading: bool, devBypass: bool, isAuthenticated: bool, segment: Option<string>)
    requires Redirect(isLoading, devBypass, isAuthenticated, segment).Some?
    ensures Redirect(isLoading, devBypass, isAuthenticated,
                     Some(SegmentOf(Redirect(isLoading, devBypass, isAuthenticated, segment).value))).None?
  {
  }

  /** The second effect: start `refreshAuth` on the tabs when loading is over and nobody is
      signed in, unless the bypass is on. */
  function ShouldRefresh(isLoading: bool, devBypass: bool, isAuthenticated: bool, segment: Option<string>): (b: bool)
    ensures b ==> !isLoading && !devBypass && !isAuthenticated
  {
    !devBypass && segment == Some("(tabs)") && !isLoading && !isAuthenticated
  }

  /** A refresh is only started where the guard also sends the user to the login page. */
  lemma RefreshOnlyWhenLeavingForLogin(isLoading: bool, devBypass: bool, isAuthenticated: bool, segment: Option<string>)
    ensures ShouldRefresh(isLoading, devBypass, isAuthenticated, segment) <==>
      Redirect(isLoading, devBypass, isAuthenticated, segment) == Some(LoginPage) && segment == Some("(tabs)")
  {
  }

  /** The offline banner: shown when offline, with the number of queued actions when there
      are any. */
  function OfflineBanner(isOnline: bool, pendingCount: int): (text: Option<string>)
    ensures text.Some? <==> !isOnline
    ensures text.Some? && pendingCount <= 0 ==> text.value == "Hors ligne "
    ensures text.Some? && pendingCount > 0 ==> |text.value| > 11 && text.value[..11] == "Hors ligne "
  {
    if isOnline then None
    else Some("Hors ligne " + (if pendingCount > 0 then "• " + IntToString(pendingCount) + " en attente" else ""))
  }

  /** The sync button: its icon and text. */
  datatype SyncButton = SyncButton(icon: string, text: string)

  /** The sync button: shown when online with queued actions; it says it is synchronising
      while a sync runs, and otherwise offers to synchronise the queued actions. */
  function SyncBanner(isOnline: bool, pendingCount: int, isSyncing: bool): (b: Option<SyncButton>)
    ensures b.Some? <==> isOnline && pendingCount > 0
    ensures b.Some? && isSyncing ==> b.value == SyncButton("sync", "Synchronisation...")
    ensures b.Some? && !isSyncing ==> b.value.icon == "sync-outline"
  {
    if isOnline && pendingCount > 0 then
      Some(if isSyncing then SyncButton("sync", "Synchronisation...")
           else SyncButton("sync-outline", "Synchroniser " + IntToString(pendingCount) + " action(s)"))
    else None
  }

  /** The two banners are never shown together, and one of them is shown exactly when the
      app is offline or has queued actions. */
  lemma BannersExclusive(isOnline: bool, pendingCount: int, isSyncing: bool)
    ensures !(OfflineBanner(isOnline, pendingCount).Some? && SyncBanner(isOnline, pendingCount, isSyncing).Some?)
    ensures OfflineBanner(isOnline, pendingCount).Some? || SyncBanner(isOnline, pendingCount, isSyncing).Some?
            <==> !isOnline || pendingCount > 0
  {
  }

  /** The count shown in either banner reads back as the number of queued actions. */
  lemma BannerCountReadsBack(isOnline: bool, pendingCount: nat, isSyncing: bool)
    requires pendingCount > 0
    ensures !isOnline ==> OfflineBanner(isOnline, pendingCount).value
                          == "Hors ligne • " + NatToString(pendingCount) + " en attente"
    ensures isOnline && !isSyncing ==> SyncBanner(isOnline, pendingCount, isSyncing).value.text
                                       == "Synchroniser " + NatToString(pendingCount) + " action(s)"
    ensures ParseNat(NatToString(pendingCount)) == pendingCount
  {
    ParseNatToString(pendingCount);
  }
}
