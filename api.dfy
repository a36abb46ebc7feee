/**
 * The trip API client of services/api.ts.
 *
 * Every trip mutation first asks the offline module whether the device is
 * online. Online, it sends one HTTP request and hands back the server's reply
 * or an error. Offline, it appends an action to the offline queue and returns
 * an optimistic value. Reads go to the server when online and fall back to the
 * cached trip list (or the empty list) otherwise.
 *
 * The offline module's own code is not part of this model. `OfflineStore` holds
 * only the state that api.ts reads and writes through it: the connectivity
 * answer, the queue (where adding is taken to be an append) and the cached list.
 * HTTP replies, the access token and `Date.now()` are parameters.
 */
module Api {
  import opened Common

  /** The `Trip` interface a screen passes to `createTrip`. */
  datatype Trip = Trip(
    title: string,
    destination: string,
    startDate: string,
    endDate: string,
    description: string,
    image: Option<string>,
    photos: Option<seq<string>>)

  /** `Partial<Trip>`, the argument of `updateTrip`: every field may be absent. */
  datatype TripPatch = TripPatch(
    title: Option<string>,
    destination: Option<string>,
    startDate: Option<string>,
    endDate: Option<string>,
    description: Option<string>,
    image: Option<string>,
    photos: Option<seq<string>>)

  /** A trip as the backend lists it and as `createTrip` returns it: the fields plus an `id`. */
  datatype StoredTrip = StoredTrip(id: string, trip: Trip)

  /** What `updateTrip` returns: the server's reply, or `{ ...patch, id }` when offline. */
  datatype UpdatedTrip = FromServer(saved: StoredTrip) | Optimistic(id: string, patch: TripPatch)

  datatype HttpMethod = GET | POST | PUT | PATCH | DELETE

  /** The body of a request or of a queued action. */
  datatype Payload =
    | NoPayload
    | WholeTrip(trip: Trip)
    | PartialTrip(patch: TripPatch)
    | FilePart(uri: string, name: string, mimeType: string)

  /** One request handed to `fetch`, with the path relative to the backend's base URL. */
  datatype Request = Request(httpMethod: HttpMethod, path: string, headers: map<string, string>, body: Payload)

  /** How one `fetch` ended: a 2xx reply with its parsed body, a non-2xx reply with the
      `error` field of its JSON body if it had one, or an exception (network failure). */
  datatype HttpOutcome<T> = Delivered(body: T) | Rejected(serverError: Option<string>) | Unreachable(message: string)

  datatype ActionType = Create | Update | Delete

  /** The object `addToQueue` receives. */
  datatype QueuedAction = QueuedAction(kind: ActionType, endpoint: string, httpMethod: HttpMethod, payload: Payload)

  const CreateFailed := "Erreur création voyage"
  const UpdateFailed := "Erreur modification voyage"
  const DeleteFailed := "Erreur suppression voyage"
  const UploadFailed := "Error upload image"

  // ---------------------------------------------------------------------------
  // Headers, error messages, optimistic ids
  // ---------------------------------------------------------------------------

  /** `getAuthHeaders(includeContentType)`: a JSON content type when asked for, and a
      bearer credential exactly when the token store holds a non-empty access token. */
  function AuthHeaders(includeContentType: bool, accessToken: Option<string>): (h: map<string, string>)
    ensures h.Keys <= {"Content-Type", "Authorization"}
    ensures "Content-Type" in h <==> includeContentType
    ensures "Content-Type" in h ==> h["Content-Type"] == "application/json"
    ensures "Authorization" in h <==> accessToken.Some? && accessToken.value != ""
    ensures "Authorization" in h ==> h["Authorization"] == "Bearer " + accessToken.value
  {
    var base := if includeContentType then map["Content-Type" := "application/json"] else map[];
    if accessToken.Some? && accessToken.value != "" then base["Authorization" := "Bearer " + accessToken.value]
    else base
  }

  /** `errorData.error || fallback`: the server's message unless it is missing or empty. */
  function ErrorMessage(serverError: Option<string>, fallback: string): string {
    if serverError.Some? && serverError.value != "" then serverError.value else fallback
  }

  /** What an online call returns or throws, given how its `fetch` ended. */
  function Reply<T>(response: HttpOutcome<T>, fallback: string): (r: Result<T, string>)
    ensures r.Ok? <==> response.Delivered?
    ensures response.Delivered? ==> r == Ok(response.body)
    ensures response.Rejected? ==> r == Err(ErrorMessage(response.serverError, fallback))
    ensures response.Unreachable? ==> r == Err(response.message)
  {
    match response
    case Delivered(b) => Ok(b)
    case Rejected(e) => Err(ErrorMessage(e, fallback))
    case Unreachable(m) => Err(m)
  }

  /** The id of a trip created offline: `local-<Date.now()>`. */
  function LocalId(now: nat): string {
    "local-" + NatToString(now)
  }

  /** Two trips created offline at different instants get different ids. */
  lemma LocalIdInjective(t1: nat, t2: nat)
    requires LocalId(t1) == LocalId(t2)
    ensures t1 == t2
  {
    assert LocalId(t1)[6..] == NatToString(t1);
    assert LocalId(t2)[6..] == NatToString(t2);
    NatToStringInjective(t1, t2);
  }

  function TripPath(id: string): string {
    "/trips/" + id
  }

  // ---------------------------------------------------------------------------
  // uploadImage: file name and MIME type derived from the URI
  // ---------------------------------------------------------------------------

  /** The text after the last `sep` in `s` (all of `s` when `sep` does not occur). */
  function AfterLast(s: string, sep: char): (r: string)
    ensures |r| <= |s| && r == s[|s| - |r|..]
    ensures sep !in r
    ensures |r| < |s| ==> s[|s| - |r| - 1] == sep
  {
    if s == [] || s[|s| - 1] == sep then [] else AfterLast(s[..|s| - 1], sep) + [s[|s| - 1]]
  }

  /** `uri.split('/').pop() || 'photo.jpg'`. */
  function FileName(uri: string): (name: string)
    ensures name != [] && '/' !in name
    ensures AfterLast(uri, '/') != [] ==> name == AfterLast(uri, '/')
    ensures AfterLast(uri, '/') == [] ==> name == "photo.jpg"
  {
    var last := AfterLast(uri, '/');
    if last == [] then
      assert forall k :: 0 <= k < 9 ==> "photo.jpg"[k] != '/';
      "photo.jpg"
    else last
  }

  /** A character of the regular-expression class `\w`. */
  predicate IsWordChar(c: char) {
    'a' <= c <= 'z' || 'A' <= c <= 'Z' || '0' <= c <= '9' || c == '_'
  }

  predicate AllWord(s: string) {
    forall i :: 0 <= i < |s| ==> IsWordChar(s[i])
  }

  /** The regular expression `/\.(\w+)$/` matches `name` at index `i`. */
  predicate ExtensionMatchAt(name: string, i: int) {
    0 <= i < |name| - 1 && name[i] == '.' && AllWord(name[i + 1..])
  }

  /** When `sep` occurs at `i` and not after it, the text after the last `sep` starts at `i + 1`. */
  lemma {:induction false} AfterLastAt(s: string, sep: char, i: int)
    requires 0 <= i < |s| && s[i] == sep
    requires forall k :: i < k < |s| ==> s[k] != sep
    ensures AfterLast(s, sep) == s[i + 1..]
  {
    if i < |s| - 1 {
      AfterLastAt(s[..|s| - 1], sep, i);
      assert s[..|s| - 1][i + 1..] + [s[|s| - 1]] == s[i + 1..];
    }
  }

  /** The capture group of `/\.(\w+)$/.exec(name)`, if the expression matches. */
  function Extension(name: string): Option<string> {
    var e := AfterLast(name, '.');
    if |e| < |name| && e != [] && AllWord(e) then Some(e) else None
  }

  /** `Extension` agrees with the regular expression: it captures exactly the word
      characters after a dot that ends the name, and at most one index can match. */
  lemma ExtensionIsRegexMatch(name: string)
    ensures Extension(name).Some? <==> exists i :: ExtensionMatchAt(name, i)
    ensures forall i :: ExtensionMatchAt(name, i) ==> Extension(name) == Some(name[i + 1..])
  {
    var e := AfterLast(name, '.');
    forall i | ExtensionMatchAt(name, i) ensures Extension(name) == Some(name[i + 1..]) {
      ExtensionOfMatch(name, i);
    }
    if Extension(name).Some? {
      assert ExtensionMatchAt(name, |name| - |e| - 1);
    }
  }

  lemma ExtensionOfMatch(name: string, i: int)
    requires ExtensionMatchAt(name, i)
    ensures Extension(name) == Some(name[i + 1..])
  {
    forall k | i < k < |name| ensures name[k] != '.' {
      assert name[k] == name[i + 1..][k - i - 1];
    }
    AfterLastAt(name, '.', i);
  }

  /** The MIME type sent with the file: `image/<extension>`, or `image/jpeg` without one. */
  function MimeType(name: string): (t: string)
    ensures |t| > 6 && t[..6] == "image/"
    ensures Extension(name).Some? ==> t == "image/" + Extension(name).value
    ensures Extension(name).None? ==> t == "image/jpeg"
  {
    match Extension(name)
    case Some(e) => "image/" + e
    case None => "image/jpeg"
  }

  /** A name made of a base, a dot and a word-character extension keeps that extension. */
  lemma MimeTypeOfDottedName(base: string, ext: string)
    requires ext != [] && AllWord(ext)
    ensures MimeType(base + "." + ext) == "image/" + ext
  {
    var name := base + "." + ext;
    assert name[|base| + 1..] == ext;
    assert ExtensionMatchAt(name, |base|);
    ExtensionIsRegexMatch(name);
  }

  /** The multipart request `uploadImage(uri)` sends: no headers, one file field. */
  function UploadRequest(uri: string): (q: Request)
    ensures q.httpMethod == POST && q.path == "/uploads" && q.headers == map[]
    ensures q.body.FilePart? && q.body.uri == uri
    ensures q.body.name == FileName(uri) && q.body.mimeType == MimeType(FileName(uri))
  {
    var name := FileName(uri);
    Request(POST, "/uploads", map[], FilePart(uri, name, MimeType(name)))
  }

  /** `uploadImage`: the URL the server returns, or the upload error. */
  function UploadImage(uri: string, response: HttpOutcome<string>): (r: Result<string, string>)
    ensures r.Ok? <==> response.Delivered?
    ensures r.Ok? ==> r.value == response.body
    ensures response.Rejected? ==> r.error == ErrorMessage(response.serverError, UploadFailed)
    ensures response.Unreachable? ==> r == Err(response.message)
  {
    Reply(response, UploadFailed)
  }

  // ---------------------------------------------------------------------------
  // getTripById's search
  // ---------------------------------------------------------------------------

  /** `trips.find(trip => trip.id === id)`: the first trip with that id, if any. */
  function FindById(trips: seq<StoredTrip>, id: string): (r: Option<StoredTrip>)
    ensures r.None? <==> forall k :: 0 <= k < |trips| ==> trips[k].id != id
    ensures r.Some? ==> exists k :: 0 <= k < |trips| && trips[k] == r.value && r.value.id == id
                                    && forall j :: 0 <= j < k ==> trips[j].id != id
  {
    if trips == [] then None
    else if trips[0].id == id then
      assert trips[0] == trips[0];
      Some(trips[0])
    else
      var r := FindById(trips[1..], id);
      FindByIdShift(trips, id, r);
      r
  }

  lemma FindByIdShift(trips: seq<StoredTrip>, id: string, r: Option<StoredTrip>)
    requires trips != [] && trips[0].id != id
    requires r.None? <==> forall k :: 0 <= k < |trips| - 1 ==> trips[1..][k].id != id
    requires r.Some? ==> exists k :: 0 <= k < |trips| - 1 && trips[1..][k] == r.value && r.value.id == id
                                    && forall j :: 0 <= j < k ==> trips[1..][j].id != id
    ensures r.None? <==> forall k :: 0 <= k < |trips| ==> trips[k].id != id
    ensures r.Some? ==> exists k :: 0 <= k < |trips| && trips[k] == r.value && r.value.id == id
                                    && forall j :: 0 <= j < k ==> trips[j].id != id
  {
    if r.Some? {
      var k :| 0 <= k < |trips| - 1 && trips[1..][k] == r.value && r.value.id == id
               && forall j :: 0 <= j < k ==> trips[1..][j].id != id;
      assert trips[k + 1] == r.value;
      assert forall j :: 0 < j < k + 1 ==> trips[j] == trips[1..][j - 1];
    } else {
      assert forall k :: 0 < k < |trips| ==> trips[k] == trips[1..][k - 1];
    }
  }

  // ---------------------------------------------------------------------------
  // The offline module's state, as api.ts uses it
  // ---------------------------------------------------------------------------

  class OfflineStore {
    /** The answer `checkIsOnline()` gives. */
    var online: bool
    /** The pending actions, oldest first. */
    var queue: seq<QueuedAction>
    /** The trip list last saved by `cacheTrips`, if any. */
    var cache: Option<seq<StoredTrip>>

    constructor (online: bool, queue: seq<QueuedAction>, cache: Option<seq<StoredTrip>>)
      ensures this.online == online && this.queue == queue && this.cache == cache
    {
      this.online := online;
      this.queue := queue;
      this.cache := cache;
    }

    method CheckIsOnline() returns (b: bool)
      ensures b == online
    {
      b := online;
    }

    method AddToQueue(action: QueuedAction)
      modifies this`queue
      ensures queue == old(queue) + [action]
    {
      queue := queue + [action];
    }

    method CacheTrips(trips: seq<StoredTrip>)
      modifies this`cache
      ensures cache == Some(trips)
    {
      cache := Some(trips);
    }

    method GetCachedTrips() returns (c: Option<seq<StoredTrip>>)
      ensures c == cache
    {
      c := cache;
    }
  }

  // ---------------------------------------------------------------------------
  // The API calls
  // ---------------------------------------------------------------------------

  /** `createTrip`: online, POST the trip and return the server's record; offline, queue a
      CREATE and return the trip with a local id. The cache is never touched. */
  method CreateTrip(store: OfflineStore, trip: Trip, accessToken: Option<string>, now: nat,
                    response: HttpOutcome<StoredTrip>)
    returns (r: Result<StoredTrip, string>, sent: Option<Request>)
    modifies store`queue
    ensures store.cache == old(store.cache)
    ensures old(store.online) ==>
      && store.queue == old(store.queue)
      && sent == Some(Request(POST, "/trips", AuthHeaders(true, accessToken), WholeTrip(trip)))
      && r == Reply(response, CreateFailed)
    ensures !old(store.online) ==>
      && store.queue == old(store.queue) + [QueuedAction(Create, "/trips", POST, WholeTrip(trip))]
      && sent == None
      && r == Ok(StoredTrip(LocalId(now), trip))
  {
    var isOnline := store.CheckIsOnline();
    if isOnline {
      var headers := AuthHeaders(true, accessToken);
      sent := Some(Request(POST, "/trips", headers, WholeTrip(trip)));
      r := Reply(response, CreateFailed);
    } else {
      store.AddToQueue(QueuedAction(Create, "/trips", POST, WholeTrip(trip)));
      sent := None;
      r := Ok(StoredTrip(LocalId(now), trip));
    }
  }

  /** `updateTrip(id, patch)`: online, PUT the patch to `/trips/<id>`; offline, queue an
      UPDATE for that same path and echo the patch with its id. The id is used verbatim. */
  method UpdateTrip(store: OfflineStore, id: string, patch: TripPatch, accessToken: Option<string>,
                    response: HttpOutcome<StoredTrip>)
    returns (r: Result<UpdatedTrip, string>, sent: Option<Request>)
    modifies store`queue
    ensures store.cache == old(store.cache)
    ensures old(store.online) ==>
      && store.queue == old(store.queue)
      && sent == Some(Request(PUT, TripPath(id), AuthHeaders(true, accessToken), PartialTrip(patch)))
      && (r.Ok? <==> response.Delivered?)
      && (response.Delivered? ==> r == Ok(FromServer(response.body)))
      && (response.Rejected? ==> r == Err(ErrorMessage(response.serverError, UpdateFailed)))
      && (response.Unreachable? ==> r == Err(response.message))
    ensures !old(store.online) ==>
      && store.queue == old(store.queue) + [QueuedAction(Update, TripPath(id), PUT, PartialTrip(patch))]
      && sent == None
      && r == Ok(Optimistic(id, patch))
  {
    var isOnline := store.CheckIsOnline();
    if isOnline {
      var headers := AuthHeaders(true, accessToken);
      sent := Some(Request(PUT, TripPath(id), headers, PartialTrip(patch)));
      match Reply(response, UpdateFailed)
      case Ok(saved) => r := Ok(FromServer(saved));
      case Err(m) => r := Err(m);
    } else {
      store.AddToQueue(QueuedAction(Update, TripPath(id), PUT, PartialTrip(patch)));
      sent := None;
      r := Ok(Optimistic(id, patch));
    }
  }

  /** `deleteTrip(id)`: online, DELETE `/trips/<id>`; offline, queue a DELETE without payload.
      Success is `{ success: true }` either way. */
  method DeleteTrip(store: OfflineStore, id: string, accessToken: Option<string>, response: HttpOutcome<()>)
    returns (r: Result<(), string>, sent: Option<Request>)
    modifies store`queue
    ensures store.cache == old(store.cache)
    ensures old(store.online) ==>
      && store.queue == old(store.queue)
      && sent == Some(Request(DELETE, TripPath(id), AuthHeaders(true, accessToken), NoPayload))
      && r == Reply(response, DeleteFailed)
    ensures !old(store.online) ==>
      && store.queue == old(store.queue) + [QueuedAction(Delete, TripPath(id), DELETE, NoPayload)]
      && sent == None
      && r == Ok(())
  {
    var isOnline := store.CheckIsOnline();
    if isOnline {
      var headers := AuthHeaders(true, accessToken);
      sent := Some(Request(DELETE, TripPath(id), headers, NoPayload));
      r := Reply(response, DeleteFailed);
    } else {
      store.AddToQueue(QueuedAction(Delete, TripPath(id), DELETE, NoPayload));
      sent := None;
      r := Ok(());
    }
  }

  /** `getTrips`: online and answered, the fetched list is cached and returned; any failure,
      or being offline, returns the cached list (or the empty list) and leaves the cache as is.
      The queue is never touched. */
  method GetTrips(store: OfflineStore, accessToken: Option<string>, response: HttpOutcome<seq<StoredTrip>>)
    returns (trips: seq<StoredTrip>, sent: Option<Request>)
    modifies store`cache
    ensures store.queue == old(store.queue)
    ensures sent == if old(store.online) then Some(Request(GET, "/trips", AuthHeaders(true, accessToken), NoPayload))
                    else None
    ensures old(store.online) && response.Delivered? ==>
      trips == response.body && store.cache == Some(response.body)
    ensures !(old(store.online) && response.Delivered?) ==>
      trips == old(store.cache).GetOr([]) && store.cache == old(store.cache)
  {
    var isOnline := store.CheckIsOnline();
    if isOnline {
      var headers := AuthHeaders(true, accessToken);
      sent := Some(Request(GET, "/trips", headers, NoPayload));
      if response.Delivered? {
        store.CacheTrips(response.body);
        trips := response.body;
      } else {
        var cached := store.GetCachedTrips();
        trips := cached.GetOr([]);
      }
    } else {
      sent := None;
      var cached := store.GetCachedTrips();
      trips := cached.GetOr([]);
    }
  }

  /** `getTripById(id)`: the first trip with that id among what `getTrips` returns. */
  method GetTripById(store: OfflineStore, id: string, accessToken: Option<string>,
                     response: HttpOutcome<seq<StoredTrip>>)
    returns (r: Option<StoredTrip>)
    modifies store`cache
    ensures store.queue == old(store.queue)
    ensures old(store.online) && response.Delivered? ==>
      r == FindById(response.body, id) && store.cache == Some(response.body)
    ensures !(old(store.online) && response.Delivered?) ==>
      r == FindById(old(store.cache).GetOr([]), id) && store.cache == old(store.cache)
  {
    var trips, _ := GetTrips(store, accessToken, response);
    r := FindById(trips, id);
  }

  /** A trip created offline and then edited offline: the UPDATE is queued behind the CREATE
      and addresses the optimistic `local-<timestamp>` id, since nothing rewrites it. */
  method EditOfUnsyncedTrip(store: OfflineStore, trip: Trip, patch: TripPatch, accessToken: Option<string>, now: nat,
                            createReply: HttpOutcome<StoredTrip>, updateReply: HttpOutcome<StoredTrip>)
    returns (created: Result<StoredTrip, string>, updated: Result<UpdatedTrip, string>)
    requires !store.online
    modifies store`queue
    ensures created == Ok(StoredTrip(LocalId(now), trip))
    ensures updated == Ok(Optimistic(LocalId(now), patch))
    ensures store.queue == old(store.queue) + [
              QueuedAction(Create, "/trips", POST, WholeTrip(trip)),
              QueuedAction(Update, "/trips/local-" + NatToString(now), PUT, PartialTrip(patch))]
  {
    var sent;
    created, sent := CreateTrip(store, trip, accessToken, now, createReply);
    updated, sent := UpdateTrip(store, created.value.id, patch, accessToken, updateReply);
    assert TripPath(LocalId(now)) == "/trips/local-" + NatToString(now);
  }
}
