# TravelMate core, modelled in Dafny

TravelMate is a mobile travel journal. A user creates trips with photos and dates,
edits them, and keeps activities and notes on each trip. The app keeps working
offline: while the device has no connection, writes to the backend are queued, and
reads are served from a cache. This project models the part of the app that decides
what is sent, queued, cached, shown or refused, and proves what those decisions
guarantee.

| module | file | source file |
|---|---|---|
| `Common` | common.dfy | JavaScript built-ins the screens rely on: `trim`, `toLowerCase`, `includes`, `String(n)`, `padStart`, `filter` |
| `Api` | api.dfy | services/api.ts |
| `TripDetails` | trip_details.dfy | app/modal/tripDetails.tsx |
| `AddTrip` | add_trip.dfy | app/modal/add-trip.tsx |
| `EditTrip` | edit_trip.dfy | app/modal/editTrip.tsx |
| `EditProfile` | edit_profile.dfy | app/modal/edit-profile.tsx |
| `UserContext` | user_context.dfy | contexts/user-context.tsx |
| `Layout` | layout.dfy | app/_layout.tsx |

**The API layer (`Api`).** It is imperative, as in the source. The offline module's
state becomes the class `Api.OfflineStore`, with three fields:
- `online`: whether the device is online;
- `queue`: the actions waiting to be sent;
- `cache`: the trips cached from the last listing.

`createTrip`, `updateTrip`, `deleteTrip`, `getTrips` and `getTripById` are methods that
change only the field the source changes. An HTTP exchange becomes an `HttpOutcome`
parameter with three cases:
- delivered with a body;
- refused with an optional server `error`;
- failed with a transport message.

The request that would be sent is returned, so its method, path, headers and body can be
stated.

**The screens.** The two editors hold their state in place (`isLoading`, `isSaving`, the
form fields, the last alert), so they are classes. Their checks, payloads and `hasChanges`
rules are pure functions.

The trip-detail updaters are pure. So are the add-trip computations, the user-context
merge and the layout's decision rules. All of these are functions. The one loop in the
core is the photo upload of the add-trip screen, and it is a method with loop invariants,
proved against the function `UploadAll`.

**Dates** take three forms:
- *Trip details:* dates are day numbers.
- *Trip editor:* the form holds instants in milliseconds. A trip's `YYYY-MM-DD` texts are
  day numbers, and `new Date("YYYY-MM-DD")` is midnight UTC of that day.
- *Add-trip `formatDate`:* modelled on the local calendar parts of the chosen date.

As written, the editor refuses to load a trip whose last day began before "now" in UTC. A
trip that ends today can therefore no longer be edited; `EditTripScreen.LoadTrip` keeps
this behaviour.

`api.ts` only queues offline writes. Nothing in it replays the queue or rewrites a
`local-<timestamp>` id, so neither is modelled. A trip created offline keeps its local id,
and a later offline edit is queued against that id (`Api.EditOfUnsyncedTrip`).

## Model

| member | source | states |
|---|---|---|
| Common.TrimEmptyIffBlank | app/modal/add-trip.tsx:238-245 | `!s.trim()` holds exactly when every character of `s` is ECMAScript white space |
| Common.TrimIdempotent | app/modal/editTrip.tsx:168-172 | trimming a trimmed text changes nothing |
| Common.NonSpaceSurvivesTrim | app/modal/edit-profile.tsx:117-130 | a character that is not white space is still present after `trim` |
| Common.Includes | app/modal/add-trip.tsx:85-88 | `s.includes(sub)` holds exactly when `sub` occurs in `s` at some index |
| Common.ParseNatToString | app/modal/add-trip.tsx:232-233 | the decimal text of a number reads back to that number |
| Common.FilterAppend | app/modal/tripDetails.tsx:318 | filtering a concatenation is concatenating the filtered parts, so kept elements keep their order |
| Common.SaveDisabled | app/modal/editTrip.tsx:434-441 | the rule both editors give their save button: enabled exactly when there are changes and no save is running |
| Api.AuthHeaders | services/api.ts:15-28 | JSON content type exactly when requested; `Authorization: Bearer <token>` exactly when a non-empty token exists; no other header |
| Api.Reply | services/api.ts:78-84 | a call succeeds exactly when the response was delivered; a refusal throws the server's `error` or the fixed fallback; a transport failure throws its own message |
| Api.LocalIdInjective | services/api.ts:99-102 | offline ids `local-<time>` taken at different times differ |
| Api.FileName | services/api.ts:36 | the file name is the text after the last `/`, or `photo.jpg` when that is empty; it never contains `/` |
| Api.ExtensionIsRegexMatch | services/api.ts:37 | the captured extension exists exactly when `/\.(\w+)$/` matches, and equals the text after the matching dot |
| Api.MimeType | services/api.ts:38 | the type is `image/` followed by the extension, or `image/jpeg` without one |
| Api.MimeTypeOfDottedName | services/api.ts:36-38 | a name `base.ext` with a word-character extension is sent as `image/ext` |
| Api.UploadRequest | services/api.ts:40-52 | the upload is a POST to `/uploads` without headers, carrying the URI, the derived name and the type |
| Api.UploadImage | services/api.ts:32-62 | the upload yields the server's URL exactly when delivered; otherwise the server's `error` or `Error upload image`, or the transport message |
| Api.FindById | services/api.ts:217 | `find` gives nothing exactly when no trip has the id; otherwise the first trip with that id |
| Api.OfflineStore.AddToQueue | services/api.ts:92-97 | an action is appended at the end of the queue; the cache is untouched |
| Api.CreateTrip | services/api.ts:63-104 | online: the queue is unchanged, a POST `/trips` with the trip is sent, and the outcome follows the response. Offline: a CREATE of the whole trip is appended, nothing is sent, and the trip comes back with id `local-<now>` |
| Api.UpdateTrip | services/api.ts:106-142 | online: a PUT `/trips/<id>` with the partial trip, queue unchanged. Offline: an UPDATE for that same path is appended and the patch comes back with its id |
| Api.DeleteTrip | services/api.ts:144-179 | online: a DELETE `/trips/<id>` with the outcome of the response. Offline: a DELETE without payload is appended and success is returned |
| Api.GetTrips | services/api.ts:181-213 | online and delivered: the listing is cached and returned. Otherwise the cached trips, or an empty list without a cache, with the cache untouched; the queue never changes |
| Api.GetTripById | services/api.ts:215-218 | the first trip with the id among what `getTrips` returns, with `getTrips`' effect on the cache |
| Api.EditOfUnsyncedTrip | services/api.ts:92-140 | a trip created and then edited offline queues CREATE then UPDATE, the UPDATE addressing `/trips/local-<now>` |
| TripDetails.ShownTripId | app/modal/tripDetails.tsx:209 | a known trip id is shown as is; any other id shows trip "3" |
| TripDetails.ActivityIcon | app/modal/tripDetails.tsx:360-368 | each activity type gets one of the five icons `location`, `restaurant`, `basketball`, `car`, `bed` (distinct per type by `TripDetails.ActivityIconInjective`) |
| TripDetails.ActivityIconInjective | app/modal/tripDetails.tsx:360-368 | each activity type has its own icon |
| TripDetails.InsertByDate | app/modal/tripDetails.tsx:250-252 | inserting adds exactly the new activity (as a multiset) and grows the list by one |
| TripDetails.InsertKeepsSorted | app/modal/tripDetails.tsx:250-252 | inserting into a list in date order leaves it in date order |
| TripDetails.SortByDate | app/modal/tripDetails.tsx:250-252 | the sorted list is a permutation of the input and is in date order |
| TripDetails.SortSortedIsIdentity | app/modal/tripDetails.tsx:250-252 | a list already in date order is left as it is |
| TripDetails.CheckActivity | app/modal/tripDetails.tsx:218-237 | an empty title is refused first, then a day before the trip's first day, then a day after its last; anything else passes |
| TripDetails.AddActivity | app/modal/tripDetails.tsx:217-257 | refused exactly when a check fails. Otherwise the list holds the old activities plus the new one, has one more element, is in date order, and nothing else of the trip changes |
| TripDetails.AddToSortedList | app/modal/tripDetails.tsx:250-252 | on a list in date order, the new activity lands after every activity not later than it and before every later one; the rest keep their order |
| TripDetails.ReplaceActivity | app/modal/tripDetails.tsx:285-295 | each activity with the edited id takes the form's fields and keeps its id; the others are unchanged, in place |
| TripDetails.UpdateActivity | app/modal/tripDetails.tsx:259-304 | nothing happens without an activity being edited. Otherwise the same checks as adding, then the rewritten list re-sorted: same length, same elements as the rewrite, in date order |
| TripDetails.UpdateTouchesOnlyEditedActivity | app/modal/tripDetails.tsx:285-298 | after an update, activities with other ids are present exactly when they were before, and those with the edited id carry the form's fields |
| TripDetails.DeleteActivity | app/modal/tripDetails.tsx:306-324 | an activity remains exactly when it was present and its id differs; nothing else of the trip changes |
| TripDetails.DeleteActivityProperties | app/modal/tripDetails.tsx:318 | deleting an id no activity has changes nothing; deleting twice equals deleting once |
| TripDetails.AddNote | app/modal/tripDetails.tsx:370-388 | blank content is refused; otherwise the note, with its content as typed, is put in front of the others |
| TripDetails.AddNoteRefusesBlank | app/modal/tripDetails.tsx:371-374 | a note is refused exactly when its content is empty or white space only |
| TripDetails.UpdateNote | app/modal/tripDetails.tsx:415-427 | with a note id being edited, that note's content is replaced; ids, dates, order and the other notes stay. Without one, nothing changes |
| TripDetails.DeleteNote | app/modal/tripDetails.tsx:390-408 | a note remains exactly when it was present and its id differs |
| TripDetails.AddThenDeleteNote | app/modal/tripDetails.tsx:370-408 | adding a note under a fresh id and then deleting that id restores the notes |
| AddTrip.Search | app/modal/add-trip.tsx:75-94 | a query shorter than two characters shows nothing. Otherwise at most five cities, each from the list and matching the lower-cased query on city, country or full name; the list is shown exactly when non-empty |
| AddTrip.SearchTakesFirstMatches | app/modal/add-trip.tsx:85-89 | the suggestions are the first matching cities in list order: all of them when at most five match, otherwise exactly five |
| AddTrip.SearchDestination | app/modal/add-trip.tsx:75-94 | the suggestions for a typed query come from the 25 common cities: nothing below two characters, at most five, each matching the query |
| AddTrip.FormatDate | app/modal/add-trip.tsx:229-235 | the text is empty exactly when there is no date |
| AddTrip.TwoDigitsRoundTrip | app/modal/add-trip.tsx:232-233 | a month or day below 100 pads to two digits that read back to it |
| AddTrip.FormatDateRoundTrip | app/modal/add-trip.tsx:229-235 | for a four-digit year the text is `YYYY-MM-DD`, ten characters, and parses back to the same date, so distinct dates print differently |
| AddTrip.ValidateFormFirstFailure | app/modal/add-trip.tsx:237-263 | the form is refused exactly when a check fails, and the reported check is the first failing one in the order title, destination, start, end, date order, photo |
| AddTrip.ValidFormFacts | app/modal/add-trip.tsx:237-263 | an accepted form has a non-blank title and destination, both dates with start not after end, and at least one photo |
| AddTrip.Percent | app/modal/add-trip.tsx:221 | the progress is 100·done/total rounded to the nearest integer, halves up |
| AddTrip.ValidateForm | app/modal/add-trip.tsx:237-263 | a reported refusal names a check that really fails; which one, and that nothing is refused otherwise, is `AddTrip.ValidateFormFirstFailure` |
| AddTrip.PercentProperties | app/modal/add-trip.tsx:221 | the progress never decreases, stays within 0..100 and reaches 100 on the last image |
| AddTrip.UploadAll | app/modal/add-trip.tsx:205-227 | a successful upload of all images yields one URL per image |
| AddTrip.UploadAllMeaning | app/modal/add-trip.tsx:211-223 | uploading succeeds exactly when every upload is delivered, and then yields the server URLs in image order; otherwise it yields the error of the first failed upload, all earlier ones having succeeded |
| AddTrip.UploadImages | app/modal/add-trip.tsx:205-227 | the loop returns what `UploadAll` yields, with the first URL as cover ("" without images); the progress after the i-th upload is its rounded percentage; a failure stops the loop early |
| AddTrip.FormatAddress | app/modal/add-trip.tsx:187-190 | without a country the address is the trimmed place; without a place it is the trimmed country |
| AddTrip.AddressJoinsPlaceAndCountry | app/modal/add-trip.tsx:188-190 | a place and a country without surrounding white space are joined as `place, country` |
| AddTrip.TripPayload | app/modal/add-trip.tsx:279-289 | the created trip carries the title, destination and description as typed, both dates through `formatDate`, the cover as image and the uploaded photos |
| AddTrip.HandleSaveTrip | app/modal/add-trip.tsx:265-307 | nothing is uploaded or queued when the form is invalid, the user is not signed in, or an upload fails. Otherwise the trip built from the uploads is created: queued with a local id when offline, sent when online |
| EditTrip.DayOfMeaning | app/modal/editTrip.tsx:170-171 | an instant's `YYYY-MM-DD` day is the day whose midnight-to-midnight span contains it; midnight of a day falls in that day |
| EditTrip.DayOfMonotone | app/modal/editTrip.tsx:170-171 | a later instant never falls on an earlier day |
| EditTrip.CheckEditFirstFailure | app/modal/editTrip.tsx:143-162 | the edit is refused exactly when a check fails, reporting the first failing one in the order title, destination, start not after end, end not before now |
| EditTrip.CheckEdit | app/modal/editTrip.tsx:143-162 | a reported refusal names a check that really fails; the order and completeness are `EditTrip.CheckEditFirstFailure` |
| EditTrip.Payload | app/modal/editTrip.tsx:167-174 | title, destination and description are trimmed and the image is kept |
| EditTrip.PayloadDays | app/modal/editTrip.tsx:170-171 | each payload date is the UTC day of the form's instant |
| EditTrip.AcceptedPayloadFacts | app/modal/editTrip.tsx:143-174 | an accepted edit sends a non-blank title and destination, a start day not after the end day, and an end day not before today |
| EditTrip.Loaded | app/modal/editTrip.tsx:84-90 | the loaded form shows the trip's texts and image, its dates on the trip's days, and a missing description as "" |
| EditTrip.ChangesAfterLoad | app/modal/editTrip.tsx:200-210 | right after loading nothing has changed; changing the title, the destination, the description (against `description \|\| ''`), the image, or either date to another day is a change |
| EditTrip.HasChanges | app/modal/editTrip.tsx:200-210 | no change without a loaded trip; a different title is a change |
| EditTrip.EditTripScreen.SaveButtonDisabled | app/modal/editTrip.tsx:434-441 | in the screen's state, the button is enabled exactly when `hasChanges` holds for the current form and no save is running |
| EditTrip.UpdateErrorNotice | app/modal/editTrip.tsx:184-194 | an error mentioning `past trip` gets the "modification impossible" alert; any other non-empty message is shown as is, and an empty one is replaced by a generic text |
| EditTrip.EditTripScreen.LoadTrip | app/modal/editTrip.tsx:56-98 | the form is filled only from a trip that was found and whose end date is not before now; a missing trip, a finished trip and a failed load each get their alert and leave the form as it was; loading ends either way |
| EditTrip.EditTripScreen.HandleSave | app/modal/editTrip.tsx:142-198 | nothing is sent when a check fails, and that check's alert is shown; otherwise the trimmed payload is sent, its outcome alerted, and saving ends; the form is not changed |
| EditProfile.LoadedAvatar | app/modal/edit-profile.tsx:60 | the kept avatar is the profile's avatar when it is a non-empty text, and `null` otherwise |
| EditProfile.ProfileHeadersAreAuthHeaders | app/modal/edit-profile.tsx:284-295 | the screen's headers always carry the JSON type and carry the bearer credential exactly when a non-empty token exists, as the API layer's do |
| EditProfile.CheckProfileMeaning | app/modal/edit-profile.tsx:112-120 | a blank name is refused first; then an email that is blank or lacks `@`; anything else passes |
| EditProfile.CheckProfile | app/modal/edit-profile.tsx:112-120 | the name check fails exactly when the trimmed name is empty |
| EditProfile.TrimmedEmailKeepsAt | app/modal/edit-profile.tsx:117-130 | an email that passed the `@` check still contains `@` once trimmed for sending |
| EditProfile.SaveRequest | app/modal/edit-profile.tsx:124-133 | the save is a PATCH of `/users/profile` with the trimmed name and email and the current avatar |
| EditProfile.SaveNotice | app/modal/edit-profile.tsx:135-149 | success exactly when delivered; a refusal reports the server's `error` or `Failed to update profile` |
| EditProfile.AsWrittenReportsChangeAfterLoad | app/modal/edit-profile.tsx:45-161 | as written, a profile without an avatar reports a change right after loading |
| EditProfile.HasChangesAsWritten | app/modal/edit-profile.tsx:154-161 | no change without a loaded profile; a profile without an `avatar` member always reports a change, since the kept avatar is never `undefined` |
| EditProfile.AsWrittenAfterLoad | app/modal/edit-profile.tsx:45-161 | right after loading, the rule as written reports a change exactly when the profile's avatar is absent or `""` |
| EditProfile.NoChangesAfterLoad | app/modal/edit-profile.tsx:154-161 | with the corrected comparison nothing has changed right after loading, and editing any one field to a different value is a change |
| EditProfile.HasChanges | app/modal/edit-profile.tsx:154-161 | corrected rule: no change without a loaded profile; a different name is a change |
| EditProfile.AsWrittenAgreesOnlyForNormalAvatars | app/modal/edit-profile.tsx:45-161 | the written and corrected rules agree on every state exactly for profiles whose avatar is `null` or a non-empty text |
| EditProfile.EditProfileScreen.SaveButtonDisabled | app/modal/edit-profile.tsx:248-255 | in the screen's state, the button is enabled exactly when `hasChanges` as written holds and no save is running |
| EditProfile.EditProfileScreen.LoadProfile | app/modal/edit-profile.tsx:45-67 | a loaded profile fills the form with its avatar normalised; the rule as written then reports a change exactly when the avatar was absent or `""`, while the corrected rule reports none; a failed load alerts and changes nothing else; loading ends either way |
| EditProfile.EditProfileScreen.HandleSave | app/modal/edit-profile.tsx:111-152 | nothing is sent when a check fails, and that check's alert is shown; otherwise the PATCH is sent, its outcome alerted, and saving ends |
| UserContext.InitialUser | contexts/user-context.tsx:16-20 | the provider starts with the user `Odilon Hema`, `dummy@mail.com`, no avatar |
| UserContext.Merge | contexts/user-context.tsx:23-25 | every member present in the partial is set to its value; absent members keep theirs |
| UserContext.Combine | contexts/user-context.tsx:24 | the combined partial sets a member exactly when either partial does, the second winning (with `UserContext.MergeComposes`) |
| UserContext.MergeEmptyAndIdempotent | contexts/user-context.tsx:24 | an empty partial changes nothing; applying a partial twice equals applying it once |
| UserContext.MergeComposes | contexts/user-context.tsx:24 | two updates in a row equal one update with the combined partial |
| UserContext.FullPatchReplaces | contexts/user-context.tsx:24 | a partial that sets every member yields the same user whatever came before |
| UserContext.UseUser | contexts/user-context.tsx:34-40 | the context's value inside a provider; outside, the error `useUser must be used within a UserProvider` |
| Layout.Redirect | app/_layout.tsx:79-100 | to login exactly when done loading, no bypass, signed out and in `(tabs)` or `modal`; to the tabs exactly when done loading, no bypass, signed in and on `login`; never both |
| Layout.RedirectSettles | app/_layout.tsx:90-99 | once on the page the guard chose, the guard redirects no further |
| Layout.ShouldRefresh | app/_layout.tsx:102-110 | a refresh is started only when done loading, without bypass and signed out |
| Layout.RefreshOnlyWhenLeavingForLogin | app/_layout.tsx:79-110 | a refresh starts exactly when the guard sends the user from `(tabs)` to the login page |
| Layout.OfflineBanner | app/_layout.tsx:115-123 | the offline banner shows exactly when offline; it reads `Hors ligne ` alone without queued actions and is longer with them |
| Layout.SyncBanner | app/_layout.tsx:126-140 | the sync button shows exactly when online with queued actions; it reads `Synchronisation...` with the spinning icon while syncing |
| Layout.BannersExclusive | app/_layout.tsx:115-140 | the two banners never show together, and one shows exactly when offline or with queued actions |
| Layout.BannerCountReadsBack | app/_layout.tsx:120-136 | both banners print the number of queued actions in decimal, which reads back to that number |

## Findings

| source | as written | input that shows it | evidently intended | confidence | as-written member | corrected member |
|---|---|---|---|---|---|---|
| app/modal/edit-profile.tsx:154-161 | the avatar kept after loading (line 60) is `profile.avatar \|\| null`, but `hasChanges` compares it with the raw `originalProfile.avatar` using `!==` | a profile without an `avatar` member, or with `avatar: ""`: right after loading, `null !== undefined` (or `null !== ""`) reports a change and enables saving | compare with the avatar as the screen normalised it, so a freshly loaded profile has no changes | medium, not executed | EditProfile.HasChangesAsWritten (shown by EditProfile.AsWrittenReportsChangeAfterLoad) | EditProfile.HasChanges (proved by EditProfile.NoChangesAfterLoad) |

## Left out

- The offline module's internals are not modelled: how the queue and the cache are stored, how connectivity is detected, and how the queue is replayed. Only the calls `api.ts` makes on it are modelled, as the fields of `Api.OfflineStore`.
- A queued action's `id`, `createdAt` and retry count are assigned inside the offline module, so they are not modelled.
- `fetch`, `FormData`, JSON parsing and the token store are replaced by parameters: the HTTP outcome, the response body and the access token.
- The clock is a parameter (`now`, `nowMs`), and so is the dev build flag.
- Time zones are not modelled. The local calendar date of a picked instant is given alongside it.
- `toLocaleDateString` display formatting is not modelled.
- Rendering, navigation, permissions, pickers and the camera are not modelled. Neither are the `setTimeout` before the success alert and the field resets after a handler.
- Async interleaving and React's batching of state updates are not modelled. Each handler runs to completion.
- The latitude and longitude of the suggested cities, of the device position, and the `location` member of the created trip are not modelled, because they are floating point.
- `isLoadingSuggestions` only toggles a spinner. `isUploading` (add-trip.tsx:484-489) and `isUploadingImage` (editTrip.tsx:281-285) also disable their buttons while an upload runs, which stops a second tap. That guard is not modelled, because each handler is taken to run to completion.
- EditTrip.EditTripScreen.HandleSave: the outcome of `API.updateTrip` is a parameter, not a call of `Api.UpdateTrip` on the offline store. The payload holds day numbers, and rendering a day as `YYYY-MM-DD` through `toISOString` is not modelled. So this method does not show that an offline edit is queued and reported as a success; `Api.UpdateTrip` states that on its own.
- AddTrip.Percent: the progress is 100·done/total rounded exactly, halves up. The source rounds the IEEE double `((i + 1) / total) * 100`, which can fall just below a half: for image 23 of 40 that double is 57.49999999999999, so the app shows 57 where the model gives 58 (likewise 29 of 200). Floating-point rounding is not modelled.
- AddTrip.UploadImages: its progress clause inherits the exact rounding of `AddTrip.Percent` and can differ by one from the double computation, as above.
- Common.ToLower: only ASCII letters are lower-cased. JavaScript's `toLowerCase` also folds other Unicode letters.
- AddTrip.Search: strings are sequences of code points. JavaScript strings are UTF-16, so `query.length < 2` differs from the model for characters outside the Basic Multilingual Plane.
- TripDetails.ShownTripId: the mock trips' contents are not modelled. An id such as `constructor`, which JavaScript finds on every object's prototype, is not distinguished.
- TripDetails.UpdateActivity: a trip whose `activities` or `notes` list is absent is modelled with an empty list. With an absent list the source throws on update and delete; an edit can only start from an existing entry, so that case does not arise.
- UserContext.Merge: a partial that explicitly holds `undefined` for a member is not modelled. The spread would copy that `undefined` in.
- TripDetails.SortByDate: the sort's stability is stated only as "a list already in date order is left unchanged". The position of a new activity among activities on the same day is stated only by `TripDetails.AddToSortedList`.
- AddTrip.FormatDateRoundTrip: proved for four-digit years only. Other years print with a different number of digits.
- The picker callbacks `onStartDateChange` and `onEndDateChange` are not modelled. They only store the picked date.
- `pickImage`, `takePhoto` and the editors' single-image upload are not modelled beyond `Api.UploadImage`, which they call.
