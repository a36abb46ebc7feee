/**
 * The trip detail screen of app/modal/tripDetails.tsx: the activities and notes of
 * one trip, and the checks the screen applies before changing them.
 *
 * Dates are day numbers. An activity's date is the day it takes place; a trip's
 * start and end dates are its first and last day. A note's date is the instant it
 * was written. The handlers in the source update the trip with `setTrip`; here each
 * update is a function from the old trip to the new one.
 */
module TripDetails {
  import opened Common

  datatype ActivityType = Visit | Food | Outing | Transport | Accommodation

  datatype Activity = Activity(
    id: string,
    title: string,
    description: string,
    date: int,
    location: Option<string>,
    kind: ActivityType)

  datatype Note = Note(id: string, content: string, date: int)

  /** The trip record the screen shows. An absent `activities` or `notes` list is empty here. */
  datatype TripDetail = TripDetail(
    id: string,
    title: string,
    destination: string,
    startDate: int,
    endDate: int,
    description: string,
    image: string,
    photos: seq<string>,
    activities: seq<Activity>,
    notes: seq<Note>)

  /** The fields of the add/edit activity form. */
  datatype ActivityForm = ActivityForm(title: string, description: string, location: string, date: int, kind: ActivityType)

  /** Why an add or an update of an activity is refused, in the order the screen checks. */
  datatype ActivityError = MissingTitle | BeforeTripStart | AfterTripEnd

  datatype NoteError = EmptyNote

  // ---------------------------------------------------------------------------
  // Loading and icons
  // ---------------------------------------------------------------------------

  /** The ids of the trips the screen knows. */
  const KnownTripIds: set<string> := {"1", "2", "3"}

  /** The trip `loadTripDetails` shows: the requested one if it is known, trip "3" otherwise. */
  function ShownTripId(id: string): (shown: string)
    ensures shown in KnownTripIds
    ensures id in KnownTripIds ==> shown == id
    ensures id !in KnownTripIds ==> shown == "3"
  {
    if id in KnownTripIds then id else "3"
  }

  /** `getActivityIcon`: the icon name shown for each activity type. */
  function ActivityIcon(kind: ActivityType): (icon: string)
    ensures icon in {"location", "restaurant", "basketball", "car", "bed"}
  {
    match kind
    case Visit => "location"
    case Food => "restaurant"
    case Outing => "basketball"
    case Transport => "car"
    case Accommodation => "bed"
  }

  /** Each activity type has its own icon. */
  lemma ActivityIconInjective(a: ActivityType, b: ActivityType)
    ensures ActivityIcon(a) == ActivityIcon(b) <==> a == b
  {
  }

  // ---------------------------------------------------------------------------
  // Ordering activities by date
  // ---------------------------------------------------------------------------

  ghost predicate SortedByDate(s: seq<Activity>) {
    forall i, j :: 0 <= i < j < |s| ==> s[i].date <= s[j].date
  }

  /** Places `a` after every leading activity that is not later than it. */
  function InsertByDate(a: Activity, s: seq<Activity>): (r: seq<Activity>)
    ensures multiset(r) == multiset(s) + multiset{a}
    ensures |r| == |s| + 1
  {
    if s == [] || a.date < s[0].date then [a] + s
    else
      var r := [s[0]] + InsertByDate(a, s[1..]);
      assert s == [s[0]] + s[1..];
      r
  }

  /** `activities.sort((a, b) => date(a) - date(b))`: a stable sort by date. */
  function SortByDate(s: seq<Activity>): (r: seq<Activity>)
    ensures multiset(r) == multiset(s)
    ensures |r| == |s|
    ensures SortedByDate(r)
  {
    if s == [] then []
    else
      assert s == s[..|s| - 1] + [s[|s| - 1]];
      InsertKeepsSorted(s[|s| - 1], SortByDate(s[..|s| - 1]));
      InsertByDate(s[|s| - 1], SortByDate(s[..|s| - 1]))
  }

  /** Inserting into a list in date order leaves it in date order. */
  lemma {:induction false} InsertKeepsSorted(a: Activity, s: seq<Activity>)
    requires SortedByDate(s)
    ensures SortedByDate(InsertByDate(a, s))
  {
    var r := InsertByDate(a, s);
    if s == [] || a.date < s[0].date {
      assert forall j :: 1 <= j < |r| ==> r[j] == s[j - 1];
    } else {
      var rest := InsertByDate(a, s[1..]);
      InsertKeepsSorted(a, s[1..]);
      forall j | 0 <= j < |rest| ensures s[0].date <= rest[j].date {
        var x := rest[j];
        assert x in multiset(rest);
        if x != a {
          assert x in multiset(s[1..]);
          var m :| 0 <= m < |s[1..]| && s[1..][m] == x;
          assert s[m + 1] == x;
        }
      }
      assert r == [s[0]] + rest;
      assert forall j :: 1 <= j < |r| ==> r[j] == rest[j - 1];
    }
  }

  /** On a list already in date order, inserting appends after every activity not later. */
  lemma {:induction false} InsertAfterNotLater(a: Activity, s: seq<Activity>)
    requires forall i :: 0 <= i < |s| ==> s[i].date <= a.date
    ensures InsertByDate(a, s) == s + [a]
  {
    if s != [] {
      InsertAfterNotLater(a, s[1..]);
      assert [s[0]] + (s[1..] + [a]) == s + [a];
    }
  }

  /** Sorting leaves a list that is already in date order as it is. */
  lemma {:induction false} SortSortedIsIdentity(s: seq<Activity>)
    requires SortedByDate(s)
    ensures SortByDate(s) == s
  {
    if s != [] {
      var init := s[..|s| - 1];
      SortSortedIsIdentity(init);
      InsertAfterNotLater(s[|s| - 1], init);
      assert init + [s[|s| - 1]] == s;
    }
  }

  // ---------------------------------------------------------------------------
  // Activities
  // ---------------------------------------------------------------------------

  /** The checks `handleAddActivity` and `handleUpdateActivity` make, in their order:
      a title, then a date no earlier than the trip's first day, then one no later than its last. */
  function CheckActivity(trip: TripDetail, form: ActivityForm): (e: Option<ActivityError>)
    ensures e.None? <==> form.title != "" && trip.startDate <= form.date <= trip.endDate
    ensures e == Some(MissingTitle) <==> form.title == ""
    ensures e == Some(BeforeTripStart) <==> form.title != "" && form.date < trip.startDate
    ensures e == Some(AfterTripEnd) <==> form.title != "" && trip.startDate <= form.date && form.date > trip.endDate
  {
    if form.title == "" then Some(MissingTitle)
    else if form.date < trip.startDate then Some(BeforeTripStart)
    else if form.date > trip.endDate then Some(AfterTripEnd)
    else None
  }

  /** The activity the form describes, under the given id. */
  function FromForm(id: string, form: ActivityForm): Activity {
    Activity(id, form.title, form.description, form.date, Some(form.location), form.kind)
  }

  /** `handleAddActivity`: the new activity joins the list, which is then sorted by date. */
  function AddActivity(trip: TripDetail, form: ActivityForm, newId: string): (r: Result<TripDetail, ActivityError>)
    ensures r.Err? <==> CheckActivity(trip, form).Some?
    ensures r.Err? ==> r.error == CheckActivity(trip, form).value
    ensures r.Ok? ==> r.value == trip.(activities := r.value.activities)
    ensures r.Ok? ==> var acts := r.value.activities;
      && |acts| == |trip.activities| + 1
      && multiset(acts) == multiset(trip.activities) + multiset{FromForm(newId, form)}
      && SortedByDate(acts)
  {
    match CheckActivity(trip, form)
    case Some(e) => Err(e)
    case None => Ok(trip.(activities := SortByDate(trip.activities + [FromForm(newId, form)])))
  }

  /** How many leading activities of `s` are not later than `a`. */
  function InsertionIndex(a: Activity, s: seq<Activity>): (k: nat)
    ensures k <= |s|
  {
    if s == [] || a.date < s[0].date then 0 else 1 + InsertionIndex(a, s[1..])
  }

  /** Inserting puts the activity at its insertion index. */
  lemma {:induction false} InsertAtIndex(a: Activity, s: seq<Activity>)
    ensures var k := InsertionIndex(a, s); InsertByDate(a, s) == s[..k] + [a] + s[k..]
  {
    if s == [] || a.date < s[0].date {
      InsertAtFront(a, s);
    } else {
      var t := s[1..];
      InsertAtIndex(a, t);
      assert s == [s[0]] + t;
      ConsSplit(s[0], t, a, InsertionIndex(a, t));
    }
  }

  /** Every activity before the insertion index is not later than the inserted one. */
  lemma {:induction false} NotLaterBeforeIndex(a: Activity, s: seq<Activity>)
    ensures forall i :: 0 <= i < InsertionIndex(a, s) ==> s[i].date <= a.date
  {
    if s != [] && a.date >= s[0].date {
      NotLaterBeforeIndex(a, s[1..]);
      assert forall i :: 1 <= i < |s| ==> s[i] == s[1..][i - 1];
    }
  }

  lemma InsertAtFront<T>(a: T, s: seq<T>)
    ensures s[..0] + [a] + s[0..] == [a] + s
  {
  }

  lemma ConsSplit<T>(x: T, t: seq<T>, a: T, k: nat)
    requires k <= |t|
    ensures [x] + (t[..k] + [a] + t[k..]) == ([x] + t)[..k + 1] + [a] + ([x] + t)[k + 1..]
  {
    assert ([x] + t)[..k + 1] == [x] + t[..k];
    assert ([x] + t)[k + 1..] == t[k..];
  }

  /** In a list in date order, every activity from the insertion index on is later. */
  lemma {:induction false} LaterFromIndex(a: Activity, s: seq<Activity>)
    requires SortedByDate(s)
    ensures forall i :: InsertionIndex(a, s) <= i < |s| ==> s[i].date > a.date
  {
    if s != [] && a.date >= s[0].date {
      var t := s[1..];
      LaterFromIndex(a, t);
      assert forall i :: 1 <= i < |s| ==> s[i] == t[i - 1];
    }
  }

  /** When the list is already in date order, the new activity lands after every activity
      on the same day or earlier and before every later one; the others keep their order. */
  lemma AddToSortedList(trip: TripDetail, form: ActivityForm, newId: string)
    requires SortedByDate(trip.activities)
    requires CheckActivity(trip, form).None?
    ensures var acts := trip.activities;
      var k := InsertionIndex(FromForm(newId, form), acts);
      && AddActivity(trip, form, newId) == Ok(trip.(activities := acts[..k] + [FromForm(newId, form)] + acts[k..]))
      && (forall i :: 0 <= i < k ==> acts[i].date <= form.date)
      && (forall i :: k <= i < |acts| ==> acts[i].date > form.date)
  {
    var s := trip.activities + [FromForm(newId, form)];
    assert s[..|s| - 1] == trip.activities;
    SortSortedIsIdentity(trip.activities);
    InsertAtIndex(FromForm(newId, form), trip.activities);
    NotLaterBeforeIndex(FromForm(newId, form), trip.activities);
    LaterFromIndex(FromForm(newId, form), trip.activities);
  }

  /** The `map` of `handleUpdateActivity`: every activity with the edited id takes the
      form's fields and keeps its id; the others are left alone. */
  function ReplaceActivity(s: seq<Activity>, id: string, form: ActivityForm): (r: seq<Activity>)
    ensures |r| == |s|
    ensures forall i :: 0 <= i < |s| ==> r[i] == if s[i].id == id then FromForm(id, form) else s[i]
  {
    seq(|s|, i requires 0 <= i < |s| => if s[i].id == id then FromForm(id, form) else s[i])
  }

  /** `handleUpdateActivity`: nothing happens when no activity is being edited; otherwise
      the same checks as for adding, then the edited activity is rewritten and the list re-sorted. */
  function UpdateActivity(trip: TripDetail, editing: Option<Activity>, form: ActivityForm)
    : (r: Result<TripDetail, ActivityError>)
    ensures editing.None? ==> r == Ok(trip)
    ensures editing.Some? ==> (r.Err? <==> CheckActivity(trip, form).Some?)
    ensures r.Ok? ==> r.value == trip.(activities := r.value.activities)
    ensures r.Ok? && editing.Some? ==> var acts := r.value.activities;
      && |acts| == |trip.activities|
      && multiset(acts) == multiset(ReplaceActivity(trip.activities, editing.value.id, form))
      && SortedByDate(acts)
  {
    match editing
    case None => Ok(trip)
    case Some(a) =>
      match CheckActivity(trip, form)
      case Some(e) => Err(e)
      case None => Ok(trip.(activities := SortByDate(ReplaceActivity(trip.activities, a.id, form))))
  }

  /** After an update, an activity with another id is in the list exactly when it was before,
      and every activity with the edited id carries the form's fields. */
  lemma UpdateTouchesOnlyEditedActivity(trip: TripDetail, editing: Activity, form: ActivityForm)
    requires CheckActivity(trip, form).None?
    ensures var acts := UpdateActivity(trip, Some(editing), form).value.activities;
      && (forall x: Activity :: x.id != editing.id ==> (x in acts <==> x in trip.activities))
      && (forall x :: x in acts && x.id == editing.id ==> x == FromForm(editing.id, form))
  {
    var replaced := ReplaceActivity(trip.activities, editing.id, form);
    var acts := UpdateActivity(trip, Some(editing), form).value.activities;
    assert multiset(acts) == multiset(replaced);
    forall x: Activity | x.id != editing.id ensures x in acts <==> x in trip.activities {
      assert x in acts <==> x in multiset(replaced);
      if x in replaced {
        var i :| 0 <= i < |replaced| && replaced[i] == x;
        assert trip.activities[i] == x;
      }
      if x in trip.activities {
        var i :| 0 <= i < |trip.activities| && trip.activities[i] == x;
        assert replaced[i] == x;
      }
    }
    forall x | x in acts && x.id == editing.id ensures x == FromForm(editing.id, form) {
      assert x in multiset(replaced);
      var i :| 0 <= i < |replaced| && replaced[i] == x;
    }
  }

  /** `handleDeleteActivity`: keeps the activities whose id differs, in their order. */
  function DeleteActivity(trip: TripDetail, activityId: string): (t: TripDetail)
    ensures t == trip.(activities := t.activities)
    ensures forall a :: a in t.activities <==> a in trip.activities && a.id != activityId
    ensures |t.activities| <= |trip.activities|
  {
    trip.(activities := Filter(trip.activities, (a: Activity) => a.id != activityId))
  }

  /** Deleting an id no activity has changes nothing; deleting twice is deleting once. */
  lemma DeleteActivityProperties(trip: TripDetail, activityId: string)
    ensures (forall a :: a in trip.activities ==> a.id != activityId) ==> DeleteActivity(trip, activityId) == trip
    ensures DeleteActivity(DeleteActivity(trip, activityId), activityId) == DeleteActivity(trip, activityId)
  {
    var keep := (a: Activity) => a.id != activityId;
    if forall a :: a in trip.activities ==> a.id != activityId {
      FilterAllKept(trip.activities, keep);
    }
    FilterAllKept(Filter(trip.activities, keep), keep);
  }

  // ---------------------------------------------------------------------------
  // Notes
  // ---------------------------------------------------------------------------

  /** `handleAddNote`: refuses content that is only white space; otherwise the note, with the
      content as typed, goes in front of the existing notes. */
  function AddNote(trip: TripDetail, content: string, newId: string, now: int): (r: Result<TripDetail, NoteError>)
    ensures r.Err? <==> Trim(content) == ""
    ensures r.Ok? ==> r.value == trip.(notes := [Note(newId, content, now)] + trip.notes)
  {
    if Trim(content) == "" then Err(EmptyNote)
    else Ok(trip.(notes := [Note(newId, content, now)] + trip.notes))
  }

  /** A note is refused exactly when it is empty or white space only. */
  lemma AddNoteRefusesBlank(trip: TripDetail, content: string, newId: string, now: int)
    ensures AddNote(trip, content, newId, now).Err? <==> IsBlank(content)
  {
    TrimEmptyIffBlank(content);
  }

  /** `handleUpdateNote`: with a (non-empty) note id being edited, that note's content is
      replaced; ids, dates and order stay. Without one, nothing happens. */
  function UpdateNote(trip: TripDetail, editingNoteId: Option<string>, content: string): (t: TripDetail)
    ensures t == trip.(notes := t.notes)
    ensures |t.notes| == |trip.notes|
    ensures forall i :: 0 <= i < |trip.notes| ==>
      && t.notes[i].id == trip.notes[i].id
      && t.notes[i].date == trip.notes[i].date
      && t.notes[i].content == (if editingNoteId.Some? && editingNoteId.value != "" && trip.notes[i].id == editingNoteId.value
                                then content else trip.notes[i].content)
  {
    match editingNoteId
    case None => trip
    case Some(eid) =>
      if eid == "" then trip
      else trip.(notes := seq(|trip.notes|, i requires 0 <= i < |trip.notes| =>
                                if trip.notes[i].id == eid then trip.notes[i].(content := content) else trip.notes[i]))
  }

  /** `handleDeleteNote`: keeps the notes whose id differs, in their order. */
  function DeleteNote(trip: TripDetail, noteId: string): (t: TripDetail)
    ensures t == trip.(notes := t.notes)
    ensures forall n :: n in t.notes <==> n in trip.notes && n.id != noteId
  {
    trip.(notes := Filter(trip.notes, (n: Note) => n.id != noteId))
  }

  /** A note added and then deleted by its id leaves the notes as they were, provided no
      older note had that id. */
  lemma AddThenDeleteNote(trip: TripDetail, content: string, newId: string, now: int)
    requires !IsBlank(content)
    requires forall n :: n in trip.notes ==> n.id != newId
    ensures DeleteNote(AddNote(trip, content, newId, now).value, newId) == trip
  {
    TrimEmptyIffBlank(content);
    var keep := (n: Note) => n.id != newId;
    FilterAppend([Note(newId, content, now)], trip.notes, keep);
    FilterAllKept(trip.notes, keep);
    assert Filter([Note(newId, content, now)], keep) == [];
  }
}
