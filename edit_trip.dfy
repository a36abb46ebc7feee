/**
 * The trip editor of app/modal/editTrip.tsx.
 *
 * The form keeps its dates as `Date` instants (milliseconds since the epoch, UTC),
 * while trips carry their dates as `YYYY-MM-DD` texts. A text is represented here by
 * the number of its day counted from 1970-01-01: `new Date("YYYY-MM-DD")` is midnight
 * UTC of that day, and `toISOString().split('T')[0]` of an instant is the text of the
 * UTC day the instant falls in. Two texts are equal exactly when their day numbers are.
 */
module EditTrip {
  import opened Common

  const MsPerDay: int := 86400000

  /** The day `toISOString().split('T')[0]` names: the UTC day the instant falls in. */
  function DayOf(ms: int): int {
    ms / MsPerDay
  }

  /** `new Date("YYYY-MM-DD")`: midnight UTC of the day. */
  function Midnight(day: int): int {
    day * MsPerDay
  }

  /** An instant falls in day `d` exactly when it lies between that day's midnight and the
      next one; in particular midnight of a day falls in that day. */
  lemma DayOfMeaning(ms: int, d: int)
    ensures DayOf(ms) == d <==> Midnight(d) <= ms < Midnight(d + 1)
    ensures DayOf(Midnight(d)) == d
  {
    var q := ms / MsPerDay;
    assert ms == MsPerDay * q + ms % MsPerDay;
    if Midnight(d) <= ms < Midnight(d + 1) {
      assert q == d;
    }
  }

  /** Later instants never fall in an earlier day. */
  lemma DayOfMonotone(a: int, b: int)
    requires a <= b
    ensures DayOf(a) <= DayOf(b)
  {
    var qa, qb := a / MsPerDay, b / MsPerDay;
    assert a == MsPerDay * qa + a % MsPerDay && b == MsPerDay * qb + b % MsPerDay;
  }

  /** A trip as `getTripById` returns it; `description` may be missing. */
  datatype EditableTrip = EditableTrip(
    id: string,
    title: string,
    destination: string,
    startDay: int,
    endDay: int,
    description: Option<string>,
    image: string)

  /** The editable fields of the screen. */
  datatype EditForm = EditForm(
    title: string,
    destination: string,
    startMs: int,
    endMs: int,
    description: string,
    image: string)

  /** What `handleSave` passes to `updateTrip`. */
  datatype EditPayload = EditPayload(
    title: string,
    destination: string,
    startDay: int,
    endDay: int,
    description: string,
    image: string)

  const NotFound := Notice("Erreur", "Voyage introuvable")
  const LoadFailed := Notice("Erreur", "Impossible de charger le voyage")
  const TripFinished := Notice("Modification impossible", "Ce voyage est terminé et ne peut plus être modifié")
  const Saved := Notice("Succès", "Voyage modifié avec succès")

  /** The reasons `handleSave` refuses to send, in the order it checks them. */
  datatype EditError = MissingTitle | MissingDestination | StartAfterEnd | EndInPast

  function ErrorNotice(e: EditError): Notice {
    match e
    case MissingTitle => Notice("Erreur", "Le titre est obligatoire")
    case MissingDestination => Notice("Erreur", "La destination est obligatoire")
    case StartAfterEnd => Notice("Erreur", "La date de début doit être avant la date de fin")
    case EndInPast => Notice("Erreur", "La date de fin ne peut pas être dans le passé")
  }

  function Rank(e: EditError): nat {
    match e
    case MissingTitle => 0
    case MissingDestination => 1
    case StartAfterEnd => 2
    case EndInPast => 3
  }

  /** The condition each check of `handleSave` tests, on its own. */
  predicate Fails(e: EditError, f: EditForm, nowMs: int) {
    match e
    case MissingTitle => Trim(f.title) == ""
    case MissingDestination => Trim(f.destination) == ""
    case StartAfterEnd => f.startMs > f.endMs
    case EndInPast => f.endMs < nowMs
  }

  /** The checks of `handleSave`: the first one that fails, if any. */
  function CheckEdit(f: EditForm, nowMs: int): (r: Option<EditError>)
    ensures r.Some? ==> Fails(r.value, f, nowMs)
  {
    if Trim(f.title) == "" then Some(MissingTitle)
    else if Trim(f.destination) == "" then Some(MissingDestination)
    else if f.startMs > f.endMs then Some(StartAfterEnd)
    else if f.endMs < nowMs then Some(EndInPast)
    else None
  }

  /** The edit is refused exactly when some check fails, and then for the first failing check
      in the order title, destination, date order, end date not past. */
  lemma CheckEditFirstFailure(f: EditForm, nowMs: int)
    ensures CheckEdit(f, nowMs).None? <==> forall e :: !Fails(e, f, nowMs)
    ensures CheckEdit(f, nowMs).Some? ==>
      Fails(CheckEdit(f, nowMs).value, f, nowMs)
      && forall e :: Rank(e) < Rank(CheckEdit(f, nowMs).value) ==> !Fails(e, f, nowMs)
  {
    var r := CheckEdit(f, nowMs);
    if r.Some? {
      assert Fails(r.value, f, nowMs);
    }
    forall e | Rank(e) < (if r.Some? then Rank(r.value) else 4) ensures !Fails(e, f, nowMs) {
      match e
      case MissingTitle =>
      case MissingDestination =>
      case StartAfterEnd =>
      case EndInPast =>
    }
  }

  /** The record sent to `updateTrip`: trimmed texts, and the days of both dates. */
  function Payload(f: EditForm): (p: EditPayload)
    ensures p.title == Trim(f.title) && p.destination == Trim(f.destination) && p.description == Trim(f.description)
    ensures p.image == f.image
  {
    EditPayload(Trim(f.title), Trim(f.destination), DayOf(f.startMs), DayOf(f.endMs), Trim(f.description), f.image)
  }

  /** Each date of the payload is the UTC day the form's instant falls in. */
  lemma PayloadDays(f: EditForm)
    ensures Midnight(Payload(f).startDay) <= f.startMs < Midnight(Payload(f).startDay + 1)
    ensures Midnight(Payload(f).endDay) <= f.endMs < Midnight(Payload(f).endDay + 1)
  {
    DayOfMeaning(f.startMs, DayOf(f.startMs));
    DayOfMeaning(f.endMs, DayOf(f.endMs));
  }

  /** A payload that passed the checks has a non-blank title and destination, its start day
      on or before its end day, and its end day not before today. */
  lemma AcceptedPayloadFacts(f: EditForm, nowMs: int)
    requires CheckEdit(f, nowMs).None?
    ensures Payload(f).title != "" && Payload(f).destination != ""
    ensures Payload(f).startDay <= Payload(f).endDay
    ensures DayOf(nowMs) <= Payload(f).endDay
  {
    DayOfMonotone(f.startMs, f.endMs);
    DayOfMonotone(nowMs, f.endMs);
  }

  /** `hasChanges`: some field differs from the trip as loaded (a missing description
      counting as ""); never with no trip loaded. */
  function HasChanges(original: Option<EditableTrip>, f: EditForm): (changed: bool)
    ensures original.None? ==> !changed
    ensures original.Some? && f.title != original.value.title ==> changed
  {
    match original
    case None => false
    case Some(t) =>
      f.title != t.title || f.destination != t.destination
      || DayOf(f.startMs) != t.startDay || DayOf(f.endMs) != t.endDay
      || f.description != t.description.GetOr("") || f.image != t.image
  }

  /** The form as `loadTrip` fills it from a trip. */
  function Loaded(t: EditableTrip): (f: EditForm)
    ensures f.title == t.title && f.destination == t.destination && f.image == t.image
    ensures DayOf(f.startMs) == t.startDay && DayOf(f.endMs) == t.endDay
    ensures f.description == t.description.GetOr("")
  {
    DayOfMeaning(0, t.startDay);
    DayOfMeaning(0, t.endDay);
    EditForm(t.title, t.destination, Midnight(t.startDay), Midnight(t.endDay), t.description.GetOr(""), t.image)
  }

  /** Right after loading nothing has changed; changing any one field to a different value
      (a date to another day) is a change. */
  lemma ChangesAfterLoad(t: EditableTrip, text: string, day: int)
    ensures !HasChanges(Some(t), Loaded(t))
    ensures text != t.title ==> HasChanges(Some(t), Loaded(t).(title := text))
    ensures text != t.destination ==> HasChanges(Some(t), Loaded(t).(destination := text))
    ensures text != t.description.GetOr("") ==> HasChanges(Some(t), Loaded(t).(description := text))
    ensures text != t.image ==> HasChanges(Some(t), Loaded(t).(image := text))
    ensures day != t.startDay ==> HasChanges(Some(t), Loaded(t).(startMs := Midnight(day)))
    ensures day != t.endDay ==> HasChanges(Some(t), Loaded(t).(endMs := Midnight(day)))
  {
    DayOfMeaning(0, day);
  }

  /** The notice shown when `updateTrip` throws: a message mentioning a past trip gets the
      "modification impossible" notice, any other message is shown as is, and an empty one
      is replaced by a generic text. */
  function UpdateErrorNotice(message: string): (n: Notice)
    ensures Includes(message, "past trip") ==> n == TripFinished
    ensures !Includes(message, "past trip") ==>
      n.title == "Erreur" && n.message == (if message != "" then message else "Impossible de modifier le voyage")
  {
    if Includes(message, "past trip") then TripFinished
    else Notice("Erreur", if message != "" then message else "Impossible de modifier le voyage")
  }

  /** The screen's state. */
  class EditTripScreen {
    var isLoading: bool
    var isSaving: bool
    var originalTrip: Option<EditableTrip>
    var title: string
    var destination: string
    var startMs: int
    var endMs: int
    var description: string
    var image: string
    /** The last alert shown. */
    var alert: Option<Notice>

    function Form(): EditForm
      reads this`title, this`destination, this`startMs, this`endMs, this`description, this`image
    {
      EditForm(title, destination, startMs, endMs, description, image)
    }

    /** Whether the save button is disabled in the current state. */
    function SaveButtonDisabled(): (disabled: bool)
      reads this
      ensures !disabled <==> HasChanges(originalTrip, Form()) && !isSaving
    {
      SaveDisabled(HasChanges(originalTrip, Form()), isSaving)
    }

    /** A fresh screen: loading, empty texts and both dates at the current instant. */
    constructor (nowMs: int)
      ensures isLoading && !isSaving && originalTrip.None? && alert.None?
      ensures Form() == EditForm("", "", nowMs, nowMs, "", "")
    {
      isLoading := true;
      isSaving := false;
      originalTrip := None;
      title, destination := "", "";
      startMs, endMs := nowMs, nowMs;
      description, image := "", "";
      alert := None;
    }

    /** `loadTrip`: the form is filled only from a trip that was found and whose end date is
        not before now; otherwise an alert says why and the form stays as it was. Loading is
        over afterwards either way. */
    method LoadTrip(fetched: Result<Option<EditableTrip>, string>, nowMs: int)
      modifies this
      ensures !isLoading && isSaving == old(isSaving)
      ensures fetched.Err? ==> alert == Some(LoadFailed)
      ensures fetched == Ok(None) ==> alert == Some(NotFound)
      ensures fetched.Ok? && fetched.value.Some? && Midnight(fetched.value.value.endDay) < nowMs ==>
        alert == Some(TripFinished)
      ensures fetched.Ok? && fetched.value.Some? && Midnight(fetched.value.value.endDay) >= nowMs ==>
        && originalTrip == fetched.value
        && Form() == Loaded(fetched.value.value)
        && alert == old(alert)
      ensures !(fetched.Ok? && fetched.value.Some? && Midnight(fetched.value.value.endDay) >= nowMs) ==>
        originalTrip == old(originalTrip) && Form() == old(Form())
    {
      isLoading := true;
      match fetched {
        case Err(_) =>
          alert := Some(LoadFailed);
        case Ok(None) =>
          alert := Some(NotFound);
        case Ok(Some(t)) =>
          if Midnight(t.endDay) < nowMs {
            alert := Some(TripFinished);
          } else {
            originalTrip := Some(t);
            title := t.title;
            destination := t.destination;
            startMs := Midnight(t.startDay);
            endMs := Midnight(t.endDay);
            description := t.description.GetOr("");
            image := t.image;
          }
      }
      isLoading := false;
    }

    /** `handleSave`: nothing is sent when a check fails, and the first failing check is
        reported; otherwise the payload is sent and the outcome of `updateTrip` reported.
        Saving is over afterwards either way. */
    method HandleSave(nowMs: int, updateOutcome: Result<(), string>) returns (sent: Option<EditPayload>)
      modifies this`isSaving, this`alert
      ensures Form() == old(Form())
      ensures CheckEdit(Form(), nowMs).Some? ==>
        sent.None? && alert == Some(ErrorNotice(CheckEdit(Form(), nowMs).value)) && isSaving == old(isSaving)
      ensures CheckEdit(Form(), nowMs).None? ==>
        && sent == Some(Payload(Form()))
        && !isSaving
        && alert == Some(if updateOutcome.Ok? then Saved else UpdateErrorNotice(updateOutcome.error))
    {
      var form := Form();
      var check := CheckEdit(form, nowMs);
      if check.Some? {
        alert := Some(ErrorNotice(check.value));
        sent := None;
        return;
      }
      isSaving := true;
      sent := Some(Payload(form));
      var notice := if updateOutcome.Ok? then Saved else UpdateErrorNotice(updateOutcome.error);
      alert := Some(notice);
      isSaving := false;
    }
  }
}
