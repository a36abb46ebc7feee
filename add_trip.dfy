/**
 * The new-trip form of app/modal/add-trip.tsx: destination suggestions, the
 * checks made before saving, the upload of the chosen photos one after the other,
 * and the trip record handed to `createTrip`.
 *
 * A date picked in the form is kept twice: as the instant the picker returned
 * (what `endDate < startDate` compares) and as its local calendar date (what
 * `formatDate` prints). Which calendar date an instant falls on depends on the
 * device's time zone, which is not part of this model.
 */
module AddTrip {
  import opened Common
  import Api

  // ---------------------------------------------------------------------------
  // Destination suggestions
  // ---------------------------------------------------------------------------

  /** A suggestion of the built-in city list (its coordinates are left out). */
  datatype City = City(city: string, country: string, fullName: string)

  const CommonCities: seq<City> := [
    City("Paris", "France", "Paris, France"),
    City("London", "United Kingdom", "London, United Kingdom"),
    City("New York", "United States", "New York, United States"),
    City("Tokyo", "Japan", "Tokyo, Japan"),
    City("Barcelona", "Spain", "Barcelona, Spain"),
    City("Rome", "Italy", "Rome, Italy"),
    City("Dubai", "United Arab Emirates", "Dubai, United Arab Emirates"),
    City("Sydney", "Australia", "Sydney, Australia"),
    City("Bangkok", "Thailand", "Bangkok, Thailand"),
    City("Amsterdam", "Netherlands", "Amsterdam, Netherlands"),
    City("Berlin", "Germany", "Berlin, Germany"),
    City("Madrid", "Spain", "Madrid, Spain"),
    City("Lisbon", "Portugal", "Lisbon, Portugal"),
    City("Prague", "Czech Republic", "Prague, Czech Republic"),
    City("Vienna", "Austria", "Vienna, Austria"),
    City("Istanbul", "Turkey", "Istanbul, Turkey"),
    City("Singapore", "Singapore", "Singapore, Singapore"),
    City("Hong Kong", "China", "Hong Kong, China"),
    City("Los Angeles", "United States", "Los Angeles, United States"),
    City("Miami", "United States", "Miami, United States"),
    City("Bali", "Indonesia", "Bali, Indonesia"),
    City("Strasbourg", "France", "Strasbourg, France"),
    City("Lyon", "France", "Lyon, France"),
    City("Marseille", "France", "Marseille, France"),
    City("Nice", "France", "Nice, France")
  ]

  const MaxSuggestions := 5

  /** The suggestion list and whether it is shown. */
  datatype Suggestions = Suggestions(items: seq<City>, visible: bool)

  /** The filter of `searchDestination`: the lower-cased city, country or full name
      contains the lower-cased query. */
  predicate MatchesQuery(c: City, query: string) {
    var q := ToLower(query);
    Includes(ToLower(c.city), q) || Includes(ToLower(c.country), q) || Includes(ToLower(c.fullName), q)
  }

  /** `searchDestination` over a list of cities. */
  function Search(cities: seq<City>, query: string): (r: Suggestions)
    ensures |query| < 2 ==> r == Suggestions([], false)
    ensures |r.items| <= MaxSuggestions
    ensures r.visible <==> r.items != []
    ensures forall c :: c in r.items ==> c in cities && MatchesQuery(c, query)
  {
    if |query| < 2 then Suggestions([], false)
    else
      var matching := Filter(cities, (c: City) => MatchesQuery(c, query));
      var items := if |matching| <= MaxSuggestions then matching else matching[..MaxSuggestions];
      Suggestions(items, |items| > 0)
  }

  /** The suggestions are the first matching cities in list order: every match is
      suggested when there are at most five, and five are suggested otherwise. */
  lemma SearchTakesFirstMatches(cities: seq<City>, query: string)
    requires |query| >= 2
    ensures var matching := Filter(cities, (c: City) => MatchesQuery(c, query));
      && Search(cities, query).items == matching[..if |matching| <= MaxSuggestions then |matching| else MaxSuggestions]
      && (|matching| <= MaxSuggestions ==> forall c :: c in cities && MatchesQuery(c, query) ==> c in Search(cities, query).items)
      && (|matching| > MaxSuggestions ==> |Search(cities, query).items| == MaxSuggestions)
  {
    var matching := Filter(cities, (c: City) => MatchesQuery(c, query));
    assert matching[..|matching|] == matching;
  }

  /** The suggestions `searchDestination` shows for a query typed in the destination field. */
  function SearchDestination(query: string): (r: Suggestions)
    ensures |query| < 2 ==> r.items == []
    ensures |r.items| <= MaxSuggestions
    ensures forall c :: c in r.items ==> c in CommonCities && MatchesQuery(c, query)
  {
    Search(CommonCities, query)
  }

  // ---------------------------------------------------------------------------
  // formatDate
  // ---------------------------------------------------------------------------

  /** A local calendar date as `getFullYear`, `getMonth` and `getDate` give it. */
  datatype LocalDate = LocalDate(year: int, monthIndex: int, day: int)

  type CalendarDate = d: LocalDate | 0 <= d.monthIndex < 12 && 1 <= d.day <= 31 witness LocalDate(1970, 0, 1)

  /** `String(n).padStart(2, '0')`. */
  function TwoDigits(n: nat): string {
    PadStart(NatToString(n), 2, '0')
  }

  /** `formatDate`: "" without a date, otherwise year, month and day joined by dashes,
      with the month (counted from 1) and the day padded to two digits. */
  function FormatDate(d: Option<CalendarDate>): (s: string)
    ensures d.None? <==> s == ""
  {
    match d
    case None => ""
    case Some(date) => IntToString(date.year) + "-" + TwoDigits(date.monthIndex + 1) + "-" + TwoDigits(date.day)
  }

  /** Reads back a `YYYY-MM-DD` text with a four-digit year. */
  function ParseDate(s: string): Option<CalendarDate> {
    if |s| == 10 && s[4] == '-' && s[7] == '-' && AllDigits(s[..4]) && AllDigits(s[5..7]) && AllDigits(s[8..])
       && 1 <= ParseNat(s[5..7]) <= 12 && 1 <= ParseNat(s[8..]) <= 31
    then Some(LocalDate(ParseNat(s[..4]), ParseNat(s[5..7]) - 1, ParseNat(s[8..])))
    else None
  }

  lemma {:induction false} TwoDigitsRoundTrip(n: nat)
    requires n < 100
    ensures |TwoDigits(n)| == 2 && AllDigits(TwoDigits(n)) && ParseNat(TwoDigits(n)) == n
  {
    ParseNatToString(n);
    var t := TwoDigits(n);
    if n < 10 {
      assert t == "0" + NatToString(n);
      assert t[..1] == "0";
      assert ParseNat(t) == ParseNat("0") * 10 + DigitValue(t[1]);
      assert [t[1]] == NatToString(n);
    } else {
      assert NatToString(n) == NatToString(n / 10) + [DigitChar(n % 10)];
    }
  }

  lemma FourDigitYear(y: nat)
    requires 1000 <= y <= 9999
    ensures |NatToString(y)| == 4
  {
    assert NatToString(y) == NatToString(y / 10) + [DigitChar(y % 10)];
    assert NatToString(y / 10) == NatToString(y / 100) + [DigitChar(y / 10 % 10)];
    assert NatToString(y / 100) == NatToString(y / 1000) + [DigitChar(y / 100 % 10)];
  }

  /** The pieces of `a-b-c` with a four-character `a` and two-character `b` and `c`. */
  lemma DashedPieces(a: string, b: string, c: string)
    requires |a| == 4 && |b| == 2 && |c| == 2
    ensures var s := a + "-" + b + "-" + c;
      |s| == 10 && s[..4] == a && s[4] == '-' && s[5..7] == b && s[7] == '-' && s[8..] == c
  {
  }

  /** For a four-digit year the text is ten characters, `YYYY-MM-DD`, and reads back to
      the same date; so two different dates never print the same. */
  lemma {:induction false} FormatDateRoundTrip(d: CalendarDate)
    requires 1000 <= d.year <= 9999
    ensures |FormatDate(Some(d))| == 10
    ensures ParseDate(FormatDate(Some(d))) == Some(d)
  {
    var y, m, dd := NatToString(d.year), TwoDigits(d.monthIndex + 1), TwoDigits(d.day);
    FourDigitYear(d.year);
    ParseNatToString(d.year);
    TwoDigitsRoundTrip(d.monthIndex + 1);
    TwoDigitsRoundTrip(d.day);
    DashedPieces(y, m, dd);
    ParseDatePieces(y, m, dd);
    assert FormatDate(Some(d)) == y + "-" + m + "-" + dd;
  }

  lemma ParseDatePieces(a: string, b: string, c: string)
    requires |a| == 4 && |b| == 2 && |c| == 2 && AllDigits(a) && AllDigits(b) && AllDigits(c)
    requires 1 <= ParseNat(b) <= 12 && 1 <= ParseNat(c) <= 31
    ensures ParseDate(a + "-" + b + "-" + c) == Some(LocalDate(ParseNat(a), ParseNat(b) - 1, ParseNat(c)))
  {
    DashedPieces(a, b, c);
  }

  // ---------------------------------------------------------------------------
  // validateForm
  // ---------------------------------------------------------------------------

  /** A date chosen in the form: the picked instant and its local calendar date. */
  datatype PickedDate = PickedDate(instant: int, local: CalendarDate)

  datatype TripForm = TripForm(
    title: string,
    destination: string,
    startDate: Option<PickedDate>,
    endDate: Option<PickedDate>,
    description: string,
    selectedImages: seq<string>)

  /** The reasons `validateForm` refuses a form, in the order it checks them. */
  datatype FormError = MissingTitle | MissingDestination | MissingStartDate | MissingEndDate | EndBeforeStart | NoPhoto

  function Rank(e: FormError): nat {
    match e
    case MissingTitle => 0
    case MissingDestination => 1
    case MissingStartDate => 2
    case MissingEndDate => 3
    case EndBeforeStart => 4
    case NoPhoto => 5
  }

  /** The condition each check of `validateForm` tests, on its own. */
  predicate Fails(e: FormError, f: TripForm) {
    match e
    case MissingTitle => Trim(f.title) == ""
    case MissingDestination => Trim(f.destination) == ""
    case MissingStartDate => f.startDate.None?
    case MissingEndDate => f.endDate.None?
    case EndBeforeStart => f.startDate.Some? && f.endDate.Some? && f.endDate.value.instant < f.startDate.value.instant
    case NoPhoto => f.selectedImages == []
  }

  /** `validateForm`: the first check that fails, or nothing when the form can be saved. */
  function ValidateForm(f: TripForm): (r: Option<FormError>)
    ensures r.Some? ==> Fails(r.value, f)
  {
    if Trim(f.title) == "" then Some(MissingTitle)
    else if Trim(f.destination) == "" then Some(MissingDestination)
    else if f.startDate.None? then Some(MissingStartDate)
    else if f.endDate.None? then Some(MissingEndDate)
    else if f.endDate.value.instant < f.startDate.value.instant then Some(EndBeforeStart)
    else if f.selectedImages == [] then Some(NoPhoto)
    else None
  }

  /** The form is refused exactly when some check fails, and then for the first failing
      check in the order title, destination, start date, end date, date order, photo. */
  lemma ValidateFormFirstFailure(f: TripForm)
    ensures ValidateForm(f).None? <==> forall e :: !Fails(e, f)
    ensures ValidateForm(f).Some? ==>
      Fails(ValidateForm(f).value, f) && forall e :: Rank(e) < Rank(ValidateForm(f).value) ==> !Fails(e, f)
  {
    var r := ValidateForm(f);
    if r.Some? {
      assert Fails(r.value, f);
    }
    forall e | Rank(e) < (if r.Some? then Rank(r.value) else 6) ensures !Fails(e, f) {
      match e
      case MissingTitle =>
      case MissingDestination =>
      case MissingStartDate =>
      case MissingEndDate =>
      case EndBeforeStart =>
      case NoPhoto =>
    }
  }

  /** A valid form has a non-blank title and destination, both dates in order and a photo. */
  lemma ValidFormFacts(f: TripForm)
    requires ValidateForm(f).None?
    ensures !IsBlank(f.title) && !IsBlank(f.destination)
    ensures f.startDate.Some? && f.endDate.Some? && f.startDate.value.instant <= f.endDate.value.instant
    ensures f.selectedImages != []
  {
    ValidateFormFirstFailure(f);
    assert !Fails(MissingTitle, f) && !Fails(MissingDestination, f) && !Fails(EndBeforeStart, f);
    TrimEmptyIffBlank(f.title);
    TrimEmptyIffBlank(f.destination);
  }

  // ---------------------------------------------------------------------------
  // uploadImages
  // ---------------------------------------------------------------------------

  /** `Math.round((done / total) * 100)`, computed exactly: round half up of 100·done/total. */
  function Percent(done: nat, total: nat): (p: int)
    requires total > 0
    ensures 2 * total * p <= 200 * done + total < 2 * total * (p + 1)
  {
    (200 * done + total) / (2 * total)
  }

  /** The progress shown never goes down, stays between 0 and 100, and is 100 when all is done. */
  lemma PercentProperties(done1: nat, done2: nat, total: nat)
    requires 0 < total && done1 <= done2 <= total
    ensures 0 <= Percent(done1, total) <= Percent(done2, total) <= 100
    ensures Percent(total, total) == 100
  {
    var d := 2 * total;
    DivMonotone(200 * done1 + total, 200 * done2 + total, d);
    DivMonotone(200 * done2 + total, 200 * total + total, d);
    assert 200 * total + total == 100 * d + total;
    assert (100 * d + total) / d == 100 by {
      assert 100 * d <= 100 * d + total < 101 * d;
      DivBetween(100 * d + total, d, 100);
    }
  }

  lemma DivMonotone(a: int, b: int, d: int)
    requires 0 <= a <= b && d > 0
    ensures a / d <= b / d
  {
    var qa, qb := a / d, b / d;
    assert a == d * qa + a % d && b == d * qb + b % d;
    if qa > qb {
      MulMonotone(d, qb + 1, qa);
    }
  }

  lemma {:induction false} MulMonotone(d: nat, x: int, y: int)
    requires x <= y
    ensures d * x <= d * y
  {
    if d > 0 {
      MulMonotone(d - 1, x, y);
      assert d * x == (d - 1) * x + x && d * y == (d - 1) * y + y;
    }
  }

  lemma DivBetween(a: int, d: int, q: int)
    requires d > 0 && q * d <= a < (q + 1) * d
    ensures a / d == q
  {
    var r := a / d;
    assert a == d * r + a % d && 0 <= a % d < d;
    if r < q {
      MulMonotone(d, r + 1, q);
    } else if r > q {
      MulMonotone(d, q + 1, r);
    }
  }

  /** The photos uploaded and the cover image: the first uploaded URL, or "" without photos. */
  datatype Uploaded = Uploaded(photos: seq<string>, coverImage: string)

  /** What uploading the chosen images one after the other yields: every URL in order,
      or the error of the first upload that failed. */
  function UploadAll(selected: seq<string>, responses: seq<Api.HttpOutcome<string>>): (r: Result<seq<string>, string>)
    requires |responses| == |selected|
    ensures r.Ok? ==> |r.value| == |selected|
  {
    if selected == [] then Ok([])
    else
      match Api.UploadImage(selected[0], responses[0])
      case Err(m) => Err(m)
      case Ok(url) =>
        match UploadAll(selected[1..], responses[1..])
        case Err(m) => Err(m)
        case Ok(urls) => Ok([url] + urls)
  }

  /** The URLs already uploaded, followed by what the remaining uploads yield. */
  function Prepend(done: seq<string>, rest: Result<seq<string>, string>): Result<seq<string>, string> {
    match rest
    case Ok(urls) => Ok(done + urls)
    case Err(m) => Err(m)
  }

  lemma UploadStep(selected: seq<string>, responses: seq<Api.HttpOutcome<string>>, done: seq<string>, i: nat)
    requires |responses| == |selected| && i < |selected|
    ensures var u := Api.UploadImage(selected[i], responses[i]);
      && (u.Err? ==> Prepend(done, UploadAll(selected[i..], responses[i..])) == Err(u.error))
      && (u.Ok? ==> Prepend(done, UploadAll(selected[i..], responses[i..]))
                    == Prepend(done + [u.value], UploadAll(selected[i + 1..], responses[i + 1..])))
  {
    assert selected[i..][0] == selected[i] && responses[i..][0] == responses[i];
    assert selected[i..][1..] == selected[i + 1..] && responses[i..][1..] == responses[i + 1..];
    var rest := UploadAll(selected[i + 1..], responses[i + 1..]);
    var u := Api.UploadImage(selected[i], responses[i]);
    if rest.Ok? && u.Ok? {
      assert done + ([u.value] + rest.value) == done + [u.value] + rest.value;
    }
  }

  /** Uploading succeeds exactly when every upload does, and then yields the server's URLs
      in the order of the images; otherwise it yields the first failure's message. */
  lemma {:induction false} UploadAllMeaning(selected: seq<string>, responses: seq<Api.HttpOutcome<string>>)
    requires |responses| == |selected|
    ensures UploadAll(selected, responses).Ok? <==> forall i :: 0 <= i < |selected| ==> responses[i].Delivered?
    ensures UploadAll(selected, responses).Ok? ==>
      forall i :: 0 <= i < |selected| ==> UploadAll(selected, responses).value[i] == responses[i].body
    ensures UploadAll(selected, responses).Err? ==>
      exists k :: 0 <= k < |selected| && (forall i :: 0 <= i < k ==> responses[i].Delivered?)
                  && Api.UploadImage(selected[k], responses[k]) == Err(UploadAll(selected, responses).error)
  {
    if selected != [] {
      UploadAllMeaning(selected[1..], responses[1..]);
      var rest := UploadAll(selected[1..], responses[1..]);
      assert forall i :: 0 < i < |selected| ==> responses[1..][i - 1] == responses[i];
      if responses[0].Delivered? && rest.Err? {
        var k :| 0 <= k < |selected| - 1 && (forall i :: 0 <= i < k ==> responses[1..][i].Delivered?)
                 && Api.UploadImage(selected[1..][k], responses[1..][k]) == Err(rest.error);
        assert Api.UploadImage(selected[k + 1], responses[k + 1]) == Err(rest.error);
      }
    }
  }

  /** `uploadImages`: uploads the chosen images in order, records each URL, takes the first as
      cover, and reports the rounded percentage after each upload. An upload error stops the
      loop and is passed on; the progress reported up to then stays. */
  method UploadImages(selected: seq<string>, responses: seq<Api.HttpOutcome<string>>)
    returns (r: Result<Uploaded, string>, progress: seq<int>)
    requires |responses| == |selected|
    ensures UploadAll(selected, responses).Ok? ==>
      && r == Ok(Uploaded(UploadAll(selected, responses).value,
                          if selected == [] then "" else UploadAll(selected, responses).value[0]))
      && |progress| == |selected|
    ensures UploadAll(selected, responses).Err? ==>
      r == Err(UploadAll(selected, responses).error) && |progress| < |selected|
    ensures forall i :: 0 <= i < |progress| ==> progress[i] == Percent(i + 1, |selected|)
  {
    var uploadedPhotos: seq<string> := [];
    var coverImage := "";
    progress := [];
    if |selected| > 0 {
      var total := |selected|;
      var i := 0;
      assert selected[0..] == selected && responses[0..] == responses;
      assert Prepend([], UploadAll(selected, responses)) == UploadAll(selected, responses) by {
        if UploadAll(selected, responses).Ok? {
          assert [] + UploadAll(selected, responses).value == UploadAll(selected, responses).value;
        }
      }
      while i < |selected|
        invariant 0 <= i <= |selected|
        invariant |uploadedPhotos| == i == |progress|
        invariant UploadAll(selected, responses) == Prepend(uploadedPhotos, UploadAll(selected[i..], responses[i..]))
        invariant i > 0 ==> coverImage == uploadedPhotos[0]
        invariant forall j :: 0 <= j < i ==> progress[j] == Percent(j + 1, total)
      {
        var uploaded := Api.UploadImage(selected[i], responses[i]);
        UploadStep(selected, responses, uploadedPhotos, i);
        if uploaded.Err? {
          r := Err(uploaded.error);
          return;
        }
        uploadedPhotos := uploadedPhotos + [uploaded.value];
        if i == 0 {
          coverImage := uploaded.value;
        }
        progress := progress + [Percent(i + 1, total)];
        i := i + 1;
      }
      assert selected[i..] == [] && responses[i..] == [];
      assert uploadedPhotos + [] == uploadedPhotos;
    } else {
      assert UploadAll(selected, responses) == Ok([]);
    }
    r := Ok(Uploaded(uploadedPhotos, coverImage));
  }

  // ---------------------------------------------------------------------------
  // getLocation's address
  // ---------------------------------------------------------------------------

  /** `a || b` on optional strings: the empty string counts as absent. */
  function OrElse(a: Option<string>, b: string): string {
    if a.Some? && a.value != "" then a.value else b
  }

  /** The destination `getLocation` fills in from the first reverse-geocoded address:
      city (or place name), a comma only when both city and country are known, then the
      country, all trimmed. */
  function FormatAddress(city: Option<string>, name: Option<string>, country: Option<string>): (s: string)
    ensures var c := OrElse(city, OrElse(name, "")); var k := OrElse(country, "");
      && (k == "" ==> s == Trim(c))
      && (c == "" ==> s == Trim(k))
  {
    var c := OrElse(city, OrElse(name, ""));
    var k := OrElse(country, "");
    assert c + "" == c && "" + k == k;
    Trim(c + (if c != "" && k != "" then ", " else "") + k)
  }

  /** With both a place and a country that carry no surrounding white space, the address
      is `place, country`. */
  lemma AddressJoinsPlaceAndCountry(city: Option<string>, name: Option<string>, country: Option<string>)
    requires var c := OrElse(city, OrElse(name, "")); var k := OrElse(country, "");
      c != "" && k != "" && !IsSpace(c[0]) && !IsSpace(k[|k| - 1])
    ensures FormatAddress(city, name, country) == OrElse(city, OrElse(name, "")) + ", " + OrElse(country, "")
  {
    var c := OrElse(city, OrElse(name, ""));
    var k := OrElse(country, "");
    var s := c + ", " + k;
    assert s[0] == c[0] && s[|s| - 1] == k[|k| - 1];
    TrimOfTrimmed(s);
  }

  // ---------------------------------------------------------------------------
  // handleSaveTrip
  // ---------------------------------------------------------------------------

  /** The record `handleSaveTrip` passes to `createTrip`. */
  function TripPayload(f: TripForm, up: Uploaded): (t: Api.Trip)
    requires f.startDate.Some? && f.endDate.Some?
    ensures t.title == f.title && t.destination == f.destination && t.description == f.description
    ensures t.startDate == FormatDate(Some(f.startDate.value.local)) && t.endDate == FormatDate(Some(f.endDate.value.local))
    ensures t.image == Some(up.coverImage) && t.photos == Some(up.photos)
  {
    Api.Trip(f.title, f.destination, FormatDate(Some(f.startDate.value.local)), FormatDate(Some(f.endDate.value.local)),
             f.description, Some(up.coverImage), Some(up.photos))
  }

  datatype SaveOutcome = Invalid(reason: FormError) | NotSignedIn | Failed(message: string) | Created(trip: Api.StoredTrip)

  /** `handleSaveTrip`: nothing is uploaded or created when the form is invalid or the user is
      not signed in; an upload or creation error is reported; otherwise the created trip. */
  method HandleSaveTrip(f: TripForm, isAuthenticated: bool, store: Api.OfflineStore, uploads: seq<Api.HttpOutcome<string>>,
                        accessToken: Option<string>, now: nat, createReply: Api.HttpOutcome<Api.StoredTrip>)
    returns (outcome: SaveOutcome)
    requires |uploads| == |f.selectedImages|
    modifies store`queue
    ensures ValidateForm(f).Some? ==> outcome == Invalid(ValidateForm(f).value) && store.queue == old(store.queue)
    ensures ValidateForm(f).None? && !isAuthenticated ==> outcome == NotSignedIn && store.queue == old(store.queue)
    ensures ValidateForm(f).None? && isAuthenticated && UploadAll(f.selectedImages, uploads).Err? ==>
      outcome == Failed(UploadAll(f.selectedImages, uploads).error) && store.queue == old(store.queue)
    ensures ValidateForm(f).None? && isAuthenticated && UploadAll(f.selectedImages, uploads).Ok? ==>
      var photos := UploadAll(f.selectedImages, uploads).value;
      var payload := TripPayload(f, Uploaded(photos, photos[0]));
      && (old(store.online) ==>
            && store.queue == old(store.queue)
            && outcome == match Api.Reply(createReply, Api.CreateFailed)
                          case Ok(t) => Created(t)
                          case Err(m) => Failed(m))
      && (!old(store.online) ==>
            && store.queue == old(store.queue) + [Api.QueuedAction(Api.Create, "/trips", Api.POST, Api.WholeTrip(payload))]
            && outcome == Created(Api.StoredTrip(Api.LocalId(now), payload)))
  {
    var invalid := ValidateForm(f);
    if invalid.Some? {
      return Invalid(invalid.value);
    }
    if !isAuthenticated {
      return NotSignedIn;
    }
    var up, _ := UploadImages(f.selectedImages, uploads);
    if up.Err? {
      return Failed(up.error);
    }
    var payload := TripPayload(f, up.value);
    var created, _ := Api.CreateTrip(store, payload, accessToken, now, createReply);
    match created
    case Ok(t) => outcome := Created(t);
    case Err(m) => outcome := Failed(m);
  }
}
