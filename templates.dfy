/** The three invitation renderers of index.js: `getBirthdayTemplate`,
    `getEventTemplate` and `getKwibukaTemplate`. Each is a template literal:
    fixed markup (abbreviated here, with `...` where a style sheet or static
    markup stands) with the request's fields spliced in, unescaped. */
module Templates {
  import opened Wrappers
  import opened Layout
  import KwibukaDate

  /** A request body after the server has added its asset URIs: field name to
      field value. */
  type Fields = map<string, string>

  /** What `${data.key}` renders: the value, or `undefined` when the field is
      absent. */
  function Field(data: Fields, key: string): string {
    if key in data then data[key] else "undefined"
  }

  /** The values of `keys`, in order. */
  function Values(data: Fields, keys: seq<string>): (vals: seq<string>)
    ensures |vals| == |keys|
    ensures forall k :: 0 <= k < |keys| ==> vals[k] == Field(data, keys[k])
  {
    if keys == [] then [] else [Field(data, keys[0])] + Values(data, keys[1..])
  }

  /** In a template filled with the fields `keys`, the `k`-th field sits
      verbatim at the `k`-th hole. */
  lemma {:induction false} FieldAt(segs: seq<string>, data: Fields, keys: seq<string>, k: nat)
    requires |segs| == |keys| + 1 && k < |keys|
    ensures var vals := Values(data, keys);
      var h := HoleStart(segs, vals, k);
      h + |Field(data, keys[k])| <= |Fill(segs, vals)| &&
      Fill(segs, vals)[h..h + |Field(data, keys[k])|] == Field(data, keys[k])
  {
    FillAt(segs, Values(data, keys), k);
  }

  // ---------------------------------------------------------------- birthday

  /** The fields `getBirthdayTemplate` splices in, in order of appearance. */
  const BirthdayFields := ["birthdayBg", "birthdayLogo", "image", "name", "message"]

  const BirthdaySegments := [
    "<!DOCTYPE html>...url('",
    "')...<img src=\"",
    "\" class=\"logo\"...<img src=\"",
    "\" alt=\"Moment\">...<div class=\"recipient-name\">",
    "</div>...<div class=\"message-container\">",
    "</div>...</html>"
  ]

  /** `getBirthdayTemplate(data)`. */
  function Birthday(data: Fields): string {
    Fill(BirthdaySegments, Values(data, BirthdayFields))
  }

  /** Each birthday field (background, logo, photo, name, message) appears
      verbatim, unescaped, at its place in the page. */
  lemma {:induction false} BirthdayVerbatim(data: Fields, k: nat)
    requires k < |BirthdayFields|
    ensures var h := HoleStart(BirthdaySegments, Values(data, BirthdayFields), k);
      h + |Field(data, BirthdayFields[k])| <= |Birthday(data)| &&
      Birthday(data)[h..h + |Field(data, BirthdayFields[k])|] == Field(data, BirthdayFields[k])
  {
    FieldAt(BirthdaySegments, data, BirthdayFields, k);
  }

  /** The birthday page depends on its five fields and on nothing else in the
      request. */
  lemma {:induction false} BirthdayReadsOnlyItsFields(d1: Fields, d2: Fields)
    requires forall k :: 0 <= k < |BirthdayFields| ==> Field(d1, BirthdayFields[k]) == Field(d2, BirthdayFields[k])
    ensures Birthday(d1) == Birthday(d2)
  {
    assert Values(d1, BirthdayFields) == Values(d2, BirthdayFields);
  }

  // ------------------------------------------------------------------- event

  datatype Weekday = Sunday | Monday | Tuesday | Wednesday | Thursday | Friday | Saturday

  /** The `en-US` long weekday name. */
  function WeekdayName(d: Weekday): string {
    match d
    case Sunday => "Sunday"
    case Monday => "Monday"
    case Tuesday => "Tuesday"
    case Wednesday => "Wednesday"
    case Thursday => "Thursday"
    case Friday => "Friday"
    case Saturday => "Saturday"
  }

  /** Reads a weekday back from its name. */
  function WeekdayOfName(name: string): (d: Option<Weekday>)
    ensures d.Some? ==> WeekdayName(d.value) == name
  {
    if name == "Sunday" then Some(Sunday)
    else if name == "Monday" then Some(Monday)
    else if name == "Tuesday" then Some(Tuesday)
    else if name == "Wednesday" then Some(Wednesday)
    else if name == "Thursday" then Some(Thursday)
    else if name == "Friday" then Some(Friday)
    else if name == "Saturday" then Some(Saturday)
    else None
  }

  /** Names are distinct: the name gives the weekday back. */
  lemma WeekdayNameRoundTrip(d: Weekday)
    ensures WeekdayOfName(WeekdayName(d)) == Some(d)
  {
  }

  /** The host's date parser: `new Date(s)` followed by the validity check,
      giving the weekday of a valid date and `None` for an invalid one. */
  type DayParser = string -> Option<Weekday>

  /** The weekday of `eventDay`, when it is present and parses to a valid
      date. An absent field is `new Date(undefined)`, an invalid date. */
  function EventWeekday(data: Fields, parse: DayParser): Option<Weekday> {
    if "eventDay" in data then parse(data["eventDay"]) else None
  }

  /** The `weekday` label: "Saturday" unless `eventDay` is a valid date, in
      which case it is that date's weekday name. */
  function WeekdayLabel(data: Fields, parse: DayParser): (weekday: string)
    ensures WeekdayOfName(weekday).Some?
    ensures EventWeekday(data, parse).Some? ==> weekday == WeekdayName(EventWeekday(data, parse).value)
    ensures weekday == "Saturday" <==> EventWeekday(data, parse) in {None, Some(Saturday)}
  {
    match EventWeekday(data, parse)
    case None => "Saturday"
    case Some(d) => WeekdayName(d)
  }

  /** The fields of `getEventTemplate` and the weekday label, in order of
      appearance; index 3 is the weekday label. */
  const EventFields := ["eventBg", "eventLogo", "hostingFamily", "weekday", "eventDay", "eventDate", "location"]

  const EventSegments := [
    "<!DOCTYPE html>...url('",
    "')...<img src=\"",
    "\" class=\"logo\"...<div class=\"main-title\">",
    "</div>...<div class=\"script-date\">on ",
    "</div>...<div class=\"date-numeric\">",
    "</div>...<div class=\"event-time\">",
    "</div>...<div class=\"date-numeric\" ...>",
    "</div>...</html>"
  ]

  /** The values the event template splices in: the request's fields, with
      the computed weekday label in the `weekday` slot. */
  function EventValues(data: Fields, parse: DayParser): seq<string> {
    Values(data, EventFields)[3 := WeekdayLabel(data, parse)]
  }

  /** `getEventTemplate(data)`. */
  function Event(data: Fields, parse: DayParser): string {
    Fill(EventSegments, EventValues(data, parse))
  }

  /** The event page shows the background and logo URIs, the host family,
      the weekday label (after "on "), the event day, the event date and the
      location, each verbatim and unescaped at its hole. */
  lemma {:induction false} EventVerbatim(data: Fields, parse: DayParser, k: nat)
    requires k < |EventFields|
    ensures var v := if k == 3 then WeekdayLabel(data, parse) else Field(data, EventFields[k]);
      var h := HoleStart(EventSegments, EventValues(data, parse), k);
      h + |v| <= |Event(data, parse)| && Event(data, parse)[h..h + |v|] == v
  {
    var vals := EventValues(data, parse);
    FillAt(EventSegments, vals, k);
    assert vals[k] == if k == 3 then WeekdayLabel(data, parse) else Field(data, EventFields[k]);
  }

  // ----------------------------------------------------------------- kwibuka

  /** The fields of `getKwibukaTemplate` and the date line, in order of
      appearance; index 3 is the formatted `date`. The destructured
      `messageOfHope` and `imenaLogo` are never used. */
  const KwibukaFields := ["kwibukaBg", "kwibukaIcon", "years", "date", "venue"]

  const KwibukaSegments := [
    "<!DOCTYPE html>...url('",
    "')...<img src=\"",
    "\" class=\"kwibuka-logo\"...<span>KWIBUKA</span>...<span>",
    "</span>...<div class=\"date-container\">",
    "</div>...<div class=\"venue-name\">",
    "</div>...</html>"
  ]

  /** The message of the TypeError that `undefined.split(...)` throws. */
  const UndefinedDateError := "Cannot read properties of undefined (reading 'split')"

  /** The values the Kwibuka template splices in, given the date line the
      `map`/`join` over the date produced. */
  function KwibukaValues(data: Fields, dateLine: string): seq<string> {
    Values(data, KwibukaFields)[3 := dateLine]
  }

  /** The Kwibuka page around a given date line. */
  function KwibukaPage(data: Fields, dateLine: string): string {
    Fill(KwibukaSegments, KwibukaValues(data, dateLine))
  }

  /** `getKwibukaTemplate(data)`: fails as JavaScript does when there is no
      `date` to split. */
  function Kwibuka(data: Fields): Result<string> {
    if "date" !in data then Err(UndefinedDateError)
    else Ok(KwibukaPage(data, KwibukaDate.FormatDate(data["date"])))
  }

  /** With a `date`, the Kwibuka page shows the background and icon URIs,
      the years, the formatted date line (in the date container) and the
      venue, each verbatim and unescaped at its hole. */
  lemma {:induction false} KwibukaVerbatim(data: Fields, k: nat)
    requires k < |KwibukaFields| && "date" in data
    ensures Kwibuka(data).Ok?
    ensures var line := KwibukaDate.FormatDate(data["date"]);
      var v := if k == 3 then line else Field(data, KwibukaFields[k]);
      var page := Kwibuka(data).value;
      var h := HoleStart(KwibukaSegments, KwibukaValues(data, line), k);
      h + |v| <= |page| && page[h..h + |v|] == v
  {
    var line := KwibukaDate.FormatDate(data["date"]);
    KwibukaPageAt(data, line, k);
    assert Kwibuka(data) == Ok(KwibukaPage(data, line));
  }

  lemma {:induction false} KwibukaPageAt(data: Fields, dateLine: string, k: nat)
    requires k < |KwibukaFields|
    ensures var v := if k == 3 then dateLine else Field(data, KwibukaFields[k]);
      var h := HoleStart(KwibukaSegments, KwibukaValues(data, dateLine), k);
      h + |v| <= |KwibukaPage(data, dateLine)| && KwibukaPage(data, dateLine)[h..h + |v|] == v
  {
    var vals := KwibukaValues(data, dateLine);
    FillAt(KwibukaSegments, vals, k);
    assert vals[k] == if k == 3 then dateLine else Field(data, KwibukaFields[k]);
  }
}
