/** The client's edit form: the date written for the date input, the form
    filled from a record, field edits, and the update request built on
    submit. */
module EditForm {
  import opened Dates
  import opened Opt
  import opened Ranker
  import opened DetailViews
  import Text

  /** `formatDateForInput`: "" without a (valid) date, otherwise
      `year-MM-DD` with month and day padded to two digits. */
  function FormatDateForInput(date: Option<CalDate>): (r: string)
    ensures date.None? <==> r == ""
    ensures date.Some? && date.value.year >= 0 ==> Text.ParseYmd(r) == Some(date.value)
  {
    match date
    case None => ""
    case Some(d) =>
      if d.year >= 0 then
        Text.ParseFormatYmd(d.year, d.month, d.day);
        Text.FormatYmd(d.year, d.month, d.day)
      else Text.FormatYmd(d.year, d.month, d.day)
  }

  /** The month field is always 01 to 12 and the day field 01 to 31. */
  lemma FormatDateFields(d: CalDate)
    ensures var r := FormatDateForInput(Some(d));
      |r| >= 7 && r[|r| - 3] == '-' && r[|r| - 6] == '-'
      && Text.AllDigits(r[|r| - 5..|r| - 3]) && 1 <= Text.ValueOf(r[|r| - 5..|r| - 3]) <= 12
      && Text.AllDigits(r[|r| - 2..]) && 1 <= Text.ValueOf(r[|r| - 2..]) <= 31
  {
    var ys := Text.IntToString(d.year);
    var r := FormatDateForInput(Some(d));
    assert r == ys + "-" + Text.Pad2(d.month) + "-" + Text.Pad2(d.day);
    assert r[|r| - 5..|r| - 3] == Text.Pad2(d.month);
    assert r[|r| - 2..] == Text.Pad2(d.day);
  }

  /** The form's fields, by the names its inputs carry. */
  datatype FormField =
    | Name | Nickname | DateField | PhoneNumber | Relationship | Zodiac | Photo
    | PersonalizedMessage | FavoriteColor | Hobbies | GiftIdeas | Notes

  /** The form's state: one text per field. */
  datatype Form = Form(
    name: string, nickname: string, date: string, phoneNumber: string,
    relationship: string, zodiac: string, photo: string,
    personalizedMessage: string, favoriteColor: string, hobbies: string,
    giftIdeas: string, notes: string)

  function Get(form: Form, f: FormField): string {
    match f
    case Name => form.name
    case Nickname => form.nickname
    case DateField => form.date
    case PhoneNumber => form.phoneNumber
    case Relationship => form.relationship
    case Zodiac => form.zodiac
    case Photo => form.photo
    case PersonalizedMessage => form.personalizedMessage
    case FavoriteColor => form.favoriteColor
    case Hobbies => form.hobbies
    case GiftIdeas => form.giftIdeas
    case Notes => form.notes
  }

  /** `{ ...form, [name]: value }`: the named field takes the value, every
      other field keeps its own. */
  function Set(form: Form, f: FormField, value: string): (r: Form)
    ensures Get(r, f) == value
    ensures forall g :: g != f ==> Get(r, g) == Get(form, g)
  {
    match f
    case Name => form.(name := value)
    case Nickname => form.(nickname := value)
    case DateField => form.(date := value)
    case PhoneNumber => form.(phoneNumber := value)
    case Relationship => form.(relationship := value)
    case Zodiac => form.(zodiac := value)
    case Photo => form.(photo := value)
    case PersonalizedMessage => form.(personalizedMessage := value)
    case FavoriteColor => form.(favoriteColor := value)
    case Hobbies => form.(hobbies := value)
    case GiftIdeas => form.(giftIdeas := value)
    case Notes => form.(notes := value)
  }

  /** The empty form; the relationship starts as "Friend". */
  const EmptyForm := Form("", "", "", "", "Friend", "", "", "", "", "", "", "")

  /** The optional text a record holds for a field (None for the fields
      that are not optional text). */
  function OptionalText(b: Birthday, f: FormField): Option<string> {
    match f
    case Nickname => b.nickname
    case PhoneNumber => b.phoneNumber
    case Zodiac => b.zodiac
    case PersonalizedMessage => b.personalizedMessage
    case FavoriteColor => b.favoriteColor
    case Hobbies => b.hobbies
    case GiftIdeas => b.giftIdeas
    case Notes => b.notes
    case _ => None
  }

  predicate IsOptionalText(f: FormField) {
    !(f.Name? || f.DateField? || f.Relationship? || f.Photo?)
  }

  /** The form filled from a record: the name and photo as they are, the
      date written for the date input, a missing relationship as "Friend",
      and every other field as the record's text, or "" when it has none. */
  function Prefilled(b: Birthday): (r: Form)
    ensures r.name == b.name && r.photo == b.photo
    ensures r.date == FormatDateForInput(b.date)
    ensures r.relationship == (if Truthy(b.relationship) then b.relationship.value else "Friend")
    ensures forall f :: IsOptionalText(f) ==>
      (Truthy(OptionalText(b, f)) ==> Get(r, f) == OptionalText(b, f).value)
      && (!Truthy(OptionalText(b, f)) ==> Get(r, f) == "")
  {
    Form(
      b.name,
      OrElse(b.nickname, ""),
      FormatDateForInput(b.date),
      OrElse(b.phoneNumber, ""),
      OrElse(b.relationship, "Friend"),
      OrElse(b.zodiac, ""),
      b.photo,
      OrElse(b.personalizedMessage, ""),
      OrElse(b.favoriteColor, ""),
      OrElse(b.hobbies, ""),
      OrElse(b.giftIdeas, ""),
      OrElse(b.notes, ""))
  }

  /** `new Date(value).toISOString()` for the value of a date input: a
      `YYYY-MM-DD` date is read as midnight UTC; anything else is an invalid
      date, for which `toISOString` throws. */
  function IsoDate(value: string): (r: Option<string>)
    ensures r.Some? <==> |value| == 10 && Text.ParseYmd(value).Some? && ValidDate(Text.ParseYmd(value).value)
    ensures r.Some? ==> r.value == value + "T00:00:00.000Z"
  {
    var parsed := Text.ParseYmd(value);
    if |value| == 10 && parsed.Some? && ValidDate(parsed.value) then Some(value + "T00:00:00.000Z") else None
  }

  datatype UpdateRequest = UpdateRequest(id: Option<int>, data: Form)

  datatype SubmitOutcome = Request(request: UpdateRequest) | InvalidDate

  /** `handleSubmit`'s request: the form with the phone reduced to its digits
      and the date as an ISO timestamp, for the id `parseInt` read from the
      route; an invalid date fails before any request. */
  function SubmitRequest(form: Form, routeId: Option<int>): (r: SubmitOutcome)
    ensures r.InvalidDate? <==> IsoDate(form.date).None?
    ensures r.Request? ==>
      && r.request.id == routeId
      && Text.AllDigits(r.request.data.phoneNumber)
      && r.request.data.phoneNumber == Text.DigitsOf(form.phoneNumber)
      && r.request.data.date == IsoDate(form.date).value
      && forall f :: f != PhoneNumber && f != DateField ==> Get(r.request.data, f) == Get(form, f)
  {
    match IsoDate(form.date)
    case None => InvalidDate
    case Some(iso) =>
      Request(UpdateRequest(routeId, Set(Set(form, PhoneNumber, Text.DigitsOf(form.phoneNumber)), DateField, iso)))
  }

  /** Opening the form on a record with a date in years 1000 to 9999 and
      submitting it unchanged sends that date back as midnight UTC of the
      same day, and the record's phone reduced to digits. */
  lemma EditUnchangedRoundTrip(b: Birthday, routeId: Option<int>)
    requires b.date.Some? && 1000 <= b.date.value.year <= 9999
    ensures var r := SubmitRequest(Prefilled(b), routeId);
      && r.Request?
      && r.request.data.date == Text.FormatYmd(b.date.value.year, b.date.value.month, b.date.value.day) + "T00:00:00.000Z"
      && r.request.data.phoneNumber == Text.DigitsOf(OrElse(b.phoneNumber, ""))
  {
    var d := b.date.value;
    var s := FormatDateForInput(b.date);
    assert s == Text.NatToString(d.year) + "-" + Text.Pad2(d.month) + "-" + Text.Pad2(d.day);
    FourDigits(d.year);
    assert Text.ParseYmd(s) == Some(d);
  }

  lemma FourDigits(y: nat)
    requires 1000 <= y <= 9999
    ensures |Text.NatToString(y)| == 4
  {
    Text.NatToStringLength(y);
    Text.NatToStringLength(y / 10);
    Text.NatToStringLength(y / 100);
    assert 1 <= y / 1000 < 10;
  }

  /** The form state of the edit page. */
  class EditPage {
    var form: Form

    constructor ()
      ensures form == EmptyForm
    {
      form := EmptyForm;
    }

    /** The prefill effect: when the route id names a record, the form is
      filled from it; otherwise it stays as it is. */
    method Prefill(bs: seq<Birthday>, routeId: Option<int>)
      modifies this
      ensures FindById(bs, routeId).Some? ==> form == Prefilled(FindById(bs, routeId).value)
      ensures FindById(bs, routeId).None? ==> form == old(form)
    {
      var found := FindById(bs, routeId);
      if found.Some? {
        form := Prefilled(found.value);
      }
    }

    /** `handleChange`: one field takes the typed value. */
    method HandleChange(field: FormField, value: string)
      modifies this
      ensures form == Set(old(form), field, value)
    {
      form := Set(form, field, value);
    }

    /** `handleSubmit`: the request to send, or the invalid-date failure;
      the form itself is left as it is. */
    method HandleSubmit(routeId: Option<int>) returns (r: SubmitOutcome)
      ensures r == SubmitRequest(form, routeId)
    {
      r := SubmitRequest(form, routeId);
    }
  }
}
