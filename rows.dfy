/** What the server handlers compute from a request before touching a store:
    the login check, the phone rule, the column values of a new row, the
    COALESCE update of an existing one, and the asset id inside a photo URL. */
module Rows {
  import opened Opt
  import Text

  /** A handler's answer: the HTTP status and the `error` text ("" on success). */
  datatype Reply = Reply(status: nat, error: string)

  datatype Result<T> = Ok(value: T) | Err(message: string)

  /** `checkLoggedIn`: a request whose `user-id` header is missing or empty is
      refused with 401 "Not logged in"; otherwise the header is the user id. */
  function CheckLoggedIn(userHeader: Option<string>): (r: Result<string>)
    ensures r.Err? <==> !Truthy(userHeader)
    ensures r.Err? ==> r.message == "Not logged in"
    ensures r.Ok? ==> r.value == userHeader.value && r.value != ""
  {
    if Truthy(userHeader) then Ok(userHeader.value) else Err("Not logged in")
  }

  const NotLoggedIn := Reply(401, "Not logged in")

  const PhoneError := "Phone number must be 10 digits"

  /** `processPhoneNumber`: the digits of the text, which must be exactly ten. */
  function ProcessPhoneNumber(phone: string): (r: Result<string>)
    ensures r.Ok? <==> |Text.DigitsOf(phone)| == 10
    ensures r.Ok? ==> Text.AllDigits(r.value) && |r.value| == 10 && r.value == Text.DigitsOf(phone)
    ensures r.Err? ==> r.message == PhoneError
  {
    var digits := Text.DigitsOf(phone);
    if |digits| != 10 then Err(PhoneError) else Ok(digits)
  }

  /** A number the rule accepts is accepted again unchanged. */
  lemma ProcessPhoneNumberIdempotent(phone: string)
    requires ProcessPhoneNumber(phone).Ok?
    ensures ProcessPhoneNumber(ProcessPhoneNumber(phone).value) == ProcessPhoneNumber(phone)
  {
    Text.DigitsOfIdempotent(phone);
  }

  /** The request body's text fields; None is an absent field. */
  datatype Body = Body(
    name: Option<string>, nickname: Option<string>, birthDate: Option<string>,
    phoneNumber: Option<string>, relationship: Option<string>, zodiac: Option<string>,
    personalizedMessage: Option<string>, favoriteColor: Option<string>,
    hobbies: Option<string>, giftIdeas: Option<string>, notes: Option<string>)

  const EmptyBody := Body(None, None, None, None, None, None, None, None, None, None, None)

  /** The create handlers' first check: name, birth date and phone present and non-empty. */
  predicate HasRequired(body: Body) {
    Truthy(body.name) && Truthy(body.birthDate) && Truthy(body.phoneNumber)
  }

  const RequiredError := "Name, birth date, and phone number are required"

  /** A stored birthday row; `None` is SQL NULL. */
  datatype Row = Row(
    name: string, nickname: Option<string>, phoneNumber: string, birthDate: string,
    relationship: string, zodiac: Option<string>, photoUrl: Option<string>,
    personalizedMessage: Option<string>, favoriteColor: Option<string>,
    hobbies: Option<string>, giftIdeas: Option<string>, notes: Option<string>,
    userId: string)

  /** `s.substring(0, n)`. */
  function Truncate(s: string, n: nat): (r: string)
    ensures r <= s
    ensures |r| == if |s| <= n then |s| else n
  {
    if |s| <= n then s else s[..n]
  }

  /** `s?.substring(0, n) || null`. */
  function ClipOrNull(s: Option<string>, n: nat): (r: Option<string>)
    ensures r.Some? ==> s.Some? && r.value != "" && r.value == Truncate(s.value, n)
    ensures n > 0 ==> (r.Some? <==> Truthy(s))
    ensures n > 0 && Truthy(s) && |s.value| <= n ==> r == s
  {
    if s.Some? && Truncate(s.value, n) != "" then Some(Truncate(s.value, n)) else None
  }

  /** `s || null`. */
  function OrNull(s: Option<string>): (r: Option<string>)
    ensures r.Some? <==> Truthy(s)
    ensures r.Some? ==> r == s
  {
    if Truthy(s) then s else None
  }

  /** The INSERT's column values for a body that passed validation: name and
      nickname cut to 100 characters, relationship to 50 (or "Friend" when
      absent), zodiac to 20, favourite colour to 50, the phone as its digits,
      empty texts stored as NULL. */
  function InsertValues(body: Body, phoneDigits: string, photoUrl: Option<string>, userId: string): (r: Row)
    requires HasRequired(body)
    ensures r.name == Truncate(body.name.value, 100)
    ensures |body.name.value| <= 100 ==> r.name == body.name.value
    ensures r.nickname == ClipOrNull(body.nickname, 100)
    ensures r.phoneNumber == phoneDigits && r.birthDate == body.birthDate.value
    ensures r.relationship != "" && |r.relationship| <= 50
    ensures Truthy(body.relationship) ==> r.relationship == Truncate(body.relationship.value, 50)
    ensures !Truthy(body.relationship) ==> r.relationship == "Friend"
    ensures r.zodiac == ClipOrNull(body.zodiac, 20)
    ensures r.favoriteColor == ClipOrNull(body.favoriteColor, 50)
    ensures r.personalizedMessage == OrNull(body.personalizedMessage)
    ensures r.hobbies == OrNull(body.hobbies) && r.giftIdeas == OrNull(body.giftIdeas)
    ensures r.notes == OrNull(body.notes)
    ensures r.photoUrl == photoUrl && r.userId == userId
  {
    var relationship := ClipOrNull(body.relationship, 50);
    Row(
      Truncate(body.name.value, 100),
      ClipOrNull(body.nickname, 100),
      phoneDigits,
      body.birthDate.value,
      if relationship.Some? then relationship.value else "Friend",
      ClipOrNull(body.zodiac, 20),
      photoUrl,
      OrNull(body.personalizedMessage),
      ClipOrNull(body.favoriteColor, 50),
      OrNull(body.hobbies),
      OrNull(body.giftIdeas),
      OrNull(body.notes),
      userId)
  }

  /** `COALESCE(value || null, old)` for a nullable column; for a text
      column it is `OrElse(value, old)`. */
  function CoalesceNull(value: Option<string>, previous: Option<string>): (r: Option<string>)
    ensures Truthy(value) ==> r == value
    ensures !Truthy(value) ==> r == previous
  {
    if Truthy(value) then value else previous
  }

  /** The UPDATE's new row: every non-empty body field replaces its column
      (with no truncation and, for the phone, no digit check), every absent
      or empty one keeps the old value, and so does the photo when the new
      URL is absent or empty; the owner never changes. */
  function UpdatedRow(existing: Row, body: Body, photoUrl: Option<string>): (r: Row)
    ensures r.userId == existing.userId
    ensures Truthy(body.name) ==> r.name == body.name.value
    ensures !Truthy(body.name) ==> r.name == existing.name
    ensures Truthy(body.nickname) ==> r.nickname == body.nickname
    ensures !Truthy(body.nickname) ==> r.nickname == existing.nickname
    ensures Truthy(body.birthDate) ==> r.birthDate == body.birthDate.value
    ensures !Truthy(body.birthDate) ==> r.birthDate == existing.birthDate
    ensures Truthy(body.phoneNumber) ==> r.phoneNumber == body.phoneNumber.value
    ensures !Truthy(body.phoneNumber) ==> r.phoneNumber == existing.phoneNumber
    ensures Truthy(body.relationship) ==> r.relationship == body.relationship.value
    ensures !Truthy(body.relationship) ==> r.relationship == existing.relationship
    ensures Truthy(body.zodiac) ==> r.zodiac == body.zodiac
    ensures !Truthy(body.zodiac) ==> r.zodiac == existing.zodiac
    ensures Truthy(body.personalizedMessage) ==> r.personalizedMessage == body.personalizedMessage
    ensures !Truthy(body.personalizedMessage) ==> r.personalizedMessage == existing.personalizedMessage
    ensures Truthy(body.favoriteColor) ==> r.favoriteColor == body.favoriteColor
    ensures !Truthy(body.favoriteColor) ==> r.favoriteColor == existing.favoriteColor
    ensures Truthy(body.hobbies) ==> r.hobbies == body.hobbies
    ensures !Truthy(body.hobbies) ==> r.hobbies == existing.hobbies
    ensures Truthy(body.giftIdeas) ==> r.giftIdeas == body.giftIdeas
    ensures !Truthy(body.giftIdeas) ==> r.giftIdeas == existing.giftIdeas
    ensures Truthy(body.notes) ==> r.notes == body.notes
    ensures !Truthy(body.notes) ==> r.notes == existing.notes
    ensures Truthy(photoUrl) ==> r.photoUrl == photoUrl
    ensures !Truthy(photoUrl) ==> r.photoUrl == existing.photoUrl
  {
    existing.(
      name := OrElse(body.name, existing.name),
      nickname := CoalesceNull(body.nickname, existing.nickname),
      birthDate := OrElse(body.birthDate, existing.birthDate),
      phoneNumber := OrElse(body.phoneNumber, existing.phoneNumber),
      relationship := OrElse(body.relationship, existing.relationship),
      zodiac := CoalesceNull(body.zodiac, existing.zodiac),
      photoUrl := CoalesceNull(photoUrl, existing.photoUrl),
      personalizedMessage := CoalesceNull(body.personalizedMessage, existing.personalizedMessage),
      favoriteColor := CoalesceNull(body.favoriteColor, existing.favoriteColor),
      hobbies := CoalesceNull(body.hobbies, existing.hobbies),
      giftIdeas := CoalesceNull(body.giftIdeas, existing.giftIdeas),
      notes := CoalesceNull(body.notes, existing.notes))
  }

  /** An update with nothing filled in and no new photo leaves the row as it
      was, and applying the same update twice is applying it once. */
  lemma UpdateLaws(existing: Row, body: Body, photoUrl: Option<string>)
    ensures UpdatedRow(existing, EmptyBody, None) == existing
    ensures UpdatedRow(existing, EmptyBody, existing.photoUrl) == existing
    ensures UpdatedRow(UpdatedRow(existing, body, photoUrl), body, photoUrl) == UpdatedRow(existing, body, photoUrl)
  {
  }

  /** `url.split("/").pop().split(".")[0]`: the asset id inside a photo URL. */
  function PublicId(url: string): string {
    Text.BeforeFirst(Text.AfterLast(url, '/'), '.')
  }

  /** The id has neither '/' nor '.' in it, and begins the URL's last
      segment, which ends the URL. */
  lemma PublicIdShape(url: string)
    ensures '/' !in PublicId(url) && '.' !in PublicId(url)
    ensures var last := Text.AfterLast(url, '/');
      PublicId(url) <= last && last == url[|url| - |last|..]
  {
    var last := Text.AfterLast(url, '/');
    Text.AfterLastIsSuffix(url, '/');
    Text.BeforeFirstIsPrefix(last, '.');
    var r := PublicId(url);
    forall i | 0 <= i < |r| ensures r[i] != '/' {
      assert r[i] == last[i];
    }
  }

  /** For an asset URL `<prefix>/<id>.<format>` whose id has neither '/' nor
      '.' and whose format has no '/', the extracted id is that id; without a
      format the URL's last segment is the id. */
  lemma {:induction false} PublicIdOfAssetUrl(prefix: string, id: string, format: string)
    requires forall i :: 0 <= i < |id| ==> id[i] != '/' && id[i] != '.'
    requires forall i :: 0 <= i < |format| ==> format[i] != '/'
    ensures PublicId(prefix + "/" + id + "." + format) == id
    ensures PublicId(prefix + "/" + id) == id
  {
    var last := id + "." + format;
    assert forall i :: 0 <= i < |last| ==> last[i] != '/' by {
      forall i | 0 <= i < |last| ensures last[i] != '/' {
        if i < |id| {
          assert last[i] == id[i];
        } else if i > |id| {
          assert last[i] == format[i - |id| - 1];
        }
      }
    }
    assert prefix + "/" + id + "." + format == prefix + ['/'] + last;
    Text.AfterLastOfSuffix(prefix, '/', last);
    assert last == id + ['.'] + format;
    Text.BeforeFirstOfPrefix(id, '.', format);

    assert prefix + "/" + id == prefix + ['/'] + id;
    Text.AfterLastOfSuffix(prefix, '/', id);
    assert id == id + ['.'] + [] || Text.BeforeFirst(id, '.') == id by {
      BeforeFirstWithout(id, '.');
    }
  }

  /** A text without `c` is its own prefix before `c`. */
  lemma {:induction false} BeforeFirstWithout(s: string, c: char)
    requires forall i :: 0 <= i < |s| ==> s[i] != c
    ensures Text.BeforeFirst(s, c) == s
    decreases |s|
  {
    if s != [] {
      BeforeFirstWithout(s[1..], c);
    }
  }
}
