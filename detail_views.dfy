/** The client's per-record pages: the detail page (age, days to go and the
    WhatsApp greeting) and the public wish page with its shareable message. */
module DetailViews {
  import opened Dates
  import opened Opt
  import opened Recurrence
  import opened Ranker
  import Seqs
  import Text

  /** `birthdays.find((b) => b.id === parseInt(id))`: `routeId` is the parsed
      route parameter, None when it is not a number (NaN equals no id). */
  function FindById(bs: seq<Birthday>, routeId: Option<int>): (r: Option<Birthday>)
    ensures r.None? <==> routeId.None? || forall b :: b in bs ==> b.id != routeId.value
    ensures r.Some? ==> r.value in bs && r.value.id == routeId.value
    ensures r.Some? ==> exists i :: 0 <= i < |bs| && bs[i] == r.value && forall j :: 0 <= j < i ==> bs[j].id != routeId.value
  {
    if routeId.None? then None
    else
      var i := Seqs.FindIndex(bs, (b: Birthday) => b.id == routeId.value);
      if i == -1 then None else Some(bs[i])
  }

  datatype DetailPage = NotFound | Detail(birthday: Birthday, turning: int, daysUntil: Option<int>)

  /** The detail page: "Birthday not found" for an unknown id; otherwise the
      record, "Turning" the client age plus one, and the days until the next
      occurrence (absent without a date). */
  function ShowDetail(bs: seq<Birthday>, routeId: Option<int>, today: CalDate): (r: DetailPage)
    ensures r.NotFound? <==> FindById(bs, routeId).None?
    ensures r.Detail? ==> r.birthday == FindById(bs, routeId).value
    ensures r.Detail? && r.birthday.date.Some? ==>
      var b := r.birthday.date.value;
      r.daysUntil.Some? && 0 <= r.daysUntil.value <= 365
      && (r.turning == NextOccurrence(b, today).year - b.year
          || (b.month == 2 && b.day == 29 && today.month == 3 && today.day == 1))
    ensures r.Detail? && r.birthday.date.None? ==> r.turning == 1 && r.daysUntil.None?
    ensures r.Detail? ==> r.daysUntil == DaysUntil(r.birthday.date, today)
  {
    match FindById(bs, routeId)
    case None => NotFound
    case Some(b) =>
      var page := Detail(b, ClientAge(b.date, today) + 1, DaysUntil(b.date, today));
      if b.date.None? then page
      else
        TurningIsAgeAtNextOccurrence(b.date.value, today);
        page
  }

  // ---------------------------------------------------------------------
  // The WhatsApp greeting of the detail page

  /** Reading a text property of a client record by its name, as a
      JavaScript property access does: a name the record does not carry
      reads as undefined. */
  function TextField(b: Birthday, key: string): Option<string> {
    if key == "nickname" then b.nickname
    else if key == "zodiac" then b.zodiac
    else if key == "photo" then Some(b.photo)
    else if key == "giftIdeas" then b.giftIdeas
    else if key == "hobbies" then b.hobbies
    else if key == "favoriteColor" then b.favoriteColor
    else if key == "notes" then b.notes
    else if key == "relationship" then b.relationship
    else if key == "personalizedMessage" then b.personalizedMessage
    else if key == "phone_number" then b.phoneNumber
    else if key == "name" then Some(b.name)
    else None
  }

  datatype WishAction =
    | PhoneMissing
    | WrongLength(digits: nat)
    | OpenChat(number: string, message: string)

  const PartyPopper := "\U{1F389}"
  const WhatsAppFallback := "May your year be filled with happiness!"
  const IndiaCode := "91"
  const PhoneDigits := 10

  function WhatsAppMessage(name: string, personal: Option<string>): string {
    PartyPopper + " *Happy Birthday " + name + "!* " + PartyPopper + "\n\n"
    + "Wishing you a wonderful day!\n\n"
    + (if Truthy(personal) then personal.value else WhatsAppFallback) + "\n\n"
    + "From: Your Friend"
  }

  /** `handleWhatsAppWish` reading the personal message from property
      `messageKey`: a missing or blank phone is refused; otherwise its digits
      must number exactly ten, and the chat opens with "91" before them. */
  function WhatsAppWishReading(b: Birthday, messageKey: string): (r: WishAction)
    ensures r.PhoneMissing? <==> b.phoneNumber.None? || Text.IsBlank(b.phoneNumber.value)
    ensures r.WrongLength? ==> r.digits == |Text.DigitsOf(b.phoneNumber.value)| != PhoneDigits
    ensures r.OpenChat? ==>
      && |r.number| == 12 && Text.AllDigits(r.number)
      && r.number[..2] == IndiaCode && r.number[2..] == Text.DigitsOf(b.phoneNumber.value)
  {
    if b.phoneNumber.None? || Text.IsBlank(b.phoneNumber.value) then PhoneMissing
    else
      var cleaned := Text.DigitsOf(b.phoneNumber.value);
      if |cleaned| != PhoneDigits then WrongLength(|cleaned|)
      else
        var number := IndiaCode + cleaned;
        assert number[2..] == cleaned;
        OpenChat(number, WhatsAppMessage(b.name, TextField(b, messageKey)))
  }

  /** The handler as written reads `personalized_message`, a name client
      records do not carry (they carry `personalizedMessage`). */
  function WhatsAppWish(b: Birthday): WishAction {
    WhatsAppWishReading(b, "personalized_message")
  }

  /** The handler reading the property client records carry. */
  function WhatsAppWishCorrected(b: Birthday): WishAction {
    WhatsAppWishReading(b, "personalizedMessage")
  }

  /** As written, the personal message never reaches the greeting: every
      record gets the fallback line. */
  lemma WhatsAppWishIgnoresPersonalMessage(b: Birthday)
    ensures WhatsAppWish(b).OpenChat? ==> WhatsAppWish(b).message == WhatsAppMessage(b.name, None)
  {
  }

  /** For every record with a valid phone and a personal message other than
      the fallback line, the two handlers send different greetings. */
  lemma WhatsAppWishDiffers(b: Birthday)
    requires b.phoneNumber.Some? && |b.phoneNumber.value| == PhoneDigits && Text.AllDigits(b.phoneNumber.value)
    requires Truthy(b.personalizedMessage) && b.personalizedMessage.value != WhatsAppFallback
    ensures WhatsAppWish(b).OpenChat? && WhatsAppWishCorrected(b).OpenChat?
    ensures WhatsAppWish(b) != WhatsAppWishCorrected(b)
  {
    var number := IndiaCode + b.phoneNumber.value;
    var fallback, personal := WhatsAppMessage(b.name, None), WhatsAppMessage(b.name, b.personalizedMessage);
    assert TextField(b, "personalized_message") == None;
    assert TextField(b, "personalizedMessage") == b.personalizedMessage;
    assert WhatsAppWish(b) == OpenChat(number, fallback) by {
      CleanPhoneOpensChat(b, "personalized_message");
    }
    assert WhatsAppWishCorrected(b) == OpenChat(number, personal) by {
      CleanPhoneOpensChat(b, "personalizedMessage");
    }
    GreetingsDiffer(b.name, b.personalizedMessage.value);
  }

  /** A personal message other than the fallback line makes another
      greeting. */
  lemma GreetingsDiffer(name: string, personal: string)
    requires personal != [] && personal != WhatsAppFallback
    ensures WhatsAppMessage(name, None) != WhatsAppMessage(name, Some(personal))
  {
    var head := PartyPopper + " *Happy Birthday " + name + "!* " + PartyPopper + "\n\n" + "Wishing you a wonderful day!\n\n";
    var tail := "\n\n" + "From: Your Friend";
    assert WhatsAppMessage(name, None) == head + WhatsAppFallback + tail;
    assert WhatsAppMessage(name, Some(personal)) == head + personal + tail;
    Text.MiddleDiffers(head, WhatsAppFallback, personal, tail);
  }

  /** Corrected, the greeting carries the personal message when there is one
      and the fallback line otherwise; the phone handling is unchanged. */
  lemma WhatsAppWishCorrectedUsesPersonalMessage(b: Birthday)
    ensures WhatsAppWishCorrected(b).OpenChat? ==>
      WhatsAppWishCorrected(b).message == WhatsAppMessage(b.name, b.personalizedMessage)
    ensures WhatsAppWishCorrected(b).OpenChat? <==> WhatsAppWish(b).OpenChat?
    ensures WhatsAppWishCorrected(b).OpenChat? ==> WhatsAppWishCorrected(b).number == WhatsAppWish(b).number
  {
  }

  /** A phone written as ten bare digits opens the chat with "91" and those
      digits, and cleaning that number again changes nothing. */
  lemma CleanPhoneOpensChat(b: Birthday, messageKey: string)
    requires b.phoneNumber.Some? && |b.phoneNumber.value| == PhoneDigits && Text.AllDigits(b.phoneNumber.value)
    ensures WhatsAppWishReading(b, messageKey) == OpenChat(IndiaCode + b.phoneNumber.value, WhatsAppMessage(b.name, TextField(b, messageKey)))
    ensures Text.DigitsOf(WhatsAppWishReading(b, messageKey).number) == WhatsAppWishReading(b, messageKey).number
  {
    var p := b.phoneNumber.value;
    Text.DigitsNotBlank(p);
    Text.DigitsOfDigits(p);
    var number := IndiaCode + p;
    assert Text.AllDigits(number) by {
      forall i | 0 <= i < |number| ensures Text.IsDigit(number[i]) {
        if i >= 2 { assert number[i] == p[i - 2]; }
      }
    }
    Text.DigitsOfDigits(number);
  }

  // ---------------------------------------------------------------------
  // The public wish page

  const WishFallback := "Wishing you an amazing day!"

  /** The path of a record's wish page. */
  function WishPath(id: int): string {
    "/wish/" + Text.IntToString(id)
  }

  function WishHead(name: string): string {
    PartyPopper + " *Happy Birthday " + name + "!* " + PartyPopper + "\n\n"
    + "Check out your special birthday page:\n"
  }

  /** `generateMessage`: the greeting with a link to the wish page on
      `origin`, then the personal message or the fallback. */
  function GenerateMessage(b: Birthday, origin: string): (r: string)
    ensures Text.Contains(r, origin + WishPath(b.id))
    ensures Truthy(b.personalizedMessage) ==> Text.Contains(r, b.personalizedMessage.value)
    ensures !Truthy(b.personalizedMessage) ==> Text.Contains(r, WishFallback)
  {
    var link := origin + WishPath(b.id);
    var personal := if Truthy(b.personalizedMessage) then b.personalizedMessage.value else WishFallback;
    Text.ContainsBoth(WishHead(b.name), link, "\n\n", personal, "\n\nFrom: Your Loved Ones");
    WishHead(b.name) + link + "\n\n" + personal + "\n\nFrom: Your Loved Ones"
  }

  /** The route parameter of a wish link: what follows its last '/', read as
      a decimal number. This stands for `parseInt` only on the clean links
      the wish message writes (see `WishLinkRoundTrip`): `parseInt` also
      reads a leading run of digits followed by other characters, which
      this reading refuses. */
  function RouteId(path: string): Option<int> {
    var last := Text.AfterLast(path, '/');
    if last != [] && Text.AllDigits(last) then Some(Text.ValueOf(last)) else None
  }

  /** The link of a record with a non-negative id leads back to that id, so
      the wish page opened from it shows a record with that id. */
  lemma WishLinkRoundTrip(bs: seq<Birthday>, b: Birthday, origin: string)
    requires b in bs && b.id >= 0
    ensures RouteId(origin + WishPath(b.id)) == Some(b.id)
    ensures FindById(bs, RouteId(origin + WishPath(b.id))).Some?
    ensures FindById(bs, RouteId(origin + WishPath(b.id))).value.id == b.id
  {
    var digits := Text.NatToString(b.id);
    var path := origin + WishPath(b.id);
    assert path == (origin + "/wish") + "/" + digits;
    Text.AfterLastOfSuffix(origin + "/wish", '/', digits);
  }

  datatype WishPage = WishNotFound | Wish(birthday: Birthday, turning: int, daysUntil: Option<int>)

  /** The wish page: the same lookup, age and countdown as the detail page. */
  function ShowWish(bs: seq<Birthday>, routeId: Option<int>, today: CalDate): (r: WishPage)
    ensures r.WishNotFound? <==> ShowDetail(bs, routeId, today).NotFound?
    ensures r.Wish? ==> ShowDetail(bs, routeId, today) == Detail(r.birthday, r.turning, r.daysUntil)
  {
    match FindById(bs, routeId)
    case None => WishNotFound
    case Some(b) => Wish(b, ClientAge(b.date, today) + 1, DaysUntil(b.date, today))
  }
}
