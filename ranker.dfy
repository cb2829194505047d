/** The client's home-page ranking (today's celebrants, the single next
    birthday, and the window of upcoming ones) and the client's list of
    birthday records that add/update/delete replace. */
module Ranker {
  import opened Dates
  import opened Opt
  import opened Recurrence
  import Seqs

  /** A birthday record as the client holds it after renaming the server's
      columns.  `date` is the parsed birth date: None when the column is
      missing or does not parse. */
  datatype Birthday = Birthday(
    id: int,
    name: string,
    nickname: Option<string>,
    date: Option<CalDate>,
    zodiac: Option<string>,
    photo: string,
    giftIdeas: Option<string>,
    hobbies: Option<string>,
    favoriteColor: Option<string>,
    notes: Option<string>,
    relationship: Option<string>,
    personalizedMessage: Option<string>,
    phoneNumber: Option<string>)

  /** The birth (month, day) is the (month, day) of `d`. */
  predicate FallsOn(b: Birthday, d: CalDate) {
    b.date.Some? && SameMonthDay(b.date.value, d)
  }

  datatype Celebration = Celebration(birthday: Birthday, turningAge: int, message: string)

  function CelebrationMessage(b: Birthday): string {
    if Truthy(b.personalizedMessage) then b.personalizedMessage.value
    else "Happy Birthday " + b.name + "! \U{1F389}"
  }

  function Celebrate(b: Birthday, today: CalDate): Celebration {
    Celebration(b, ClientAge(b.date, today) + 1, CelebrationMessage(b))
  }

  /** `getTodaysBirthdays`: the records born on today's (month, day), in input
      order, each with the age it turns today, which is the full year
      difference because the client's age is one short on the anniversary. */
  function TodaysBirthdays(bs: seq<Birthday>, today: CalDate): (r: seq<Celebration>)
    ensures |r| == |Seqs.Filter(bs, b => FallsOn(b, today))|
    ensures forall i :: 0 <= i < |r| ==>
      r[i].birthday == Seqs.Filter(bs, b => FallsOn(b, today))[i]
      && FallsOn(r[i].birthday, today)
      && r[i].turningAge == today.year - r[i].birthday.date.value.year
  {
    var matching := Seqs.Filter(bs, b => FallsOn(b, today));
    seq(|matching|, i requires 0 <= i < |matching| => Celebrate(matching[i], today))
  }

  /** A record is among today's celebrants exactly when it falls on today. */
  lemma TodaysBirthdaysMembers(bs: seq<Birthday>, today: CalDate, b: Birthday)
    ensures b in bs && FallsOn(b, today) <==> exists c :: c in TodaysBirthdays(bs, today) && c.birthday == b
  {
    var matching := Seqs.Filter(bs, b => FallsOn(b, today));
    var r := TodaysBirthdays(bs, today);
    if b in bs && FallsOn(b, today) {
      assert b in matching;
      var i :| 0 <= i < |matching| && matching[i] == b;
      assert r[i] in r;
    }
  }

  /** The sort key: the day number of the next occurrence (0 for an undated
      record, which never reaches a sort). */
  function NextKey(b: Birthday, today: CalDate): int {
    if b.date.Some? then DayNumber(NextOccurrence(b.date.value, today)) else 0
  }

  function Keyed(bs: seq<Birthday>, today: CalDate): (r: seq<(int, Birthday)>)
    ensures |r| == |bs|
    ensures forall i :: 0 <= i < |r| ==> r[i] == (NextKey(bs[i], today), bs[i])
  {
    seq(|bs|, i requires 0 <= i < |bs| => (NextKey(bs[i], today), bs[i]))
  }

  /** Sorting the keyed records yields each record once per occurrence, each
      with its own key, in ascending key order. */
  lemma SortKeyed(bs: seq<Birthday>, today: CalDate)
    ensures var sorted := Seqs.StableSort(Keyed(bs, today));
      && |sorted| == |bs|
      && Seqs.SortedByKey(sorted)
      && (forall i :: 0 <= i < |sorted| ==> sorted[i].1 in bs && sorted[i].0 == NextKey(sorted[i].1, today))
      && (forall b :: b in bs ==> exists i :: 0 <= i < |sorted| && sorted[i].1 == b)
  {
    var ks := Keyed(bs, today);
    var sorted := Seqs.StableSort(ks);
    Seqs.StableSortCorrect(ks);
    assert |sorted| == |multiset(sorted)| == |multiset(ks)| == |ks|;
    forall i | 0 <= i < |sorted|
      ensures sorted[i].1 in bs && sorted[i].0 == NextKey(sorted[i].1, today)
    {
      assert sorted[i] in multiset(ks);
      var j :| 0 <= j < |ks| && ks[j] == sorted[i];
    }
    forall b | b in bs ensures exists i :: 0 <= i < |sorted| && sorted[i].1 == b {
      var j :| 0 <= j < |bs| && bs[j] == b;
      assert ks[j] in multiset(sorted);
      var i :| 0 <= i < |sorted| && sorted[i] == ks[j];
    }
  }

  datatype NextEntry = NextEntry(birthday: Birthday, nextOccurrence: CalDate, daysUntil: int)

  /** The records `getNextBirthday` ranks: dated, and not celebrating today. */
  predicate NextCandidate(b: Birthday, today: CalDate) {
    b.date.Some? && !FallsOn(b, today)
  }

  function Candidates(bs: seq<Birthday>, today: CalDate): seq<Birthday> {
    Seqs.Filter(bs, b => NextCandidate(b, today))
  }

  function ToNextEntry(b: Birthday, today: CalDate): NextEntry
    requires b.date.Some?
  {
    var next := NextOccurrence(b.date.value, today);
    NextEntry(b, next, DayNumber(next) - DayNumber(today))
  }

  /** `getNextBirthday`: the candidates sorted (stably) by next occurrence,
      and the first of them. */
  function NextBirthday(bs: seq<Birthday>, today: CalDate): Option<NextEntry> {
    var sorted := Seqs.StableSort(Keyed(Candidates(bs, today), today));
    if sorted == [] then None
    else
      SortKeyed(Candidates(bs, today), today);
      Some(ToNextEntry(sorted[0].1, today))
  }

  /** The next birthday is absent exactly when no dated record is left once
      today's celebrants are set aside. */
  lemma NextBirthdayNone(bs: seq<Birthday>, today: CalDate)
    ensures NextBirthday(bs, today).None? <==> forall b :: b in bs ==> !NextCandidate(b, today)
  {
    var cs := Candidates(bs, today);
    SortKeyed(cs, today);
    if cs != [] {
      assert cs[0] in cs;
    }
  }

  /** Otherwise it is such a record, with its next occurrence and the days
      until it. */
  lemma NextBirthdayChosen(bs: seq<Birthday>, today: CalDate)
    requires NextBirthday(bs, today).Some?
    ensures var e := NextBirthday(bs, today).value;
      && e.birthday in bs && NextCandidate(e.birthday, today)
      && e.nextOccurrence == NextOccurrence(e.birthday.date.value, today)
      && Some(e.daysUntil) == DaysUntil(e.birthday.date, today)
  {
    var cs := Candidates(bs, today);
    var sorted := Seqs.StableSort(Keyed(cs, today));
    SortKeyed(cs, today);
    assert sorted[0].1 in cs;
  }

  /** Its next occurrence is the earliest of all candidates'. */
  lemma NextBirthdayEarliest(bs: seq<Birthday>, today: CalDate, b: Birthday)
    requires NextBirthday(bs, today).Some?
    requires b in bs && NextCandidate(b, today)
    ensures NextKey(NextBirthday(bs, today).value.birthday, today) <= NextKey(b, today)
  {
    var cs := Candidates(bs, today);
    var ks := Keyed(cs, today);
    var sorted := Seqs.StableSort(ks);
    SortKeyed(cs, today);
    Seqs.StableSortHead(ks);
    assert b in cs;
    var i :| 0 <= i < |cs| && cs[i] == b;
    assert sorted[0].0 <= ks[i].0;
  }

  /** Among candidates whose next occurrences tie, the first in input order
      is chosen: every candidate before it falls strictly later. */
  lemma NextBirthdayFirstOfTies(bs: seq<Birthday>, today: CalDate)
    requires NextBirthday(bs, today).Some?
    ensures var e := NextBirthday(bs, today).value;
      var cs := Candidates(bs, today);
      exists i :: 0 <= i < |cs| && cs[i] == e.birthday
                  && forall j :: 0 <= j < i ==> NextKey(cs[j], today) > NextKey(cs[i], today)
  {
    var cs := Candidates(bs, today);
    var ks := Keyed(cs, today);
    var sorted := Seqs.StableSort(ks);
    Seqs.StableSortHead(ks);
    var i :| 0 <= i < |ks| && ks[i] == sorted[0]
             && forall j :: 0 <= j < i ==> ks[j].0 > ks[i].0;
    assert cs[i] == NextBirthday(bs, today).value.birthday;
    forall j | 0 <= j < i
      ensures NextKey(cs[j], today) > NextKey(cs[i], today)
    {
      assert ks[j].0 > ks[i].0;
    }
  }

  function Ids(cs: seq<Celebration>): (r: seq<int>)
    ensures |r| == |cs| && forall i :: 0 <= i < |cs| ==> r[i] == cs[i].birthday.id
  {
    seq(|cs|, i requires 0 <= i < |cs| => cs[i].birthday.id)
  }

  /** The ids kept out of the upcoming list: today's celebrants', and the next
      birthday's, which is looked up only when nobody celebrates today. */
  function ExcludedIds(bs: seq<Birthday>, today: CalDate): seq<int> {
    var todays := TodaysBirthdays(bs, today);
    var next := if |todays| > 0 then None else NextBirthday(bs, today);
    Ids(todays) + (if next.Some? then [next.value.birthday.id] else [])
  }

  /** An id is excluded exactly when it is a celebrant's, or, with nobody
      celebrating, the next birthday's. */
  lemma ExcludedIdsMembers(bs: seq<Birthday>, today: CalDate, id: int)
    ensures id in ExcludedIds(bs, today) <==>
      (exists c :: c in TodaysBirthdays(bs, today) && c.birthday.id == id)
      || (TodaysBirthdays(bs, today) == [] && NextBirthday(bs, today).Some?
          && NextBirthday(bs, today).value.birthday.id == id)
  {
    var todays := TodaysBirthdays(bs, today);
    if exists c :: c in todays && c.birthday.id == id {
      var c :| c in todays && c.birthday.id == id;
      var i :| 0 <= i < |todays| && todays[i] == c;
      assert Ids(todays)[i] == id;
    }
    if id in Ids(todays) {
      var i :| 0 <= i < |todays| && Ids(todays)[i] == id;
      assert todays[i] in todays;
    }
  }

  predicate Eligible(b: Birthday, excluded: seq<int>, today: CalDate) {
    b.date.Some? && b.id !in excluded && NextKey(b, today) > DayNumber(today)
  }

  function EligibleRecords(bs: seq<Birthday>, today: CalDate): seq<Birthday> {
    var excluded := ExcludedIds(bs, today);
    Seqs.Filter(bs, b => Eligible(b, excluded, today))
  }

  const UpcomingWindow: nat := 4

  /** `getUpcomingBirthdays`: dated records not excluded whose next
      occurrence is after today, sorted (stably) by it, at most four. */
  function UpcomingBirthdays(bs: seq<Birthday>, today: CalDate): seq<Birthday> {
    Seqs.Values(Seqs.Take(Seqs.StableSort(Keyed(EligibleRecords(bs, today), today)), UpcomingWindow))
  }

  /** The upcoming list holds at most four eligible records, ascending by
      next occurrence: dated records of the input whose next occurrence is
      strictly after today and whose id is not excluded. */
  lemma UpcomingSorted(bs: seq<Birthday>, today: CalDate)
    ensures var r := UpcomingBirthdays(bs, today);
      && |r| <= UpcomingWindow
      && (forall x :: x in r ==> x in bs && Eligible(x, ExcludedIds(bs, today), today))
      && (forall i, j :: 0 <= i < j < |r| ==> NextKey(r[i], today) <= NextKey(r[j], today))
  {
    WindowSorted(EligibleRecords(bs, today), today, UpcomingWindow);
  }

  /** The first `n` of a keyed list sorted by next occurrence are records of
      the list, ascending. */
  lemma WindowSorted(es: seq<Birthday>, today: CalDate, n: nat)
    ensures var r := Seqs.Values(Seqs.Take(Seqs.StableSort(Keyed(es, today)), n));
      && |r| <= n
      && (forall x :: x in r ==> x in es)
      && (forall i, j :: 0 <= i < j < |r| ==> NextKey(r[i], today) <= NextKey(r[j], today))
  {
    var sorted := Seqs.StableSort(Keyed(es, today));
    SortKeyed(es, today);
    Seqs.TakeValuesSortedBy(sorted, x => NextKey(x, today), n, es);
  }

  /** Nobody in the upcoming list celebrates today or shares an id with a
      celebrant; with nobody celebrating, nobody shares the next birthday's
      id either. */
  lemma UpcomingExclusions(bs: seq<Birthday>, today: CalDate)
    ensures var r := UpcomingBirthdays(bs, today);
      && (forall x :: x in r ==> !FallsOn(x, today))
      && (forall x, c :: x in r && c in TodaysBirthdays(bs, today) ==> x.id != c.birthday.id)
      && (TodaysBirthdays(bs, today) == [] && NextBirthday(bs, today).Some? ==>
            forall x :: x in r ==> x.id != NextBirthday(bs, today).value.birthday.id)
  {
    var r := UpcomingBirthdays(bs, today);
    UpcomingSorted(bs, today);
    forall x | x in r ensures !FallsOn(x, today) {
      if FallsOn(x, today) {
        TodaysBirthdaysMembers(bs, today, x);
        ExcludedIdsMembers(bs, today, x.id);
      }
    }
    forall x, c | x in r && c in TodaysBirthdays(bs, today) ensures x.id != c.birthday.id {
      ExcludedIdsMembers(bs, today, x.id);
    }
    forall x | x in r && TodaysBirthdays(bs, today) == [] && NextBirthday(bs, today).Some?
      ensures x.id != NextBirthday(bs, today).value.birthday.id
    {
      ExcludedIdsMembers(bs, today, x.id);
    }
  }

  /** The first `n` of a sorted keyed list are its earliest records. */
  lemma WindowIsEarliest(es: seq<Birthday>, today: CalDate, n: nat, b: Birthday)
    requires b in es
    ensures var r := Seqs.Values(Seqs.Take(Seqs.StableSort(Keyed(es, today)), n));
      (|r| < n ==> b in r)
      && (forall x :: x in r && NextKey(b, today) < NextKey(x, today) ==> b in r)
  {
    var sorted := Seqs.StableSort(Keyed(es, today));
    SortKeyed(es, today);
    var r := Seqs.Values(Seqs.Take(sorted, n));
    var p :| 0 <= p < |sorted| && sorted[p].1 == b;
    Seqs.TakeValuesEarliestBy(sorted, x => NextKey(x, today), n, p);
  }


  /** The window keeps the earliest eligible records: an eligible record
      whose next occurrence is strictly earlier than that of some listed
      record is itself listed, and the list is short of four only when it
      holds every eligible record. */
  lemma UpcomingIsEarliest(bs: seq<Birthday>, today: CalDate, b: Birthday)
    requires b in bs && Eligible(b, ExcludedIds(bs, today), today)
    ensures var r := UpcomingBirthdays(bs, today);
      (|r| < UpcomingWindow ==> b in r)
      && (forall x :: x in r && NextKey(b, today) < NextKey(x, today) ==> b in r)
  {
    assert b in EligibleRecords(bs, today);
    WindowIsEarliest(EligibleRecords(bs, today), today, UpcomingWindow, b);
  }

  // ---------------------------------------------------------------------
  // The `birthdays` state of the client application.

  /** `prev.map((b) => (b.id === id ? updated : b))`. */
  function ReplaceById(bs: seq<Birthday>, id: int, updated: Birthday): (r: seq<Birthday>)
    ensures |r| == |bs|
    ensures forall i :: 0 <= i < |bs| ==> r[i] == if bs[i].id == id then updated else bs[i]
  {
    seq(|bs|, i requires 0 <= i < |bs| => if bs[i].id == id then updated else bs[i])
  }

  /** `birthdays.filter((b) => b.id !== id)`. */
  function RemoveById(bs: seq<Birthday>, id: int): seq<Birthday> {
    Seqs.Filter(bs, (b: Birthday) => b.id != id)
  }

  /** Removing an id leaves no record with it, keeps every other record as
      many times as before, and keeps their order. */
  lemma RemoveByIdSpec(bs: seq<Birthday>, id: int)
    ensures forall b :: b in RemoveById(bs, id) ==> b.id != id
    ensures forall b: Birthday :: b.id != id ==> multiset(RemoveById(bs, id))[b] == multiset(bs)[b]
    ensures Seqs.IsSubseq(RemoveById(bs, id), bs)
  {
    forall b: Birthday | b.id != id ensures multiset(RemoveById(bs, id))[b] == multiset(bs)[b] {
      Seqs.FilterCount(bs, (x: Birthday) => x.id != id, b);
    }
  }

  /** The client's record list; each change awaits the server first, and a
      failed request leaves the list as it was. */
  class BirthdayBook {
    var birthdays: seq<Birthday>

    constructor ()
      ensures birthdays == []
    {
      birthdays := [];
    }

    /** `addBirthday`: appends the record the server returned. */
    method AddBirthday(serverOk: bool, added: Birthday)
      modifies this
      ensures birthdays == if serverOk then old(birthdays) + [added] else old(birthdays)
      ensures serverOk ==> |birthdays| == |old(birthdays)| + 1 && birthdays[|birthdays| - 1] == added
    {
      if serverOk {
        birthdays := birthdays + [added];
      }
    }

    /** `updateBirthday`: puts the server's record in place of every record
      with the id. */
    method UpdateBirthday(id: int, serverOk: bool, updated: Birthday)
      modifies this
      ensures birthdays == if serverOk then ReplaceById(old(birthdays), id, updated) else old(birthdays)
      ensures |birthdays| == |old(birthdays)|
    {
      if serverOk {
        birthdays := ReplaceById(birthdays, id, updated);
      }
    }

    /** `deleteBirthday`: drops every record with the id. */
    method DeleteBirthday(id: int, serverOk: bool)
      modifies this
      ensures birthdays == if serverOk then RemoveById(old(birthdays), id) else old(birthdays)
      ensures serverOk ==> forall b :: b in birthdays ==> b.id != id
    {
      if serverOk {
        RemoveByIdSpec(birthdays, id);
        birthdays := RemoveById(birthdays, id);
      }
    }
  }
}
