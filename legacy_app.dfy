/** The older, browser-only application: records kept in component state and
    mirrored to local storage, each carrying the `canonicalAge` entered with
    it; ids are one more than the largest id; the home page shows today's
    celebrants and the birthdays of the next 30 days of this calendar year. */
module LegacyApp {
  import opened Dates
  import opened Opt
  import opened Recurrence
  import Seqs
  import Text

  /** A record of the older application.  The birth date is required by the
      entry form, so it is always a valid date.  `details` holds the free-text
      fields (nickname, photo, zodiac, giftIdeas, favoriteColor, hobbies,
      notes) by name. */
  datatype Record = Record(
    id: int,
    name: string,
    date: CalDate,
    canonicalAge: int,
    age: Option<int>,
    details: map<string, string>)

  // ---------------------------------------------------------------------
  // Adding a record

  /** The largest id of a non-empty list. */
  function MaxId(bs: seq<Record>): (m: int)
    requires bs != []
    ensures forall b :: b in bs ==> b.id <= m
    ensures exists b :: b in bs && b.id == m
  {
    if |bs| == 1 then bs[0].id
    else
      var rest := MaxId(bs[1..]);
      assert forall b :: b in bs[1..] ==> b in bs;
      if bs[0].id > rest then bs[0].id else rest
  }

  /** `birthdays.length > 0 ? Math.max(...ids) + 1 : 1`: an id larger than
      every id in use, hence used by no record. */
  function NewId(bs: seq<Record>): (r: int)
    ensures forall b :: b in bs ==> b.id < r
    ensures bs == [] ==> r == 1
    ensures bs != [] ==> exists b :: b in bs && b.id == r - 1
  {
    if |bs| > 0 then MaxId(bs) + 1 else 1
  }

  /** The entry form's record: `canonicalAge` is the form's own age rule
      (full years, the anniversary counting as reached), the id a
      placeholder that `addBirthday` overwrites. */
  function FormRecord(placeholderId: int, name: string, date: CalDate, details: map<string, string>, today: CalDate): (r: Record)
    ensures r.canonicalAge == LegacyAge(date, today)
    ensures r.age.None?
  {
    Record(placeholderId, name, date, LegacyAge(date, today), None, details)
  }

  /** What `addBirthday` appends: the submitted record with a fresh id and
      `age` set to the difference of calendar years. */
  function Added(bs: seq<Record>, submitted: Record, today: CalDate): (r: Record)
    ensures r.id !in Ids(bs)
    ensures r.age == Some(today.year - submitted.date.year)
    ensures r.(id := submitted.id, age := submitted.age) == submitted
  {
    submitted.(id := NewId(bs), age := Some(today.year - submitted.date.year))
  }

  function Ids(bs: seq<Record>): (r: seq<int>)
    ensures |r| == |bs| && forall i :: 0 <= i < |bs| ==> r[i] == bs[i].id
  {
    seq(|bs|, i requires 0 <= i < |bs| => bs[i].id)
  }

  predicate DistinctIds(bs: seq<Record>) {
    forall i, j :: 0 <= i < j < |bs| ==> bs[i].id != bs[j].id
  }

  /** Adding keeps ids distinct. */
  lemma AddKeepsIdsDistinct(bs: seq<Record>, submitted: Record, today: CalDate)
    requires DistinctIds(bs)
    ensures DistinctIds(bs + [Added(bs, submitted, today)])
  {
    var r := bs + [Added(bs, submitted, today)];
    forall i, j | 0 <= i < j < |r| ensures r[i].id != r[j].id {
      if j == |bs| {
        assert Ids(bs)[i] == r[i].id;
      }
    }
  }

  // ---------------------------------------------------------------------
  // Updating a record

  /** The fields an update may carry; an absent field keeps its value. */
  datatype Patch = Patch(
    id: Option<int>,
    name: Option<string>,
    date: Option<CalDate>,
    canonicalAge: Option<int>,
    age: Option<int>,
    details: map<string, string>)

  const NoChange := Patch(None, None, None, None, None, map[])

  /** `{ ...b, ...patch }`: each field given in the patch replaces the
      record's, the others stay. */
  function Merge(b: Record, p: Patch): Record {
    Record(
      if p.id.Some? then p.id.value else b.id,
      if p.name.Some? then p.name.value else b.name,
      if p.date.Some? then p.date.value else b.date,
      if p.canonicalAge.Some? then p.canonicalAge.value else b.canonicalAge,
      if p.age.Some? then Some(p.age.value) else b.age,
      b.details + p.details)
  }

  /** A merge with an empty patch changes nothing, and merging the same patch
      twice is merging it once. */
  lemma MergeLaws(b: Record, p: Patch)
    ensures Merge(b, NoChange) == b
    ensures Merge(Merge(b, p), p) == Merge(b, p)
  {
    assert b.details + map[] == b.details;
    assert b.details + p.details + p.details == b.details + p.details;
  }

  /** `birthdays.map((b) => (b.id === id ? { ...b, ...patch } : b))`. */
  function UpdateById(bs: seq<Record>, id: int, p: Patch): (r: seq<Record>)
    ensures |r| == |bs|
  {
    seq(|bs|, i requires 0 <= i < |bs| => if bs[i].id == id then Merge(bs[i], p) else bs[i])
  }

  /** Only records with the id change, each as the merge says; a patch that
      leaves ids alone keeps the ids as they were, and an update applied twice
      has the effect of one. */
  lemma UpdateByIdSpec(bs: seq<Record>, id: int, p: Patch)
    ensures forall i :: 0 <= i < |bs| && bs[i].id != id ==> UpdateById(bs, id, p)[i] == bs[i]
    ensures forall i :: 0 <= i < |bs| && bs[i].id == id ==> UpdateById(bs, id, p)[i] == Merge(bs[i], p)
    ensures p.id.None? ==> Ids(UpdateById(bs, id, p)) == Ids(bs)
    ensures p.id.None? ==> UpdateById(UpdateById(bs, id, p), id, p) == UpdateById(bs, id, p)
  {
    if p.id.None? {
      var r := UpdateById(bs, id, p);
      forall i | 0 <= i < |bs| && bs[i].id == id ensures UpdateById(r, id, p)[i] == r[i] {
        MergeLaws(bs[i], p);
      }
    }
  }

  // ---------------------------------------------------------------------
  // The home page

  datatype Celebration = Celebration(record: Record, message: string, turningAge: int)

  /** The birth (month, day) is the (month, day) of `d`. */
  predicate FallsOn(b: Record, d: CalDate) {
    SameMonthDay(b.date, d)
  }

  /** The greeting, with the party-popper emoji as the source file spells it
      (its UTF-8 bytes read as Windows-1252). */
  function Greeting(name: string): string {
    "Happy Birthday " + name + "! \U{00F0}\U{0178}\U{017D}\U{2030}"
  }

  /** `getTodaysBirthdays` of the older application: the records born on
      today's (month, day), in order, turning the stored age plus one. */
  function TodaysBirthdays(bs: seq<Record>, today: CalDate): (r: seq<Celebration>)
    ensures |r| == |Seqs.Filter(bs, b => FallsOn(b, today))|
    ensures forall i :: 0 <= i < |r| ==>
      r[i].record == Seqs.Filter(bs, b => FallsOn(b, today))[i]
      && FallsOn(r[i].record, today)
      && r[i].turningAge == r[i].record.canonicalAge + 1
      && r[i].message == Greeting(r[i].record.name)
  {
    var matching := Seqs.Filter(bs, b => FallsOn(b, today));
    seq(|matching|, i requires 0 <= i < |matching| =>
      Celebration(matching[i], Greeting(matching[i].name), matching[i].canonicalAge + 1))
  }

  /** A record entered through the form on its own anniversary is shown
      turning one more year than have passed since the birth: the form's age
      counts the anniversary as reached, and the page adds one to it. */
  lemma EnteredOnAnniversary(placeholderId: int, name: string, date: CalDate, details: map<string, string>, today: CalDate)
    requires SameMonthDay(date, today)
    ensures var c := TodaysBirthdays([FormRecord(placeholderId, name, date, details, today)], today);
      |c| == 1 && c[0].turningAge == today.year - date.year + 1
  {
    var b := FormRecord(placeholderId, name, date, details, today);
    assert Seqs.Filter([b], b => FallsOn(b, today)) == [b];
  }

  /** The window is 30 days. */
  const WindowDays := 30
  const WindowSize: nat := 4

  /** This year's occurrence, `new Date(currentYear, month, day)`: never
      moved to the next year. */
  function ThisYearKey(b: Record, today: CalDate): int {
    DayNumber(OccurrenceIn(b.date, today.year))
  }

  predicate InWindow(b: Record, today: CalDate) {
    DayNumber(today) < ThisYearKey(b, today) <= DayNumber(AddDays(today, WindowDays))
  }

  function Keyed(bs: seq<Record>, today: CalDate): (r: seq<(int, Record)>)
    ensures |r| == |bs|
    ensures forall i :: 0 <= i < |r| ==> r[i] == (ThisYearKey(bs[i], today), bs[i])
  {
    seq(|bs|, i requires 0 <= i < |bs| => (ThisYearKey(bs[i], today), bs[i]))
  }

  /** `getUpcomingBirthdays` of the older application: records whose
      occurrence in the current year lies after today and at most 30 days
      ahead, sorted (stably) by it, at most four, without the temporary key. */
  function UpcomingBirthdays(bs: seq<Record>, today: CalDate): seq<Record> {
    var inWindow := Seqs.Filter(bs, b => InWindow(b, today));
    Seqs.Values(Seqs.Take(Seqs.StableSort(Keyed(inWindow, today)), WindowSize))
  }

  lemma SortKeyed(bs: seq<Record>, today: CalDate)
    ensures var sorted := Seqs.StableSort(Keyed(bs, today));
      && |sorted| == |bs|
      && Seqs.SortedByKey(sorted)
      && (forall i :: 0 <= i < |sorted| ==> sorted[i].1 in bs && sorted[i].0 == ThisYearKey(sorted[i].1, today))
      && (forall b :: b in bs ==> exists i :: 0 <= i < |sorted| && sorted[i].1 == b)
  {
    var ks := Keyed(bs, today);
    var sorted := Seqs.StableSort(ks);
    Seqs.StableSortCorrect(ks);
    assert |sorted| == |multiset(sorted)| == |multiset(ks)| == |ks|;
    forall i | 0 <= i < |sorted|
      ensures sorted[i].1 in bs && sorted[i].0 == ThisYearKey(sorted[i].1, today)
    {
      assert sorted[i] in multiset(ks);
      var j :| 0 <= j < |ks| && ks[j] == sorted[i];
    }
    forall b | b in bs ensures exists i :: 0 <= i < |sorted| && sorted[i].1 == b {
      var j :| 0 <= j < |bs| && bs[j] == b;
      assert ks[j] in multiset(sorted);
      var i :| 0 <= i < |sorted| && sorted[i] == ks[j];
    }
  }

  /** The first `n` of a keyed list sorted by this year's occurrence are
      records of the list, ascending. */
  lemma WindowSorted(es: seq<Record>, today: CalDate, n: nat)
    ensures var r := Seqs.Values(Seqs.Take(Seqs.StableSort(Keyed(es, today)), n));
      && |r| <= n
      && (forall x :: x in r ==> x in es)
      && (forall i, j :: 0 <= i < j < |r| ==> ThisYearKey(r[i], today) <= ThisYearKey(r[j], today))
  {
    var sorted := Seqs.StableSort(Keyed(es, today));
    SortKeyed(es, today);
    Seqs.TakeValuesSortedBy(sorted, x => ThisYearKey(x, today), n, es);
  }

  /** Each listed record is one of the input whose birthday is 1 to 30 days
      away within the current year; the list is ascending and has at most
      four records. */
  lemma UpcomingSorted(bs: seq<Record>, today: CalDate)
    ensures var r := UpcomingBirthdays(bs, today);
      && |r| <= WindowSize
      && (forall x :: x in r ==> x in bs && InWindow(x, today) && 1 <= DaysUntilThisYear(x.date, today) <= WindowDays)
      && (forall i, j :: 0 <= i < j < |r| ==> ThisYearKey(r[i], today) <= ThisYearKey(r[j], today))
  {
    WindowSorted(Seqs.Filter(bs, b => InWindow(b, today)), today, WindowSize);
  }

  /** The first `n` of a keyed list sorted by this year's occurrence are its
      earliest records. */
  lemma WindowIsEarliest(es: seq<Record>, today: CalDate, n: nat, b: Record)
    requires b in es
    ensures var r := Seqs.Values(Seqs.Take(Seqs.StableSort(Keyed(es, today)), n));
      (|r| < n ==> b in r)
      && (forall x :: x in r && ThisYearKey(b, today) < ThisYearKey(x, today) ==> b in r)
  {
    var sorted := Seqs.StableSort(Keyed(es, today));
    SortKeyed(es, today);
    var r := Seqs.Values(Seqs.Take(sorted, n));
    var p :| 0 <= p < |sorted| && sorted[p].1 == b;
    Seqs.TakeValuesEarliestBy(sorted, x => ThisYearKey(x, today), n, p);
  }


  /** The window keeps the earliest in-window records: one earlier than a
      listed record is listed too, and when fewer than four are listed every
      in-window record is. */
  lemma UpcomingIsEarliest(bs: seq<Record>, today: CalDate, b: Record)
    requires b in bs && InWindow(b, today)
    ensures var r := UpcomingBirthdays(bs, today);
      (|r| < WindowSize ==> b in r)
      && (forall x :: x in r && ThisYearKey(b, today) < ThisYearKey(x, today) ==> b in r)
  {
    WindowIsEarliest(Seqs.Filter(bs, b => InWindow(b, today)), today, WindowSize, b);
  }

  /** With no year rollover, a birthday already past this year (or today) is
      never listed, however close next year's occurrence is. */
  lemma UpcomingNoRollover(bs: seq<Record>, today: CalDate, b: Record)
    requires !MonthDayLess(today, b.date)
    ensures b !in UpcomingBirthdays(bs, today)
  {
    UpcomingSorted(bs, today);
  }

  /** `getDemoBirthdate(daysToAdd, age)`: the date `daysToAdd` days from
      today, written `YYYY-MM-DD` with the year replaced by
      `currentYear - age`; for a year that is not negative it reads back as
      that year with the shifted date's month and day. */
  function DemoBirthdate(today: CalDate, daysToAdd: int, age: int): (r: string)
    ensures var shifted := AddDays(today, daysToAdd);
      age <= today.year ==> Text.ParseYmd(r) == Some(Date(today.year - age, shifted.month, shifted.day))
  {
    var shifted := AddDays(today, daysToAdd);
    if age <= today.year then
      Text.ParseFormatYmd(today.year - age, shifted.month, shifted.day);
      Text.FormatYmd(today.year - age, shifted.month, shifted.day)
    else
      Text.FormatYmd(today.year - age, shifted.month, shifted.day)
  }

  /** With no shift the demo birthday falls on today. */
  lemma DemoBirthdateToday(today: CalDate, age: int)
    requires age <= today.year
    ensures Text.ParseYmd(DemoBirthdate(today, 0, age)).Some?
    ensures SameMonthDay(Text.ParseYmd(DemoBirthdate(today, 0, age)).value, today)
  {
    assert AddDays(today, 0) == today;
  }

  // ---------------------------------------------------------------------
  // The record list and its local-storage copy

  /** `birthdays.find((b) => b.id === id)`: the first record with the id. */
  function Find(bs: seq<Record>, id: int): (r: Option<Record>)
    ensures r.None? <==> id !in Ids(bs)
    ensures r.Some? ==> r.value in bs && r.value.id == id
    ensures r.Some? ==> exists i :: 0 <= i < |bs| && bs[i] == r.value && forall j :: 0 <= j < i ==> bs[j].id != id
  {
    var i := Seqs.FindIndex(bs, (b: Record) => b.id == id);
    if i == -1 then
      assert forall j :: 0 <= j < |bs| ==> Ids(bs)[j] != id;
      None
    else
      assert Ids(bs)[i] == id;
      Some(bs[i])
  }

  /** `birthdays.filter((b) => b.id !== id)`. */
  function RemoveById(bs: seq<Record>, id: int): (r: seq<Record>)
    ensures id !in Ids(r)
    ensures forall b :: b in bs && b.id != id ==> b in r
    ensures Seqs.IsSubseq(r, bs)
  {
    var r := Seqs.Filter(bs, (b: Record) => b.id != id);
    assert forall j :: 0 <= j < |r| ==> Ids(r)[j] != id;
    r
  }

  datatype DeleteOutcome = NotFound | Declined | Deleted

  /** The state of the older application: the record list and the copy the
      page keeps in local storage. */
  class Book {
    var birthdays: seq<Record>
    var stored: seq<Record>

    /** Every change writes the list through to storage. */
    predicate Synced()
      reads this
    {
      stored == birthdays
    }

    constructor (initial: seq<Record>)
      ensures birthdays == initial && Synced()
    {
      birthdays := initial;
      stored := initial;
    }

    /** `addBirthday`. */
    method AddBirthday(submitted: Record, today: CalDate)
      modifies this
      ensures birthdays == old(birthdays) + [Added(old(birthdays), submitted, today)]
      ensures Synced()
      ensures DistinctIds(old(birthdays)) ==> DistinctIds(birthdays)
    {
      var added := Added(birthdays, submitted, today);
      if DistinctIds(birthdays) {
        AddKeepsIdsDistinct(birthdays, submitted, today);
      }
      birthdays := birthdays + [added];
      stored := birthdays;
    }

    /** `updateBirthday`. */
    method UpdateBirthday(id: int, p: Patch)
      modifies this
      ensures birthdays == UpdateById(old(birthdays), id, p)
      ensures Synced()
    {
      birthdays := UpdateById(birthdays, id, p);
      stored := birthdays;
    }

    /** The detail page's delete: `routeId` is `parseInt` of the route
      parameter (None when it is not a number).  An unknown id shows "not
      found" and changes nothing; a declined confirmation changes nothing;
      otherwise every record with the id goes, from the list and from
      storage. */
    method HandleDelete(routeId: Option<int>, confirmed: bool) returns (outcome: DeleteOutcome)
      modifies this
      ensures outcome == NotFound <==> routeId.None? || Find(old(birthdays), routeId.value).None?
      ensures outcome == Declined <==> outcome != NotFound && !confirmed
      ensures outcome == Deleted ==> birthdays == RemoveById(old(birthdays), routeId.value) && Synced()
      ensures outcome != Deleted ==> birthdays == old(birthdays) && stored == old(stored)
    {
      if routeId.None? || Find(birthdays, routeId.value).None? {
        return NotFound;
      }
      if !confirmed {
        return Declined;
      }
      birthdays := RemoveById(birthdays, routeId.value);
      stored := birthdays;
      return Deleted;
    }
  }
}
