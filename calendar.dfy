/** The calendar page: which records fall on a clicked day, and the popup
    listing them. */
module Calendar {
  import opened Dates
  import opened Opt
  import opened Ranker
  import Seqs

  /** `getDateBirthdays`: the records whose birth (month, day) is that of
      `date`, in list order. */
  function DateBirthdays(bs: seq<Birthday>, date: CalDate): (r: seq<Birthday>)
    ensures forall b :: b in r <==> b in bs && b.date.Some? && SameMonthDay(b.date.value, date)
    ensures Seqs.IsSubseq(r, bs)
  {
    Seqs.Filter(bs, b => FallsOn(b, date))
  }

  /** On any day the calendar lists exactly the records the home page
      celebrates when that day is today, in the same order. */
  lemma DateBirthdaysAreTodays(bs: seq<Birthday>, date: CalDate)
    ensures |DateBirthdays(bs, date)| == |TodaysBirthdays(bs, date)|
    ensures forall i :: 0 <= i < |DateBirthdays(bs, date)| ==>
      DateBirthdays(bs, date)[i] == TodaysBirthdays(bs, date)[i].birthday
  {
  }

  /** A day is marked (cake and highlight) exactly when some record falls on it. */
  predicate Marked(bs: seq<Birthday>, date: CalDate) {
    |DateBirthdays(bs, date)| > 0
  }

  lemma MarkedIffSomeRecord(bs: seq<Birthday>, date: CalDate)
    ensures Marked(bs, date) <==> exists b :: b in bs && FallsOn(b, date)
  {
    var r := DateBirthdays(bs, date);
    if r != [] {
      assert r[0] in r;
    }
  }

  datatype Selection = Selection(date: CalDate, birthdays: seq<Birthday>)

  /** Where a click on the page lands once the popup is shown: outside it,
      on the popup itself, or on its × button. */
  datatype Click = Outside | InPopup | CloseButton

  /** The popup after a click, as written. The × button's `closePopup` finds
      its target inside `.birthday-popup` and returns, and the popup's own
      handler stops the click before the container's `closePopup`; so only
      a click outside closes the popup. */
  function AfterClick(selected: Option<Selection>, click: Click): (r: Option<Selection>)
    ensures r.None? <==> selected.None? || click == Outside
    ensures r.Some? ==> r == selected
  {
    if click == Outside then None else selected
  }

  /** The popup after a click, as evidently intended: the × button closes
      it like a click outside. */
  function AfterClickFixed(selected: Option<Selection>, click: Click): (r: Option<Selection>)
    ensures r.None? <==> selected.None? || click != InPopup
    ensures r.Some? ==> r == selected
  {
    if click == InPopup then selected else None
  }

  /** As written, the × button never closes an open popup. */
  lemma CloseButtonKeepsPopup(selected: Option<Selection>)
    ensures AfterClick(selected, CloseButton) == selected
  {
  }

  /** Corrected, the × button closes the popup, and every other click
      behaves as before. */
  lemma CloseButtonCloses(selected: Option<Selection>, click: Click)
    ensures AfterClickFixed(selected, CloseButton).None?
    ensures click != CloseButton ==> AfterClickFixed(selected, click) == AfterClick(selected, click)
  {
  }

  /** The popup state of the calendar page. */
  class CalendarPage {
    var selected: Option<Selection>

    constructor ()
      ensures selected.None?
    {
      selected := None;
    }

    /** `handleDateClick`: a marked day opens the popup with its records;
      an unmarked day closes it. */
    method HandleDateClick(bs: seq<Birthday>, value: CalDate)
      modifies this
      ensures Marked(bs, value) ==> selected == Some(Selection(value, DateBirthdays(bs, value)))
      ensures !Marked(bs, value) ==> selected.None?
      ensures selected.Some? ==> selected.value.birthdays != [] && forall b :: b in selected.value.birthdays ==> b in bs && FallsOn(b, value)
    {
      var dateBirthdays := DateBirthdays(bs, value);
      if |dateBirthdays| > 0 {
        selected := Some(Selection(value, dateBirthdays));
      } else {
        selected := None;
      }
    }

    /** A click on the page while the popup may be shown: the handlers it
        reaches, in the order React runs them. */
    method HandleClick(click: Click)
      modifies this
      ensures selected == AfterClick(old(selected), click)
    {
      match click
      case CloseButton =>
        // the button's own `closePopup`; the popup then stops the click
        ClosePopup(true);
      case InPopup =>
        // the popup stops the click before it reaches the container
      case Outside =>
        // the container's `closePopup`
        ClosePopup(false);
    }

    /** `closePopup`: a click inside the popup keeps it, any other closes it. */
    method ClosePopup(insidePopup: bool)
      modifies this
      ensures selected == if insidePopup then old(selected) else None
    {
      if insidePopup {
        return;
      }
      selected := None;
    }
  }
}
