/** The events page: the month shown, moved back and forth with wrap-around
    at the turn of the year, and the list of events of that month in the
    selected category. Months are numbered 0 (January) to 11 (December), as
    `Date.prototype.getMonth` numbers them. */
module Events {
  import opened Common

  /** A month of a year. */
  datatype MonthYear = MonthYear(month: int, year: int)

  /** An event. `date` is what `new Date(event.date)` yields: the month and
      year of a date string that parses, or `None` for an invalid date, whose
      `getMonth()` and `getFullYear()` are `NaN`. */
  datatype Event = Event(
    id: string,
    title: string,
    date: Option<MonthYear>,
    time: string,
    location: string,
    description: string,
    category: Option<string>)

  /** The category filter that imposes nothing. */
  const AllCategories: string := "all"

  /** `isCurrentMonth` (lines 160-162). A comparison with `NaN` is false. */
  predicate InMonth(e: Event, month: int, year: int) {
    e.date.Some? && e.date.value.month == month && e.date.value.year == year
  }

  /** `matchesFilter` (line 163): an event without a category never equals a
      category string. */
  predicate MatchesCategory(e: Event, filter: string) {
    filter == AllCategories || e.category == Some(filter)
  }

  function Shows(month: int, year: int, filter: string): Event -> bool {
    (e: Event) => InMonth(e, month, year) && MatchesCategory(e, filter)
  }

  /** `filteredEvents` (lines 158-166). */
  function FilteredEvents(events: seq<Event>, month: int, year: int, filter: string): seq<Event> {
    Filter(Shows(month, year, filter), events)
  }

  /** `handleNextMonth` (lines 177-184). */
  function Following(c: MonthYear): MonthYear {
    if c.month == 11 then MonthYear(0, c.year + 1) else MonthYear(c.month + 1, c.year)
  }

  /** `handlePrevMonth` (lines 168-175). */
  function Preceding(c: MonthYear): MonthYear {
    if c.month == 0 then MonthYear(11, c.year - 1) else MonthYear(c.month - 1, c.year)
  }

  predicate ValidMonth(c: MonthYear) { 0 <= c.month <= 11 }

  /** Months counted from January of year 0. */
  function Index(c: MonthYear): int { c.year * 12 + c.month }

  /** The month with a given count: the reference the two transitions are
      checked against. */
  function FromIndex(k: int): (c: MonthYear)
    ensures ValidMonth(c) && Index(c) == k
  {
    MonthYear(k % 12, k / 12)
  }

  /** The page's state: the month shown and the category filter, over the
      events it has loaded. */
  class Calendar {
    const events: seq<Event>
    var currentMonth: int
    var currentYear: int
    var filter: string

    ghost predicate Valid()
      reads this
    {
      0 <= currentMonth <= 11
    }

    function Shown(): MonthYear
      reads this
    {
      MonthYear(currentMonth, currentYear)
    }

    function Visible(): seq<Event>
      reads this
    {
      FilteredEvents(events, currentMonth, currentYear, filter)
    }

    /** The initial state (lines 42-48): today's month and year, no filter.
        The clock is a parameter. */
    constructor (events: seq<Event>, today: MonthYear)
      requires ValidMonth(today)
      ensures Valid()
      ensures this.events == events && Shown() == today && filter == AllCategories
    {
      this.events := events;
      currentMonth := today.month;
      currentYear := today.year;
      filter := AllCategories;
    }

    method PrevMonth()
      requires Valid()
      modifies this
      ensures Valid()
      ensures Shown() == Preceding(old(Shown()))
      ensures Index(Shown()) == Index(old(Shown())) - 1
      ensures filter == old(filter)
    {
      PrecedingValid(Shown());
      if currentMonth == 0 {
        currentMonth := 11;
        currentYear := currentYear - 1;
      } else {
        currentMonth := currentMonth - 1;
      }
    }

    method NextMonth()
      requires Valid()
      modifies this
      ensures Valid()
      ensures Shown() == Following(old(Shown()))
      ensures Index(Shown()) == Index(old(Shown())) + 1
      ensures filter == old(filter)
    {
      FollowingValid(Shown());
      if currentMonth == 11 {
        currentMonth := 0;
        currentYear := currentYear + 1;
      } else {
        currentMonth := currentMonth + 1;
      }
    }

    /** `onValueChange={setFilter}` (line 222). */
    method SetFilter(f: string)
      requires Valid()
      modifies this
      ensures Valid()
      ensures filter == f && Shown() == old(Shown())
    {
      filter := f;
    }

    /** The "back to the current month" button (lines 277-281): today's month
        and year, and every category. The clock is a parameter. */
    method BackToToday(today: MonthYear)
      requires Valid() && ValidMonth(today)
      modifies this
      ensures Valid()
      ensures Shown() == today && filter == AllCategories
      ensures Visible() == Filter((e: Event) => InMonth(e, today.month, today.year), events)
    {
      currentMonth := today.month;
      currentYear := today.year;
      filter := AllCategories;
      AllCategoriesByMonth(events, today.month, today.year);
    }
  }

  // ---------------------------------------------------------------------------
  // Properties of the filter

  /** An event is listed exactly when it is one of the events, falls in the
      month shown, and is in the selected category or every category is
      selected. */
  lemma FilteredMembers(events: seq<Event>, month: int, year: int, filter: string, e: Event)
    ensures e in FilteredEvents(events, month, year, filter)
        <==> e in events && InMonth(e, month, year) && (filter == AllCategories || e.category == Some(filter))
  {
    FilterMembers(Shows(month, year, filter), events);
  }

  /** The list keeps the order of the events. */
  lemma FilteredInOrder(events: seq<Event>, month: int, year: int, filter: string)
    ensures IsSubsequence(FilteredEvents(events, month, year, filter), events)
  {
    FilterIsSubsequence(Shows(month, year, filter), events);
  }

  /** An event without a category is listed only when every category is. */
  lemma UncategorisedDropped(events: seq<Event>, month: int, year: int, filter: string, e: Event)
    requires filter != AllCategories && e.category.None?
    ensures e !in FilteredEvents(events, month, year, filter)
  {
    FilteredMembers(events, month, year, filter, e);
  }

  /** An event whose date does not parse is never listed. */
  lemma InvalidDateDropped(events: seq<Event>, month: int, year: int, filter: string, e: Event)
    requires e.date.None?
    ensures e !in FilteredEvents(events, month, year, filter)
  {
    FilteredMembers(events, month, year, filter, e);
  }

  /** With every category selected only the month decides. */
  lemma AllCategoriesByMonth(events: seq<Event>, month: int, year: int)
    ensures FilteredEvents(events, month, year, AllCategories)
         == Filter((e: Event) => InMonth(e, month, year), events)
  {
    FilterCongruent(Shows(month, year, AllCategories), (e: Event) => InMonth(e, month, year), events);
  }

  /** Narrowing from every category to one keeps a subsequence. */
  lemma CategoryNarrows(events: seq<Event>, month: int, year: int, filter: string)
    ensures IsSubsequence(FilteredEvents(events, month, year, filter), FilteredEvents(events, month, year, AllCategories))
  {
    FilterStronger(Shows(month, year, filter), Shows(month, year, AllCategories), events);
  }

  // ---------------------------------------------------------------------------
  // Properties of the navigation

  lemma FollowingValid(c: MonthYear)
    requires ValidMonth(c)
    ensures ValidMonth(Following(c)) && Index(Following(c)) == Index(c) + 1
  {
  }

  lemma PrecedingValid(c: MonthYear)
    requires ValidMonth(c)
    ensures ValidMonth(Preceding(c)) && Index(Preceding(c)) == Index(c) - 1
  {
  }

  /** Two valid months with the same count are the same month. */
  lemma IndexInjective(c: MonthYear, d: MonthYear)
    requires ValidMonth(c) && ValidMonth(d) && Index(c) == Index(d)
    ensures c == d
  {
  }

  /** The next month is the month with the next count. */
  lemma FollowingIsSuccessor(c: MonthYear)
    requires ValidMonth(c)
    ensures Following(c) == FromIndex(Index(c) + 1)
  {
    FollowingValid(c);
    IndexInjective(Following(c), FromIndex(Index(c) + 1));
  }

  /** The previous month is the month with the previous count. */
  lemma PrecedingIsPredecessor(c: MonthYear)
    requires ValidMonth(c)
    ensures Preceding(c) == FromIndex(Index(c) - 1)
  {
    PrecedingValid(c);
    IndexInjective(Preceding(c), FromIndex(Index(c) - 1));
  }

  /** Forward then back, or back then forward, returns to the same month. */
  lemma NavigationInverse(c: MonthYear)
    requires ValidMonth(c)
    ensures Preceding(Following(c)) == c
    ensures Following(Preceding(c)) == c
  {
  }

  /** December wraps to January of the next year, January to December of the
      previous one. */
  lemma YearBoundary(year: int)
    ensures Following(MonthYear(11, year)) == MonthYear(0, year + 1)
    ensures Preceding(MonthYear(0, year)) == MonthYear(11, year - 1)
  {
  }
}
