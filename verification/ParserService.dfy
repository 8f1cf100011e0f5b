/** From weekly lessons to dated slots, and on into the store. Instants are minutes; the time zone is a
    fixed offset. */
module ParserService {
  import opened Calendar
  import opened WeekParity
  import opened BookingDomain
  import opened RoomNames
  import opened BookingStore
  import opened ScheduleImport
  import opened BookingStoreClass

  const LESSON_MINUTES := 95
  const DAY_MINUTES := 1440

  datatype WeekLabel = AnyWeek | OddWeeks | EvenWeeks

  datatype Clock = Clock(hour: int, minute: int) | BadClock
  datatype Day = Day(weekday: int) | BadDay

  /** A lesson as scraped; clock and weekday may have been unreadable. */
  datatype Lesson = Lesson(details: Details, clock: Clock, day: Day, weeks: WeekLabel)

  predicate Readable(l: Lesson) {
    && l.clock.Clock? && 0 <= l.clock.hour < 24 && 0 <= l.clock.minute < 60
    && l.day.Day? && 0 <= l.day.weekday < 7
  }

  datatype Config = Config(weeksAhead: int, defaultBuilding: string, defaultCapacity: int, offset: int)

  /** What the constructor of the service accepts. */
  predicate ConfigOk(c: Config) {
    c.weeksAhead > 0 && c.defaultCapacity > 0 && c.defaultBuilding != ""
  }

  function LocalDay(t: int, offset: int): int { (t + offset) / DAY_MINUTES }

  /** `weekStart`, on days. */
  function WeekStart(d: int): (m: int)
    ensures Weekday(m) == MONDAY && m <= d < m + 7
  {
    var back := Weekday(d) - MONDAY;
    d - if back < 0 then 6 else back
  }

  /** It is the same Monday for all seven days, so taking it twice is taking it once. */
  lemma WeekStartConstant(monday: int, k: int)
    requires Weekday(monday) == MONDAY && 0 <= k < 7
    ensures WeekStart(monday + k) == monday && WeekStart(WeekStart(monday + k)) == WeekStart(monday + k)
  {
  }

  function WeekdayOffset(w: int): (k: int)
    requires 0 <= w < 7
    ensures 0 <= k < 7
    ensures forall monday | Weekday(monday) == MONDAY :: Weekday(monday + k) == w
  {
    if w == SUNDAY then 6 else w - MONDAY
  }

  predicate MatchesWeek(weeks: WeekLabel, d: int) {
    match weeks
    case AnyWeek => true
    case OddWeeks => IsoWeek(d) % 2 != 0
    case EvenWeeks => IsoWeek(d) % 2 == 0
  }

  /** Which of n weeks a label selects; `first` is the lesson's day in week 0. */
  function Keeps(weeks: WeekLabel, first: int, n: nat): seq<bool> { seq(n, w => MatchesWeek(weeks, first + 7 * w)) }

  function Pick(keep: seq<bool>, first: int): (days: seq<int>)
    ensures |days| <= |keep|
  {
    if keep == [] then []
    else Pick(keep[..|keep| - 1], first) + if keep[|keep| - 1] then [first + 7 * (|keep| - 1)] else []
  }

  /** The selected days. */
  function Dated(weeks: WeekLabel, first: int, n: nat): seq<int> { Pick(Keeps(weeks, first, n), first) }

  function LessonSlot(cfg: Config, roomName: string, building: string, l: Lesson, day: int): ScheduleSlot
    requires l.clock.Clock?
  {
    var start := day * DAY_MINUTES + l.clock.hour * 60 + l.clock.minute - cfg.offset;
    ScheduleSlot(roomName, building, cfg.defaultCapacity, l.details, start, start + LESSON_MINUTES)
  }

  function FirstDay(cfg: Config, now: int, l: Lesson): int
    requires Readable(l)
  {
    WeekStart(LocalDay(now, cfg.offset)) + WeekdayOffset(l.day.weekday)
  }

  function LessonSlots(cfg: Config, roomName: string, building: string, l: Lesson, days: seq<int>)
    : (r: seq<ScheduleSlot>)
    requires l.clock.Clock?
    ensures |r| == |days| && forall i | 0 <= i < |days| :: r[i] == LessonSlot(cfg, roomName, building, l, days[i])
  {
    seq(|days|, i requires 0 <= i < |days| => LessonSlot(cfg, roomName, building, l, days[i]))
  }

  /** The slots of a lesson in a room of that name and building. */
  function ExpandedIn(cfg: Config, now: int, roomName: string, building: string, l: Lesson): seq<ScheduleSlot>
    requires Readable(l) && ConfigOk(cfg)
  {
    LessonSlots(cfg, roomName, building, l, Dated(l.weeks, FirstDay(cfg, now, l), cfg.weeksAhead))
  }

  function Expanded(cfg: Config, now: int, room: string, l: Lesson): seq<ScheduleSlot>
    requires Readable(l) && ConfigOk(cfg)
  {
    var (roomName, building) := NormalizeRoom(room, cfg.defaultBuilding);
    ExpandedIn(cfg, now, roomName, building, l)
  }

  lemma PickStep(keep: seq<bool>, first: int)
    requires keep != []
    ensures Pick(keep, first) ==
            Pick(keep[..|keep| - 1], first) + if keep[|keep| - 1] then [first + 7 * (|keep| - 1)] else []
  {
  }

  lemma KeepsStep(weeks: WeekLabel, first: int, n: nat)
    requires n > 0
    ensures Keeps(weeks, first, n) == Keeps(weeks, first, n - 1) + [MatchesWeek(weeks, first + 7 * (n - 1))]
    ensures Keeps(weeks, first, n)[..n - 1] == Keeps(weeks, first, n - 1)
  {
  }

  lemma DatedStep(weeks: WeekLabel, first: int, week: nat, date: int)
    requires date == first + 7 * week
    ensures Dated(weeks, first, week + 1) == Dated(weeks, first, week) + if MatchesWeek(weeks, date) then [date] else []
  {
    KeepsStep(weeks, first, week + 1);
    PickStep(Keeps(weeks, first, week + 1), first);
  }

  lemma SlotsStep(cfg: Config, roomName: string, building: string, l: Lesson, days: seq<int>, date: int)
    requires l.clock.Clock?
    ensures LessonSlots(cfg, roomName, building, l, days + [date])
            == LessonSlots(cfg, roomName, building, l, days) + [LessonSlot(cfg, roomName, building, l, date)]
  {
  }

  /** The loop of `expand` over the weeks ahead. */
  method ExpandWeeks(cfg: Config, roomName: string, building: string, l: Lesson, first: int)
    returns (slots: seq<ScheduleSlot>)
    requires Readable(l) && cfg.weeksAhead > 0
    ensures slots == LessonSlots(cfg, roomName, building, l, Dated(l.weeks, first, cfg.weeksAhead))
  {
    slots := [];
    var week := 0;
    while week < cfg.weeksAhead
      invariant 0 <= week <= cfg.weeksAhead
      invariant slots == LessonSlots(cfg, roomName, building, l, Dated(l.weeks, first, week))
    {
      var date := first + 7 * week;
      DatedStep(l.weeks, first, week, date);
      ghost var days := Dated(l.weeks, first, week);
      week := week + 1;
      if !MatchesWeek(l.weeks, date) { continue; }
      SlotsStep(cfg, roomName, building, l, days, date);
      slots := slots + [LessonSlot(cfg, roomName, building, l, date)];
    }
  }

  /** The dates of a lesson, in local days: on its weekday, in the weeks ahead that begin with the Monday of the week
      of the clock's reading, and odd or even by their ISO number where the label asks for it. */
  predicate DateOf(cfg: Config, now: int, l: Lesson, day: int) {
    var today := (now + cfg.offset) / 1440;
    var monday := today - today % 7;
    && monday <= day < monday + 7 * cfg.weeksAhead
    && l.day.Day? && (day + 1) % 7 == l.day.weekday
    && (l.weeks == OddWeeks ==> IsoWeek(day) % 2 == 1) && (l.weeks == EvenWeeks ==> IsoWeek(day) % 2 == 0)
  }

  /** The slot of a lesson on a local day: at the lesson's clock time, for 95 minutes, with the lesson's details. */
  predicate SlotOn(cfg: Config, roomName: string, building: string, l: Lesson, day: int, s: ScheduleSlot) {
    && l.clock.Clock? && s.start + cfg.offset == day * 1440 + l.clock.hour * 60 + l.clock.minute
    && (s.start + cfg.offset) % 1440 == l.clock.hour * 60 + l.clock.minute && s.end - s.start == 95
    && s.details == l.details && s.roomName == roomName && s.building == building && s.capacity == cfg.defaultCapacity
  }

  ghost predicate EachOnDate(cfg: Config, now: int, roomName: string, building: string, l: Lesson,
                             slots: seq<ScheduleSlot>)
  {
    forall i | 0 <= i < |slots| ::
      var day := (slots[i].start + cfg.offset) / 1440;
      DateOf(cfg, now, l, day) && SlotOn(cfg, roomName, building, l, day, slots[i])
  }

  ghost predicate EachDateHas(cfg: Config, now: int, roomName: string, building: string, l: Lesson,
                              slots: seq<ScheduleSlot>)
  {
    forall day | DateOf(cfg, now, l, day) ::
      exists i :: 0 <= i < |slots| && SlotOn(cfg, roomName, building, l, day, slots[i])
  }

  predicate InOrder(slots: seq<ScheduleSlot>) { forall i, j | 0 <= i < j < |slots| :: slots[i].end < slots[j].start }

  /** One slot for each date of the lesson, none for any other day, in order of time and disjoint. */
  ghost predicate ExpandsTo(cfg: Config, now: int, roomName: string, building: string, l: Lesson,
                            slots: seq<ScheduleSlot>)
  {
    && EachOnDate(cfg, now, roomName, building, l, slots) && EachDateHas(cfg, now, roomName, building, l, slots)
    && InOrder(slots)
  }

  /** The weeks that are picked, by number. */
  function Weeks(keep: seq<bool>): (r: seq<nat>) {
    if keep == [] then [] else Weeks(keep[..|keep| - 1]) + if keep[|keep| - 1] then [|keep| - 1] else []
  }

  lemma {:induction false} WeeksShape(keep: seq<bool>)
    ensures forall i | 0 <= i < |Weeks(keep)| :: Weeks(keep)[i] < |keep| && keep[Weeks(keep)[i]]
    ensures forall i, j | 0 <= i < j < |Weeks(keep)| :: Weeks(keep)[i] < Weeks(keep)[j]
  {
    if keep != [] {
      var init := keep[..|keep| - 1];
      WeeksShape(init);
      assert forall k | 0 <= k < |init| :: init[k] == keep[k];
    }
  }

  /** The picked days are those of the picked weeks. */
  lemma {:induction false} PickShape(keep: seq<bool>, first: int)
    ensures |Pick(keep, first)| == |Weeks(keep)|
    ensures forall i | 0 <= i < |Weeks(keep)| :: Pick(keep, first)[i] == first + 7 * Weeks(keep)[i]
  {
    if keep != [] { PickShape(keep[..|keep| - 1], first); }
  }

  lemma WeeksAll(keep: seq<bool>, week: nat) returns (i: nat)
    requires week < |keep| && keep[week]
    ensures i < |Weeks(keep)| && Weeks(keep)[i] == week
    decreases |keep|
  {
    if week == |keep| - 1 {
      i := |Weeks(keep)| - 1;
    } else {
      i := WeeksAll(keep[..|keep| - 1], week);
    }
  }

  /** The selected days are those of the weeks that match, each once and in order. */
  lemma DatedShape(weeks: WeekLabel, first: int, n: nat)
    ensures forall i | 0 <= i < |Dated(weeks, first, n)| ::
              var day := Dated(weeks, first, n)[i];
              first <= day < first + 7 * n && (day - first) % 7 == 0 && MatchesWeek(weeks, day)
    ensures forall i, j | 0 <= i < j < |Dated(weeks, first, n)| ::
              Dated(weeks, first, n)[i] + 7 <= Dated(weeks, first, n)[j]
  {
    hide MatchesWeek;
    var keep := Keeps(weeks, first, n);
    var days, ws := Dated(weeks, first, n), Weeks(keep);
    PickShape(keep, first);
    WeeksShape(keep);
    forall i | 0 <= i < |days|
      ensures first <= days[i] < first + 7 * n && (days[i] - first) % 7 == 0 && MatchesWeek(weeks, days[i])
    {
      assert keep[ws[i]] && days[i] == first + 7 * ws[i];
    }
    forall i, j | 0 <= i < j < |days| ensures days[i] + 7 <= days[j] {
      assert ws[i] < ws[j];
    }
  }

  lemma DatedAll(weeks: WeekLabel, first: int, n: nat, day: int) returns (i: nat)
    requires first <= day < first + 7 * n && (day - first) % 7 == 0 && MatchesWeek(weeks, day)
    ensures i < |Dated(weeks, first, n)| && Dated(weeks, first, n)[i] == day
  {
    hide MatchesWeek;
    var keep, week := Keeps(weeks, first, n), (day - first) / 7;
    assert first + 7 * week == day;
    i := WeeksAll(keep, week);
    PickShape(keep, first);
  }

  lemma WeekStartIs(d: int)
    ensures WeekStart(d) == d - d % 7
  {
  }

  lemma OnWeekday(monday: int, w: int, day: int)
    requires 0 <= w < 7 && monday % 7 == 0
    ensures var first := monday + WeekdayOffset(w);
            && (first <= day && (day - first) % 7 == 0 ==> (day + 1) % 7 == w && monday <= day)
            && (monday <= day && (day + 1) % 7 == w ==> first <= day && (day - first) % 7 == 0)
  {
  }

  lemma InWeeks(monday: int, w: int, n: nat, day: int)
    requires 0 <= w < 7 && monday % 7 == 0 && (day + 1) % 7 == w
    ensures monday <= day < monday + 7 * n <==>
            monday + WeekdayOffset(w) <= day < monday + WeekdayOffset(w) + 7 * n
  {
  }

  lemma LabelInWords(weeks: WeekLabel, day: int)
    ensures MatchesWeek(weeks, day) <==>
            (weeks == OddWeeks ==> IsoWeek(day) % 2 == 1) && (weeks == EvenWeeks ==> IsoWeek(day) % 2 == 0)
  {
  }

  /** A lesson's first day and label, in words. */
  lemma DateIff(cfg: Config, now: int, l: Lesson, day: int)
    requires Readable(l) && cfg.weeksAhead > 0
    ensures var first := FirstDay(cfg, now, l);
            DateOf(cfg, now, l, day) <==>
            first <= day < first + 7 * cfg.weeksAhead && (day - first) % 7 == 0 && MatchesWeek(l.weeks, day)
  {
    hide IsoWeek, MatchesWeek;
    var today := (now + cfg.offset) / 1440;
    WeekStartIs(today);
    OnWeekday(today - today % 7, l.day.weekday, day);
    if (day + 1) % 7 == l.day.weekday { InWeeks(today - today % 7, l.day.weekday, cfg.weeksAhead, day); }
    LabelInWords(l.weeks, day);
  }

  lemma SlotInWords(cfg: Config, roomName: string, building: string, l: Lesson, day: int)
    requires Readable(l)
    ensures var s := LessonSlot(cfg, roomName, building, l, day);
            SlotOn(cfg, roomName, building, l, day, s) && (s.start + cfg.offset) / 1440 == day
  {
  }

  lemma SlotAt(cfg: Config, now: int, roomName: string, building: string, l: Lesson, i: nat)
    requires Readable(l) && ConfigOk(cfg) && i < |Dated(l.weeks, FirstDay(cfg, now, l), cfg.weeksAhead)|
    ensures var slots := ExpandedIn(cfg, now, roomName, building, l);
            var day := Dated(l.weeks, FirstDay(cfg, now, l), cfg.weeksAhead)[i];
            && i < |slots| && (slots[i].start + cfg.offset) / 1440 == day
            && SlotOn(cfg, roomName, building, l, day, slots[i]) && DateOf(cfg, now, l, day)
  {
    hide DateOf, SlotOn, MatchesWeek, FirstDay, Dated;
    var first, n := FirstDay(cfg, now, l), cfg.weeksAhead;
    var day := Dated(l.weeks, first, n)[i];
    DatedShape(l.weeks, first, n);
    SlotInWords(cfg, roomName, building, l, day);
    DateIff(cfg, now, l, day);
  }

  lemma SlotOfDate(cfg: Config, now: int, roomName: string, building: string, l: Lesson, day: int) returns (i: nat)
    requires Readable(l) && ConfigOk(cfg) && DateOf(cfg, now, l, day)
    ensures var slots := ExpandedIn(cfg, now, roomName, building, l);
            i < |slots| && SlotOn(cfg, roomName, building, l, day, slots[i])
  {
    hide DateOf, SlotOn, MatchesWeek, FirstDay, Dated;
    DateIff(cfg, now, l, day);
    i := DatedAll(l.weeks, FirstDay(cfg, now, l), cfg.weeksAhead, day);
    SlotAt(cfg, now, roomName, building, l, i);
  }

  lemma SlotsInOrder(cfg: Config, roomName: string, building: string, l: Lesson, first: int, n: nat)
    requires Readable(l)
    ensures InOrder(LessonSlots(cfg, roomName, building, l, Dated(l.weeks, first, n)))
  {
    var days := Dated(l.weeks, first, n);
    var slots := LessonSlots(cfg, roomName, building, l, days);
    DatedShape(l.weeks, first, n);
    forall i, j | 0 <= i < j < |slots| ensures slots[i].end < slots[j].start {
      assert days[i] + 7 <= days[j];
    }
  }

  lemma SlotsHaveDates(cfg: Config, now: int, roomName: string, building: string, l: Lesson)
    requires Readable(l) && ConfigOk(cfg)
    ensures EachOnDate(cfg, now, roomName, building, l, ExpandedIn(cfg, now, roomName, building, l))
  {
    hide DateOf, SlotOn, FirstDay, Dated, LessonSlot;
    var slots := ExpandedIn(cfg, now, roomName, building, l);
    forall i | 0 <= i < |slots|
      ensures var day := (slots[i].start + cfg.offset) / 1440;
              DateOf(cfg, now, l, day) && SlotOn(cfg, roomName, building, l, day, slots[i])
    {
      SlotAt(cfg, now, roomName, building, l, i);
    }
  }

  lemma DatesHaveSlots(cfg: Config, now: int, roomName: string, building: string, l: Lesson)
    requires Readable(l) && ConfigOk(cfg)
    ensures EachDateHas(cfg, now, roomName, building, l, ExpandedIn(cfg, now, roomName, building, l))
  {
    hide DateOf, SlotOn, ExpandedIn;
    var slots := ExpandedIn(cfg, now, roomName, building, l);
    forall day | DateOf(cfg, now, l, day)
      ensures exists i :: 0 <= i < |slots| && SlotOn(cfg, roomName, building, l, day, slots[i])
    {
      var i := SlotOfDate(cfg, now, roomName, building, l, day);
    }
  }

  /** What `expand` makes of a lesson. */
  lemma ExpandedSlots(cfg: Config, now: int, roomName: string, building: string, l: Lesson)
    requires Readable(l) && ConfigOk(cfg)
    ensures ExpandsTo(cfg, now, roomName, building, l, ExpandedIn(cfg, now, roomName, building, l))
  {
    hide EachOnDate, EachDateHas, InOrder, FirstDay, Dated, LessonSlot, LessonSlots;
    SlotsHaveDates(cfg, now, roomName, building, l);
    DatesHaveSlots(cfg, now, roomName, building, l);
    SlotsInOrder(cfg, roomName, building, l, FirstDay(cfg, now, l), cfg.weeksAhead);
  }

  /** `expand`. */
  method Expand(cfg: Config, now: int, room: string, l: Lesson) returns (r: Result<seq<ScheduleSlot>>)
    requires ConfigOk(cfg)
    ensures r.Ok? <==> Readable(l)
    ensures r.Ok? ==> r.value == Expanded(cfg, now, room, l)
    ensures r.Ok? ==>
              var (roomName, building) := NormalizeRoom(room, cfg.defaultBuilding);
              ExpandsTo(cfg, now, roomName, building, l, r.value)
  {
    hide ExpandsTo;
    if l.clock.BadClock? || !(0 <= l.clock.hour < 24 && 0 <= l.clock.minute < 60) { return Err(StorageFailure); }
    if l.day.BadDay? || !(0 <= l.day.weekday < 7) { return Err(StorageFailure); }
    var (roomName, building) := NormalizeRoom(room, cfg.defaultBuilding);
    ExpandedSlots(cfg, now, roomName, building, l);
    var slots := ExpandWeeks(cfg, roomName, building, l, FirstDay(cfg, now, l));
    return Ok(slots);
  }

  // ---- the dates

  predicate Complementary(keep: seq<bool>, drop: seq<bool>, all: seq<bool>) {
    |keep| == |drop| == |all| && forall i | 0 <= i < |all| :: all[i] && keep[i] == !drop[i]
  }

  lemma ComplementaryPrefix(keep: seq<bool>, drop: seq<bool>, all: seq<bool>)
    requires Complementary(keep, drop, all) && all != []
    ensures Complementary(keep[..|all| - 1], drop[..|all| - 1], all[..|all| - 1])
    ensures all[|all| - 1] && keep[|all| - 1] == !drop[|all| - 1]
  {
  }

  /** How often a day is picked. */
  function Times(keep: seq<bool>, first: int, day: int): nat {
    if keep == [] then 0
    else Times(keep[..|keep| - 1], first, day) + if keep[|keep| - 1] && day == first + 7 * (|keep| - 1) then 1 else 0
  }

  lemma {:induction false} TimesPicked(keep: seq<bool>, first: int, day: int)
    ensures multiset(Pick(keep, first))[day] == Times(keep, first, day)
  {
    if keep != [] {
      TimesPicked(keep[..|keep| - 1], first, day);
      PickStep(keep, first);
    }
  }

  /** A selection and its complement together are everything: nothing lost, nothing twice. */
  lemma {:induction false} PickSplit(keep: seq<bool>, drop: seq<bool>, all: seq<bool>, first: int, day: int)
    requires Complementary(keep, drop, all)
    ensures Times(keep, first, day) + Times(drop, first, day) == Times(all, first, day)
  {
    if all != [] {
      var n := |all| - 1;
      ComplementaryPrefix(keep, drop, all);
      PickSplit(keep[..n], drop[..n], all[..n], first, day);
    }
  }

  lemma {:induction false} PickAll(all: seq<bool>, first: int)
    requires forall i | 0 <= i < |all| :: all[i]
    ensures |Pick(all, first)| == |all|
  {
    if all != [] { PickAll(all[..|all| - 1], first); }
  }

  lemma ComplementaryLabels(first: int, n: nat)
    ensures Complementary(Keeps(OddWeeks, first, n), Keeps(EvenWeeks, first, n), Keeps(AnyWeek, first, n))
  {
  }

  lemma SumOfSizes(a: seq<int>, b: seq<int>, c: seq<int>)
    requires multiset(a) + multiset(b) == multiset(c)
    ensures |a| + |b| == |c|
  {
    assert |multiset(a) + multiset(b)| == |multiset(c)|;
  }

  /** The odd and the even dates of a lesson together are the dates of the same lesson without a label. */
  lemma LabelsSplit(first: int, n: nat)
    ensures multiset(Dated(OddWeeks, first, n)) + multiset(Dated(EvenWeeks, first, n))
            == multiset(Dated(AnyWeek, first, n))
    ensures |Dated(OddWeeks, first, n)| + |Dated(EvenWeeks, first, n)| == n
  {
    ComplementaryLabels(first, n);
    var odd, even, all := Keeps(OddWeeks, first, n), Keeps(EvenWeeks, first, n), Keeps(AnyWeek, first, n);
    forall day
      ensures multiset(Pick(odd, first))[day] + multiset(Pick(even, first))[day] == multiset(Pick(all, first))[day]
    {
      PickSplit(odd, even, all, first, day);
      TimesPicked(odd, first, day);
      TimesPicked(even, first, day);
      TimesPicked(all, first, day);
    }
    assert multiset(Pick(odd, first)) + multiset(Pick(even, first)) == multiset(Pick(all, first));
    PickAll(Keeps(AnyWeek, first, n), first);
    SumOfSizes(Dated(OddWeeks, first, n), Dated(EvenWeeks, first, n), Dated(AnyWeek, first, n));
  }

  /** The label's decision is the same whichever day of the week the lesson is on. */
  lemma LabelIgnoresWeekday(weeks: WeekLabel, monday: int, k: int)
    requires Weekday(monday) == MONDAY && 0 <= k < 7
    ensures MatchesWeek(weeks, monday + k) <==> MatchesWeek(weeks, monday)
  {
    WeekIsConstant(monday, k);
    WeekIsConstant(monday, 0);
  }

  predicate MatchesNumber(weeks: WeekLabel, w: int) {
    match weeks
    case AnyWeek => true
    case OddWeeks => w % 2 != 0
    case EvenWeeks => w % 2 == 0
  }

  predicate SelectedNumbers(weeks: WeekLabel, keep: seq<bool>, w: seq<int>) {
    |keep| == |w| && forall i | 0 <= i < |w| :: keep[i] == MatchesNumber(weeks, w[i])
  }

  lemma DayByNumber(weeks: WeekLabel, monday: int, k: int, day: int, th: int)
    requires Weekday(monday) == MONDAY && 0 <= k < 7 && day == monday + k && th == monday + 3
    ensures MatchesWeek(weeks, day) == MatchesNumber(weeks, ThursdayWeek(th))
  {
    WeekIsConstant(monday, k);
  }

  lemma MondayOn(monday: int, i: nat)
    requires Weekday(monday) == MONDAY
    ensures Weekday(monday + 7 * i) == MONDAY
  {
  }

  lemma WeekByNumber(weeks: WeekLabel, monday: int, k: int, i: nat)
    requires Weekday(monday) == MONDAY && 0 <= k < 7
    ensures MatchesWeek(weeks, monday + k + 7 * i) == MatchesNumber(weeks, ThursdayWeek(monday + 3 + 7 * i))
  {
    MondayOn(monday, i);
    DayByNumber(weeks, monday + 7 * i, k, monday + k + 7 * i, monday + 3 + 7 * i);
  }

  lemma NumbersAt(th: int, n: nat, i: nat, at: int)
    requires i < n && at == th + 7 * i
    ensures Numbers(th, n)[i] == ThursdayWeek(at)
  {
  }

  lemma SelectedAt(weeks: WeekLabel, monday: int, k: int, n: nat, i: nat)
    requires Weekday(monday) == MONDAY && 0 <= k < 7 && i < n
    ensures Keeps(weeks, monday + k, n)[i] == MatchesNumber(weeks, Numbers(monday + 3, n)[i])
  {
    hide IsoWeek, ThursdayWeek;
    NumbersAt(monday + 3, n, i, monday + 3 + 7 * i);
    WeekByNumber(weeks, monday, k, i);
  }

  /** A lesson's weeks are selected by the numbers of their Thursdays. */
  lemma KeepsByNumber(weeks: WeekLabel, monday: int, k: int, n: nat)
    requires Weekday(monday) == MONDAY && 0 <= k < 7
    ensures SelectedNumbers(weeks, Keeps(weeks, monday + k, n), Numbers(monday + 3, n))
  {
    var keep, w := Keeps(weeks, monday + k, n), Numbers(monday + 3, n);
    forall i | 0 <= i < n ensures keep[i] == MatchesNumber(weeks, w[i]) {
      SelectedAt(weeks, monday, k, n, i);
    }
  }

  lemma {:induction false} OddPicksCounted(keep: seq<bool>, w: seq<int>, first: int)
    requires SelectedNumbers(OddWeeks, keep, w)
    ensures |Pick(keep, first)| == OddCount(w)
  {
    if keep != [] { OddPicksCounted(keep[..|w| - 1], w[..|w| - 1], first); }
  }

  lemma OddDatesCounted(monday: int, k: int, n: nat)
    requires Weekday(monday) == MONDAY && 0 <= k < 7
    ensures |Dated(OddWeeks, monday + k, n)| == OddCount(Numbers(monday + 3, n))
    ensures |Dated(EvenWeeks, monday + k, n)| == n - |Dated(OddWeeks, monday + k, n)|
  {
    KeepsByNumber(OddWeeks, monday, k, n);
    OddPicksCounted(Keeps(OddWeeks, monday + k, n), Numbers(monday + 3, n), monday + k);
    LabelsSplit(monday + k, n);
  }

  /** How many dates a lesson of odd weeks gets for any number of weeks ahead, on whatever weekday, and exactly when
      they are half of the weeks, rounded down, or one more: the ends of years with a week 53 inside the stretch,
      one for an odd last week and one for an odd number of weeks make no more than three. */
  lemma AlternatingLessonExact(monday: int, k: int, n: nat)
    requires Weekday(monday) == MONDAY && 0 <= k < 7
    ensures var w, odd := Numbers(monday + 3, n), |Dated(OddWeeks, monday + k, n)|;
            && odd == (n + Boundaries(w) + LastOdd(w)) / 2
            && (n / 2 <= odd <= n / 2 + 1 <==> Boundaries(w) + LastOdd(w) + n % 2 <= 3)
  {
    OddDatesCounted(monday, k, n);
    NumbersConsecutive(monday + 3, n);
    OddCountExact(Numbers(monday + 3, n));
    OddBoundIff(Numbers(monday + 3, n));
  }

  /** For up to 262 weeks that is always so; a lesson of even weeks gets the rest. */
  lemma AlternatingLessonCount(monday: int, k: int, n: nat)
    requires Weekday(monday) == MONDAY && 0 <= k < 7 && n <= 262
    ensures var odd := |Dated(OddWeeks, monday + k, n)|;
            n / 2 <= odd <= n / 2 + 1 && |Dated(EvenWeeks, monday + k, n)| == n - odd
  {
    OddDatesCounted(monday, k, n);
    OddCountBounds(monday + 3, n);
  }

  /** For 263 weeks it is not, on any weekday: a lesson can get 133 dates. */
  lemma AlternatingLessonFailsAt263(k: int) returns (monday: int)
    requires 0 <= k < 7
    ensures Weekday(monday) == MONDAY && |Dated(OddWeeks, monday + k, 263)| > 263 / 2 + 1
  {
    hide OddCount, Numbers, Dated, ThursdayWeek;
    OddCountBoundFailsAt263();
    var th :| Weekday(th) == THURSDAY && OddCount(Numbers(th, 263)) > 263 / 2 + 1;
    monday := th - 3;
    assert Weekday(monday) == MONDAY;
    OddDatesCounted(monday, k, 263);
  }

  /** Neighbours in an odd selection are two weeks apart, or one when the first is a week 53. */
  predicate OddGapOk(w: seq<int>, a: int, b: int) {
    0 <= a < |w| && b - a == if w[a] == 53 then 1 else 2
  }

  /** The last odd week is the last or the last but one. */
  predicate OddLast(w: seq<int>, ws: seq<nat>) {
    && (w != [] && w[|w| - 1] % 2 != 0 ==> ws != [] && ws[|ws| - 1] == |w| - 1)
    && (|w| > 1 && w[|w| - 1] % 2 == 0 ==> ws != [] && ws[|ws| - 1] == |w| - 2)
    && (|w| <= 1 && (w == [] || w[0] % 2 == 0) ==> ws == [])
  }

  lemma {:induction false} OddGaps(keep: seq<bool>, w: seq<int>)
    requires SelectedNumbers(OddWeeks, keep, w) && Consecutive(w)
    ensures forall i, j | 0 <= i < j < |Weeks(keep)| && j == i + 1 :: OddGapOk(w, Weeks(keep)[i], Weeks(keep)[j])
    ensures OddLast(w, Weeks(keep))
  {
    if keep != [] {
      var n := |w| - 1;
      OddGaps(keep[..n], w[..n]);
      var ws := Weeks(keep[..n]);
      forall i, j | 0 <= i < j < |ws| && j == i + 1 ensures OddGapOk(w, ws[i], ws[j]) {
        assert OddGapOk(w[..n], ws[i], ws[j]);
      }
      if n > 0 { assert Follows(w[n - 1], w[n]); }
      if n > 1 { assert Follows(w[n - 2], w[n - 1]); }
    }
  }

  /** From an even week, where the next one is. */
  lemma AfterEven(w: seq<int>, p: nat)
    requires Consecutive(w) && p < |w| && w[p] % 2 == 0
    ensures p + 1 < |w| ==> w[p + 1] % 2 != 0
    ensures p + 2 < |w| ==> (w[p + 2] % 2 == 0 <==> w[p + 1] != 53)
    ensures p + 3 < |w| && w[p + 1] == 53 ==> w[p + 3] % 2 == 0
  {
    if p + 1 < |w| { assert Follows(w[p], w[p + 1]); }
    if p + 2 < |w| { assert Follows(w[p + 1], w[p + 2]); }
    if p + 3 < |w| { assert Follows(w[p + 2], w[p + 3]); }
  }

  /** Neighbours in an even selection are two weeks apart, or three when a week 53 follows the first. */
  predicate EvenGapOk(w: seq<int>, a: int, b: int) {
    0 <= a && a + 1 < |w| && b - a == if w[a + 1] == 53 then 3 else 2
  }

  /** The last pick was `back` weeks before the end and nothing has been picked since. */
  predicate LastPick(w: seq<int>, ws: seq<nat>, back: nat)
    requires ws != [] && 1 <= back <= |w|
  {
    && ws[|ws| - 1] == |w| - back && w[|w| - back] % 2 == 0
    && (back >= 2 ==> w[|w| - 1] % 2 != 0) && (back >= 3 ==> w[|w| - 2] % 2 != 0)
  }

  lemma {:induction false} EvenLast(keep: seq<bool>, w: seq<int>) returns (back: nat)
    requires SelectedNumbers(EvenWeeks, keep, w) && Consecutive(w)
    ensures Weeks(keep) != [] ==> 1 <= back <= 3 && back <= |w| && LastPick(w, Weeks(keep), back)
  {
    back := 1;
    if keep != [] && !keep[|w| - 1] {
      var n := |w| - 1;
      var before := EvenLast(keep[..n], w[..n]);
      if Weeks(keep[..n]) != [] {
        AfterEven(w, n - before);
        back := before + 1;
      }
    }
  }

  lemma EvenNext(keep: seq<bool>, w: seq<int>)
    requires SelectedNumbers(EvenWeeks, keep, w) && Consecutive(w) && keep != [] && keep[|keep| - 1]
    requires Weeks(keep[..|keep| - 1]) != []
    ensures var ws := Weeks(keep[..|keep| - 1]); EvenGapOk(w, ws[|ws| - 1], |w| - 1)
  {
    var n := |w| - 1;
    var before := EvenLast(keep[..n], w[..n]);
    AfterEven(w, n - before);
  }

  lemma {:induction false} EvenGaps(keep: seq<bool>, w: seq<int>)
    requires SelectedNumbers(EvenWeeks, keep, w) && Consecutive(w)
    ensures forall i, j | 0 <= i < j < |Weeks(keep)| && j == i + 1 :: EvenGapOk(w, Weeks(keep)[i], Weeks(keep)[j])
  {
    if keep != [] {
      var n := |w| - 1;
      EvenGaps(keep[..n], w[..n]);
      var ws := Weeks(keep[..n]);
      forall i, j | 0 <= i < j < |ws| && j == i + 1 ensures EvenGapOk(w, ws[i], ws[j]) {
        assert EvenGapOk(w[..n], ws[i], ws[j]);
      }
      if keep[n] && ws != [] { EvenNext(keep, w); }
    }
  }

  lemma WeekOfDay(monday: int, k: int, day: int, th: int)
    requires Weekday(monday) == MONDAY && 0 <= k < 7 && day == monday + k && th == monday + 3
    ensures IsoWeek(day) == ThursdayWeek(th)
  {
    hide IsoWeek, ThursdayWeek;
    WeekIsConstant(monday, k);
  }

  lemma NumberOfDay(monday: int, k: int, n: nat, i: nat, day: int)
    requires Weekday(monday) == MONDAY && 0 <= k < 7 && i < n && day == monday + k + 7 * i
    ensures Numbers(monday + 3, n)[i] == IsoWeek(day)
  {
    var th := monday + 3 + 7 * i;
    NumbersAt(monday + 3, n, i, th);
    MondayOn(monday, i);
    WeekOfDay(monday + 7 * i, k, day, th);
  }

  lemma OddWeekGap(monday: int, k: int, n: nat, i: nat) returns (week: nat, next: nat)
    requires Weekday(monday) == MONDAY && 0 <= k < 7
    requires i + 1 < |Dated(OddWeeks, monday + k, n)|
    ensures week < n && OddGapOk(Numbers(monday + 3, n), week, next)
    ensures Dated(OddWeeks, monday + k, n)[i] == monday + k + 7 * week
    ensures Dated(OddWeeks, monday + k, n)[i + 1] == monday + k + 7 * next
  {
    var keep := Keeps(OddWeeks, monday + k, n);
    KeepsByNumber(OddWeeks, monday, k, n);
    NumbersConsecutive(monday + 3, n);
    OddGaps(keep, Numbers(monday + 3, n));
    PickShape(keep, monday + k);
    week, next := Weeks(keep)[i], Weeks(keep)[i + 1];
  }

  /** Neighbouring dates of an odd-week lesson: 14 days apart, or 7 when the first is in a week 53. */
  lemma OddDateGap(monday: int, k: int, n: nat, i: nat)
    requires Weekday(monday) == MONDAY && 0 <= k < 7
    requires i + 1 < |Dated(OddWeeks, monday + k, n)|
    ensures var days := Dated(OddWeeks, monday + k, n);
            days[i + 1] - days[i] == if IsoWeek(days[i]) == 53 then 7 else 14
  {
    var week, next := OddWeekGap(monday, k, n, i);
    NumberOfDay(monday, k, n, week, Dated(OddWeeks, monday + k, n)[i]);
  }

  lemma EvenWeekGap(monday: int, k: int, n: nat, i: nat) returns (week: nat, next: nat)
    requires Weekday(monday) == MONDAY && 0 <= k < 7
    requires i + 1 < |Dated(EvenWeeks, monday + k, n)|
    ensures week + 1 < n && EvenGapOk(Numbers(monday + 3, n), week, next)
    ensures Dated(EvenWeeks, monday + k, n)[i] == monday + k + 7 * week
    ensures Dated(EvenWeeks, monday + k, n)[i + 1] == monday + k + 7 * next
  {
    var keep := Keeps(EvenWeeks, monday + k, n);
    KeepsByNumber(EvenWeeks, monday, k, n);
    NumbersConsecutive(monday + 3, n);
    EvenGaps(keep, Numbers(monday + 3, n));
    PickShape(keep, monday + k);
    week, next := Weeks(keep)[i], Weeks(keep)[i + 1];
  }

  /** Neighbouring dates of an even-week lesson: 14 days apart, or 21 when the week between is a week 53. */
  lemma EvenDateGap(monday: int, k: int, n: nat, i: nat)
    requires Weekday(monday) == MONDAY && 0 <= k < 7
    requires i + 1 < |Dated(EvenWeeks, monday + k, n)|
    ensures var days := Dated(EvenWeeks, monday + k, n);
            days[i + 1] - days[i] == if IsoWeek(days[i] + 7) == 53 then 21 else 14
  {
    var week, next := EvenWeekGap(monday, k, n, i);
    NumberOfDay(monday, k, n, week + 1, Dated(EvenWeeks, monday + k, n)[i] + 7);
  }

  // ---- the whole import

  datatype RawRoom = RawRoom(name: string, url: string)

  predicate AllReadable(lessons: seq<Lesson>) { forall i | 0 <= i < |lessons| :: Readable(lessons[i]) }

  /** What the source answered for each room: its lessons, or an error. */
  predicate AllParsed(pages: seq<Result<seq<Lesson>>>) {
    forall i | 0 <= i < |pages| :: pages[i].Ok? && AllReadable(pages[i].value)
  }

  /** What the clock says when each lesson of a room is expanded, by the lesson's position. */
  type Readings = nat -> int

  function RoomSlots(cfg: Config, clock: Readings, room: string, lessons: seq<Lesson>): seq<ScheduleSlot>
    requires ConfigOk(cfg) && AllReadable(lessons)
  {
    if lessons == [] then []
    else
      var n := |lessons| - 1;
      RoomSlots(cfg, clock, room, lessons[..n]) + Expanded(cfg, clock(n), room, lessons[n])
  }

  /** The clock is read again for every lesson, so its readings depend on room and lesson. */
  function AllSlots(cfg: Config, clock: nat -> Readings, rooms: seq<RawRoom>, pages: seq<Result<seq<Lesson>>>)
    : seq<ScheduleSlot>
    requires ConfigOk(cfg) && |rooms| == |pages| && AllParsed(pages)
  {
    if rooms == [] then []
    else var n := |rooms| - 1;
         AllSlots(cfg, clock, rooms[..n], pages[..n]) + RoomSlots(cfg, clock(n), rooms[n].name, pages[n].value)
  }

  function LessonTotal(pages: seq<Result<seq<Lesson>>>): nat
    requires forall i | 0 <= i < |pages| :: pages[i].Ok?
  {
    if pages == [] then 0 else LessonTotal(pages[..|pages| - 1]) + |pages[|pages| - 1].value|
  }

  function Selector(cfg: Config, room: RawRoom): RoomSelector {
    var (name, building) := NormalizeRoom(room.name, cfg.defaultBuilding);
    RoomSelector(name, building, cfg.defaultCapacity, room.url)
  }

  function Selectors(cfg: Config, rooms: seq<RawRoom>): seq<RoomSelector> {
    seq(|rooms|, i requires 0 <= i < |rooms| => Selector(cfg, rooms[i]))
  }

  /** The slot is in the selector's room. */
  predicate SlotOf(slot: ScheduleSlot, s: RoomSelector) {
    slot.roomName == s.name && slot.building == s.building && slot.capacity == s.capacity && slot.start < slot.end
  }

  ghost predicate Listed(slot: ScheduleSlot, selectors: seq<RoomSelector>) {
    exists i :: 0 <= i < |selectors| && SlotOf(slot, selectors[i])
  }

  lemma {:induction false} RoomSlotsNamed(cfg: Config, clock: Readings, room: RawRoom, lessons: seq<Lesson>)
    requires ConfigOk(cfg) && AllReadable(lessons)
    ensures forall s | s in RoomSlots(cfg, clock, room.name, lessons) :: SlotOf(s, Selector(cfg, room))
  {
    if lessons != [] { RoomSlotsNamed(cfg, clock, room, lessons[..|lessons| - 1]); }
  }

  lemma {:induction false} AllSlotsNamed(cfg: Config, clock: nat -> Readings, rooms: seq<RawRoom>,
                                         pages: seq<Result<seq<Lesson>>>)
    requires ConfigOk(cfg) && |rooms| == |pages| && AllParsed(pages)
    ensures forall s | s in AllSlots(cfg, clock, rooms, pages) ::
              exists i :: 0 <= i < |rooms| && SlotOf(s, Selector(cfg, rooms[i]))
  {
    if rooms != [] {
      var n := |rooms| - 1;
      AllSlotsNamed(cfg, clock, rooms[..n], pages[..n]);
      RoomSlotsNamed(cfg, clock(n), rooms[n], pages[n].value);
      forall s | s in AllSlots(cfg, clock, rooms[..n], pages[..n])
        ensures exists i :: 0 <= i < |rooms| && SlotOf(s, Selector(cfg, rooms[i]))
      {
        var i :| 0 <= i < n && SlotOf(s, Selector(cfg, rooms[..n][i]));
        assert rooms[..n][i] == rooms[i];
      }
    }
  }

  /** A slot of a selector's room normalises, the second time round, to the selector's own key. */
  lemma SameName(slot: ScheduleSlot, s: RoomSelector)
    requires SlotOf(slot, s)
    ensures NameSlot(slot).room == NameSelector(s) && NameSlot(slot).start < NameSlot(slot).end
  {
  }

  predicate TextsOk(slots: seq<Slot>) { forall i | 0 <= i < |slots| :: TextOk(slots[i].details) }

  /** Slots whose rooms are all listed: they can be stored whenever the listed rooms and the slots' texts can. */
  lemma {:induction false} KnownSlots(rooms: seq<NamedRoom>, slots: seq<Slot>)
    requires forall i | 0 <= i < |slots| :: slots[i].room in rooms && slots[i].start < slots[i].end
    ensures SlotKeys(slots) <= Keys(rooms) && (SlotsImportable(Keys(rooms), slots) <==> TextsOk(slots))
  {
    if slots != [] {
      var init, last := slots[..|slots| - 1], slots[|slots| - 1];
      KnownSlots(rooms, init);
      var i :| 0 <= i < |rooms| && rooms[i] == last.room;
      KeyListed(rooms, i);
      assert TextsOk(slots) <==> TextsOk(init) && TextOk(last.details) by {
        assert forall k | 0 <= k < |init| :: slots[k] == init[k];
      }
    }
  }

  lemma NamesKnown(selectors: seq<RoomSelector>, scheduled: seq<ScheduleSlot>)
    requires forall j | 0 <= j < |scheduled| :: Listed(scheduled[j], selectors)
    ensures var named, slots := NameSelectors(selectors), NameSlots(scheduled);
            forall j | 0 <= j < |slots| :: slots[j].room in named && slots[j].start < slots[j].end
  {
    var named, slots := NameSelectors(selectors), NameSlots(scheduled);
    forall j | 0 <= j < |slots| ensures slots[j].room in named && slots[j].start < slots[j].end {
      var i :| 0 <= i < |selectors| && SlotOf(scheduled[j], selectors[i]);
      SameName(scheduled[j], selectors[i]);
      assert named[i] == NameSelector(selectors[i]) && slots[j] == NameSlot(scheduled[j]);
    }
  }

  lemma RunInputsKnown(cfg: Config, clock: nat -> Readings, rooms: seq<RawRoom>, pages: seq<Result<seq<Lesson>>>)
    requires ConfigOk(cfg) && |rooms| == |pages| && AllParsed(pages)
    ensures var named, slots := NameSelectors(Selectors(cfg, rooms)), NameSlots(AllSlots(cfg, clock, rooms, pages));
            SlotKeys(slots) <= Keys(named) && (SlotsImportable(Keys(named), slots) <==> TextsOk(slots))
  {
    var selectors, scheduled := Selectors(cfg, rooms), AllSlots(cfg, clock, rooms, pages);
    AllSlotsNamed(cfg, clock, rooms, pages);
    forall j | 0 <= j < |scheduled| ensures Listed(scheduled[j], selectors) {
      assert scheduled[j] in scheduled;
      var i :| 0 <= i < |rooms| && SlotOf(scheduled[j], Selector(cfg, rooms[i]));
      assert selectors[i] == Selector(cfg, rooms[i]);
    }
    NamesKnown(selectors, scheduled);
    KnownSlots(NameSelectors(selectors), NameSlots(scheduled));
  }

  /** Counts of a committed run: every slot built is stored or skipped, and no room is upserted late. */
  lemma RunConserves(db: Db, cfg: Config, clock: nat -> Readings, rooms: seq<RawRoom>, pages: seq<Result<seq<Lesson>>>)
    requires Valid(db) && ConfigOk(cfg) && |rooms| == |pages| && AllParsed(pages)
    ensures var named, slots := NameSelectors(Selectors(cfg, rooms)), NameSlots(AllSlots(cfg, clock, rooms, pages));
            var r := Replace(db, named, slots);
            && (r.Ok? <==> (forall i | 0 <= i < |named| :: named[i].Storable()) && TextsOk(slots))
            && (r.Ok? ==>
                 && r.value.stats.roomsImported == |rooms|
                 && r.value.stats.lessonsImported + r.value.stats.lessonsSkipped
                    == |AllSlots(cfg, clock, rooms, pages)|)
  {
    var named, slots := NameSelectors(Selectors(cfg, rooms)), NameSlots(AllSlots(cfg, clock, rooms, pages));
    RunInputsKnown(cfg, clock, rooms, pages);
    ImportSucceedsIff(db, named, slots);
    if Replace(db, named, slots).Ok? {
      ImportIsGreedy(db, named, slots);
      assert SlotKeys(slots) - Keys(named) == {};
    }
  }

  method ExpandRoom(cfg: Config, clock: Readings, room: string, lessons: seq<Lesson>)
    returns (r: Result<seq<ScheduleSlot>>)
    requires ConfigOk(cfg)
    ensures r.Ok? <==> AllReadable(lessons)
    ensures r.Ok? ==> r.value == RoomSlots(cfg, clock, room, lessons)
  {
    hide Expanded, ExpandsTo, NormalizeRoom;
    var slots: seq<ScheduleSlot> := [];
    for i := 0 to |lessons|
      invariant AllReadable(lessons[..i]) && slots == RoomSlots(cfg, clock, room, lessons[..i])
    {
      var expanded := Expand(cfg, clock(i), room, lessons[i]);
      if expanded.Err? { return Err(expanded.error); }
      assert lessons[..i + 1][..i] == lessons[..i];
      slots := slots + expanded.value;
    }
    assert lessons[..|lessons|] == lessons;
    return Ok(slots);
  }

  lemma ParsedStep(cfg: Config, clock: nat -> Readings, rooms: seq<RawRoom>, pages: seq<Result<seq<Lesson>>>, i: nat)
    requires ConfigOk(cfg) && |rooms| == |pages| && i < |rooms|
    requires AllParsed(pages[..i]) && pages[i].Ok? && AllReadable(pages[i].value)
    ensures AllParsed(pages[..i + 1])
    ensures AllSlots(cfg, clock, rooms[..i + 1], pages[..i + 1]) ==
            AllSlots(cfg, clock, rooms[..i], pages[..i]) + RoomSlots(cfg, clock(i), rooms[i].name, pages[i].value)
    ensures LessonTotal(pages[..i + 1]) == LessonTotal(pages[..i]) + |pages[i].value|
  {
    var earlier, all := pages[..i], pages[..i + 1];
    assert forall j | 0 <= j < i :: all[j] == earlier[j];
    assert rooms[..i + 1][..i] == rooms[..i] && all[..i] == earlier;
  }

  /** Reading and expanding every room: all the slots and the number of lessons, or the first error. */
  method ExpandAll(cfg: Config, clock: nat -> Readings, rooms: seq<RawRoom>, pages: seq<Result<seq<Lesson>>>)
    returns (r: Result<(seq<ScheduleSlot>, nat)>)
    requires ConfigOk(cfg) && |rooms| == |pages|
    ensures r.Ok? <==> AllParsed(pages)
    ensures r.Ok? ==> r.value == (AllSlots(cfg, clock, rooms, pages), LessonTotal(pages))
  {
    var slots: seq<ScheduleSlot>, seen: nat := [], 0;
    for i := 0 to |rooms|
      invariant AllParsed(pages[..i])
      invariant slots == AllSlots(cfg, clock, rooms[..i], pages[..i]) && seen == LessonTotal(pages[..i])
    {
      if pages[i].Err? { return Err(pages[i].error); }
      var expanded := ExpandRoom(cfg, clock(i), rooms[i].name, pages[i].value);
      if expanded.Err? { return Err(expanded.error); }
      ParsedStep(cfg, clock, rooms, pages, i);
      slots := slots + expanded.value;
      seen := seen + |pages[i].value|;
    }
    assert rooms[..|rooms|] == rooms && pages[..|pages|] == pages;
    return Ok((slots, seen));
  }

  /** The store after a committed run: its own rows and the greedy choice of the slots. */
  ghost predicate Loaded(before: Db, after: Db, slots: seq<ScheduleSlot>)
    requires Valid(before) && Valid(after)
  {
    View(after) == Greedy(Kept(View(before)), NameSlots(slots))
  }

  // ---- every lesson of every room, in words

  /** A slot of a lesson, on one of its dates. */
  predicate FromLesson(cfg: Config, now: int, room: string, l: Lesson, s: ScheduleSlot) {
    var (roomName, building) := NormalizeRoom(room, cfg.defaultBuilding);
    var day := (s.start + cfg.offset) / 1440;
    DateOf(cfg, now, l, day) && SlotOn(cfg, roomName, building, l, day, s)
  }

  /** The lesson has its slot on that day. */
  ghost predicate SlotIn(cfg: Config, room: string, l: Lesson, day: int, slots: seq<ScheduleSlot>) {
    var (roomName, building) := NormalizeRoom(room, cfg.defaultBuilding);
    exists i :: 0 <= i < |slots| && SlotOn(cfg, roomName, building, l, day, slots[i])
  }

  lemma SlotInMore(cfg: Config, room: string, l: Lesson, day: int, slots: seq<ScheduleSlot>, before: seq<ScheduleSlot>,
                   after: seq<ScheduleSlot>)
    requires SlotIn(cfg, room, l, day, slots)
    ensures SlotIn(cfg, room, l, day, before + slots + after)
  {
    hide SlotOn;
    var (roomName, building) := NormalizeRoom(room, cfg.defaultBuilding);
    var i :| 0 <= i < |slots| && SlotOn(cfg, roomName, building, l, day, slots[i]);
    assert (before + slots + after)[|before| + i] == slots[i];
  }

  ghost predicate OfSomeLesson(cfg: Config, clock: Readings, room: string, lessons: seq<Lesson>, s: ScheduleSlot) {
    exists n :: 0 <= n < |lessons| && FromLesson(cfg, clock(n), room, lessons[n], s)
  }

  lemma ExpandedFrom(cfg: Config, now: int, room: string, l: Lesson, i: nat)
    requires ConfigOk(cfg) && Readable(l) && i < |Expanded(cfg, now, room, l)|
    ensures FromLesson(cfg, now, room, l, Expanded(cfg, now, room, l)[i])
  {
    hide DateOf, SlotOn, ExpandedIn, NormalizeRoom;
    var (roomName, building) := NormalizeRoom(room, cfg.defaultBuilding);
    ExpandedSlots(cfg, now, roomName, building, l);
  }

  lemma {:induction false} RoomSlotsFrom(cfg: Config, clock: Readings, room: string, lessons: seq<Lesson>, i: nat)
    requires ConfigOk(cfg) && AllReadable(lessons) && i < |RoomSlots(cfg, clock, room, lessons)|
    ensures OfSomeLesson(cfg, clock, room, lessons, RoomSlots(cfg, clock, room, lessons)[i])
  {
    hide DateOf, SlotOn, Expanded;
    var n := |lessons| - 1;
    var init := RoomSlots(cfg, clock, room, lessons[..n]);
    if i < |init| {
      RoomSlotsFrom(cfg, clock, room, lessons[..n], i);
      var m :| 0 <= m < n && FromLesson(cfg, clock(m), room, lessons[..n][m], init[i]);
      assert lessons[..n][m] == lessons[m];
    } else {
      ExpandedFrom(cfg, clock(n), room, lessons[n], i - |init|);
    }
  }

  lemma ExpandedHas(cfg: Config, now: int, room: string, l: Lesson, day: int)
    requires ConfigOk(cfg) && Readable(l) && DateOf(cfg, now, l, day)
    ensures SlotIn(cfg, room, l, day, Expanded(cfg, now, room, l))
  {
    hide DateOf, SlotOn, ExpandedIn, NormalizeRoom;
    var (roomName, building) := NormalizeRoom(room, cfg.defaultBuilding);
    ExpandedSlots(cfg, now, roomName, building, l);
  }

  lemma {:induction false} RoomSlotsHave(cfg: Config, clock: Readings, room: string, lessons: seq<Lesson>, n: nat,
                                         day: int)
    requires ConfigOk(cfg) && AllReadable(lessons) && n < |lessons| && DateOf(cfg, clock(n), lessons[n], day)
    ensures SlotIn(cfg, room, lessons[n], day, RoomSlots(cfg, clock, room, lessons))
    decreases |lessons|
  {
    hide DateOf, SlotIn, Expanded;
    var last := |lessons| - 1;
    var init, more := RoomSlots(cfg, clock, room, lessons[..last]), Expanded(cfg, clock(last), room, lessons[last]);
    if n < last {
      RoomSlotsHave(cfg, clock, room, lessons[..last], n, day);
      SlotInMore(cfg, room, lessons[n], day, init, [], more);
      assert [] + init + more == init + more;
    } else {
      ExpandedHas(cfg, clock(n), room, lessons[n], day);
      SlotInMore(cfg, room, lessons[n], day, more, init, []);
      assert init + more + [] == init + more;
    }
  }

  ghost predicate OfSomeRoom(cfg: Config, clock: nat -> Readings, rooms: seq<RawRoom>, pages: seq<Result<seq<Lesson>>>,
                             s: ScheduleSlot)
    requires |rooms| == |pages| && AllParsed(pages)
  {
    exists r :: 0 <= r < |rooms| && OfSomeLesson(cfg, clock(r), rooms[r].name, pages[r].value, s)
  }

  /** Every slot of a run is some lesson's of some room, on one of its dates. */
  lemma {:induction false} AllSlotsFrom(cfg: Config, clock: nat -> Readings, rooms: seq<RawRoom>,
                                        pages: seq<Result<seq<Lesson>>>, i: nat)
    requires ConfigOk(cfg) && |rooms| == |pages| && AllParsed(pages) && i < |AllSlots(cfg, clock, rooms, pages)|
    ensures OfSomeRoom(cfg, clock, rooms, pages, AllSlots(cfg, clock, rooms, pages)[i])
  {
    hide OfSomeLesson, RoomSlots;
    var n := |rooms| - 1;
    var init := AllSlots(cfg, clock, rooms[..n], pages[..n]);
    if i < |init| {
      AllSlotsFrom(cfg, clock, rooms[..n], pages[..n], i);
      var r :| 0 <= r < n && OfSomeLesson(cfg, clock(r), rooms[..n][r].name, pages[..n][r].value, init[i]);
      assert rooms[..n][r] == rooms[r] && pages[..n][r] == pages[r];
    } else {
      RoomSlotsFrom(cfg, clock(n), rooms[n].name, pages[n].value, i - |init|);
    }
  }

  /** Every lesson of every room has its slot on each of its dates. */
  lemma {:induction false} AllSlotsHave(cfg: Config, clock: nat -> Readings, rooms: seq<RawRoom>,
                                        pages: seq<Result<seq<Lesson>>>, r: nat, n: nat, day: int)
    requires ConfigOk(cfg) && |rooms| == |pages| && AllParsed(pages) && r < |rooms| && n < |pages[r].value|
    requires DateOf(cfg, clock(r)(n), pages[r].value[n], day)
    ensures SlotIn(cfg, rooms[r].name, pages[r].value[n], day, AllSlots(cfg, clock, rooms, pages))
    decreases |rooms|
  {
    hide DateOf, SlotIn, RoomSlots;
    var last := |rooms| - 1;
    var init := AllSlots(cfg, clock, rooms[..last], pages[..last]);
    var more := RoomSlots(cfg, clock(last), rooms[last].name, pages[last].value);
    if r < last {
      AllSlotsHave(cfg, clock, rooms[..last], pages[..last], r, n, day);
      SlotInMore(cfg, rooms[r].name, pages[r].value[n], day, init, [], more);
      assert [] + init + more == init + more;
    } else {
      RoomSlotsHave(cfg, clock(r), rooms[r].name, pages[r].value, n, day);
      SlotInMore(cfg, rooms[r].name, pages[r].value[n], day, more, init, []);
      assert init + more + [] == init + more;
    }
  }

  /** What a booking shows of itself, with its room named. */
  function BookingAsSlot(cfg: Config, rooms: map<int, Room>, b: Booking): ScheduleSlot
    requires b.roomId in rooms
  {
    ScheduleSlot(rooms[b.roomId].name, rooms[b.roomId].building, cfg.defaultCapacity, b.details, b.start, b.end)
  }

  lemma NamedAsIs(s: ScheduleSlot)
    requires s.roomName != "" && s.building != "" && s.capacity > 0
    ensures var n := NameSlot(s);
            && n.room.name == s.roomName && n.room.building == s.building && n.room.capacity == s.capacity
            && n.details == s.details && n.start == s.start && n.end == s.end
  {
  }

  lemma SlotNamed(cfg: Config, clock: nat -> Readings, rooms: seq<RawRoom>, pages: seq<Result<seq<Lesson>>>, i: nat)
    requires ConfigOk(cfg) && |rooms| == |pages| && AllParsed(pages) && i < |AllSlots(cfg, clock, rooms, pages)|
    ensures var s := AllSlots(cfg, clock, rooms, pages)[i];
            s.roomName != "" && s.building != "" && s.capacity == cfg.defaultCapacity
  {
    hide OfSomeLesson, NormalizeRoom;
    var s := AllSlots(cfg, clock, rooms, pages)[i];
    AllSlotsNamed(cfg, clock, rooms, pages);
    assert s in AllSlots(cfg, clock, rooms, pages);
    var r :| 0 <= r < |rooms| && SlotOf(s, Selector(cfg, rooms[r]));
  }

  /** After a committed run, each of the parser's bookings is some lesson's of some room, on one of its dates. */
  lemma BookingsAreLessons(cfg: Config, clock: nat -> Readings, rooms: seq<RawRoom>, pages: seq<Result<seq<Lesson>>>,
                           before: Db, after: Db, i: int)
    requires ConfigOk(cfg) && |rooms| == |pages| && AllParsed(pages) && Valid(before) && Valid(after)
    requires Loaded(before, after, AllSlots(cfg, clock, rooms, pages))
    requires i in after.bookings && after.bookings[i].userId == 0 && after.bookings[i].creatorRole == Admin
    ensures OfSomeRoom(cfg, clock, rooms, pages, BookingAsSlot(cfg, after.rooms, after.bookings[i]))
  {
    hide OfSomeRoom, AllSlots, Greedy, View, NameSlot;
    var slots := AllSlots(cfg, clock, rooms, pages);
    RowFromSlot(before, after, NameSlots(slots), i);
    var k :| 0 <= k < |slots| && BooksSlot(after.rooms, after.bookings[i], NameSlots(slots)[k]);
    SlotNamed(cfg, clock, rooms, pages, k);
    NamedAsIs(slots[k]);
    AllSlotsFrom(cfg, clock, rooms, pages, k);
    assert BookingAsSlot(cfg, after.rooms, after.bookings[i]) == slots[k];
  }

  /** After a committed run, each lesson of each room has its room taken at its time on each of its dates, by its own
      booking or by one that was there first. */
  lemma LessonsAreBooked(cfg: Config, clock: nat -> Readings, rooms: seq<RawRoom>, pages: seq<Result<seq<Lesson>>>,
                         before: Db, after: Db, r: nat, n: nat, day: int)
    requires ConfigOk(cfg) && |rooms| == |pages| && AllParsed(pages) && Valid(before) && Valid(after)
    requires Loaded(before, after, AllSlots(cfg, clock, rooms, pages))
    requires r < |rooms| && n < |pages[r].value| && DateOf(cfg, clock(r)(n), pages[r].value[n], day)
    ensures var (roomName, building) := NormalizeRoom(rooms[r].name, cfg.defaultBuilding);
            var clockTime := pages[r].value[n].clock.hour * 60 + pages[r].value[n].clock.minute;
            var start := day * 1440 + clockTime - cfg.offset;
            exists i :: i in after.bookings && after.bookings[i].roomId in after.rooms
              && after.rooms[after.bookings[i].roomId].name == roomName
              && after.rooms[after.bookings[i].roomId].building == building
              && after.bookings[i].start < start + 95 && start < after.bookings[i].end
  {
    hide DateOf, AllSlots, Greedy, View, NameSlot, NormalizeRoom;
    var (roomName, building) := NormalizeRoom(rooms[r].name, cfg.defaultBuilding);
    var slots := AllSlots(cfg, clock, rooms, pages);
    AllSlotsHave(cfg, clock, rooms, pages, r, n, day);
    var k :| 0 <= k < |slots| && SlotOn(cfg, roomName, building, pages[r].value[n], day, slots[k]);
    SlotNamed(cfg, clock, rooms, pages, k);
    NamedAsIs(slots[k]);
    SlotStoredOrTaken(before, after, NameSlots(slots), k);
    var i :| i in after.bookings && InSlotsWay(after.rooms, after.bookings[i], NameSlots(slots)[k]);
  }

  /** The lesson's room is taken at the lesson's time on that day. */
  ghost predicate RoomTaken(cfg: Config, room: string, l: Lesson, day: int, db: Db) {
    && l.clock.Clock?
    && var (roomName, building) := NormalizeRoom(room, cfg.defaultBuilding);
       var start := day * 1440 + l.clock.hour * 60 + l.clock.minute - cfg.offset;
       exists i :: i in db.bookings && db.bookings[i].roomId in db.rooms
         && db.rooms[db.bookings[i].roomId].name == roomName && db.rooms[db.bookings[i].roomId].building == building
         && db.bookings[i].start < start + 95 && start < db.bookings[i].end
  }

  /** What a committed run has made of the timetable. */
  ghost predicate TimetableLoaded(cfg: Config, clock: nat -> Readings, rooms: seq<RawRoom>,
                                  pages: seq<Result<seq<Lesson>>>, after: Db)
    requires |rooms| == |pages| && AllParsed(pages)
  {
    && (forall i | i in after.bookings && after.bookings[i].userId == 0 && after.bookings[i].creatorRole == Admin ::
          && after.bookings[i].roomId in after.rooms
          && OfSomeRoom(cfg, clock, rooms, pages, BookingAsSlot(cfg, after.rooms, after.bookings[i])))
    && forall r, n, day | 0 <= r < |rooms| && 0 <= n < |pages[r].value|
                          && DateOf(cfg, clock(r)(n), pages[r].value[n], day) ::
         RoomTaken(cfg, rooms[r].name, pages[r].value[n], day, after)
  }

  lemma RunInWords(cfg: Config, clock: nat -> Readings, rooms: seq<RawRoom>, pages: seq<Result<seq<Lesson>>>,
                   before: Db, after: Db)
    requires ConfigOk(cfg) && |rooms| == |pages| && AllParsed(pages) && Valid(before) && Valid(after)
    requires Loaded(before, after, AllSlots(cfg, clock, rooms, pages))
    ensures TimetableLoaded(cfg, clock, rooms, pages, after)
  {
    hide DateOf, OfSomeRoom, AllSlots, Loaded, NormalizeRoom;
    forall i | i in after.bookings && after.bookings[i].userId == 0 && after.bookings[i].creatorRole == Admin
      ensures after.bookings[i].roomId in after.rooms
              && OfSomeRoom(cfg, clock, rooms, pages, BookingAsSlot(cfg, after.rooms, after.bookings[i]))
    {
      assert BookingOk(after.bookings[i], after.rooms);
      BookingsAreLessons(cfg, clock, rooms, pages, before, after, i);
    }
    forall r, n, day | 0 <= r < |rooms| && 0 <= n < |pages[r].value| && DateOf(cfg, clock(r)(n), pages[r].value[n], day)
      ensures RoomTaken(cfg, rooms[r].name, pages[r].value[n], day, after)
    {
      LessonsAreBooked(cfg, clock, rooms, pages, before, after, r, n, day);
    }
  }

  /** `Run`: a timetable that cannot be read in full changes nothing; one that can is loaded whole or not at
      all, and the counters it reports add up. After an error the timetable may still have been loaded, but
      only if the reply to the COMMIT was lost. */
  method Run(store: Store, cfg: Config, clock: nat -> Readings, rooms: seq<RawRoom>, pages: seq<Result<seq<Lesson>>>,
             budget: nat, replyLost: bool)
    returns (r: Result<ImportStats>)
    requires ConfigOk(cfg) && |rooms| == |pages| && store.Valid()
    modifies store
    ensures store.Valid()
    ensures r.Ok? ==> AllParsed(pages)
    ensures r.Ok? ==> var slots := AllSlots(cfg, clock, rooms, pages);
              && Loaded(old(store.Value()), store.Value(), slots)
              && r.value.lessonsImported + r.value.lessonsSkipped == r.value.lessonsExpanded == |slots|
              && r.value.roomsImported == r.value.roomsSeen == |rooms|
              && r.value.lessonsSeen == LessonTotal(pages)
    ensures r.Ok? ==> TimetableLoaded(cfg, clock, rooms, pages, store.Value())
    ensures r.Err? ==> || (store.rooms == old(store.rooms) && store.bookings == old(store.bookings))
                       || (replyLost && AllParsed(pages)
                           && Loaded(old(store.Value()), store.Value(), AllSlots(cfg, clock, rooms, pages)))
    ensures (&& AllParsed(pages) && (forall i | 0 <= i < |rooms| :: NameSelectors(Selectors(cfg, rooms))[i].Storable())
             && TextsOk(NameSlots(AllSlots(cfg, clock, rooms, pages)))
             && budget >= 3 + |rooms| + 2 * |AllSlots(cfg, clock, rooms, pages)|) ==> r.Ok? == !replyLost
  {
    hide TimetableLoaded, ImportedInColumns;
    var expanded := ExpandAll(cfg, clock, rooms, pages);
    if expanded.Err? { return Err(expanded.error); }
    var (slots, seen) := expanded.value;
    ghost var before := store.Value();
    RunConserves(before, cfg, clock, rooms, pages);
    r := store.ReplaceParsedSchedule(Selectors(cfg, rooms), slots, budget, replyLost);
    if Replace(before, NameSelectors(Selectors(cfg, rooms)), NameSlots(slots)).Ok? {
      ImportIsGreedy(before, NameSelectors(Selectors(cfg, rooms)), NameSlots(slots));
    }
    if r.Err? { return; }
    RunInWords(cfg, clock, rooms, pages, before, store.Value());
    return Ok(r.value.(roomsSeen := |rooms|, lessonsSeen := seen, lessonsExpanded := |slots|));
  }
}
