/**
 Business hours: isWithinBusinessHours (internal/scheduler/scheduler.go), the repository that stores the
 windows (internal/repository/postgres/business_hours_repository.go) and the check at campaign creation.
 The local weekday and minute of the day are given; None stands for a time zone that cannot be loaded.
 */
module BusinessHours {
  import opened Wrappers
  import opened Messages

  const DAY := 1440
  const WEEK := 10080

  /** A window by weekday (Sunday is 0) and minutes of the day. */
  datatype Window = Window(day: int, start: int, end: int)

  datatype Local = Local(weekday: int, minute: int)

  predicate ValidWindow(w: Window) {
    0 <= w.day < 7 && 0 <= w.start < DAY && 0 <= w.end < DAY
  }

  predicate ValidLocal(t: Local) {
    0 <= t.weekday < 7 && 0 <= t.minute < DAY
  }

  // ---------- The meaning: circular intervals of the week ----------

  function WeekMinute(day: int, minute: int): int {
    day * DAY + minute
  }

  /** Minutes in a window; equal ends make a whole day. */
  function Length(w: Window): int {
    if w.end <= w.start then w.end + DAY - w.start else w.end - w.start
  }

  /** Minutes from the start of the window to t, going forward around the week. */
  function Offset(w: Window, t: Local): int {
    (WeekMinute(t.weekday, t.minute) - WeekMinute(w.day, w.start)) % WEEK
  }

  predicate Covers(w: Window, t: Local) {
    Offset(w, t) < Length(w)
  }

  ghost predicate Open(windows: seq<Window>, local: Option<Local>) {
    local.None? || windows == [] || exists i :: 0 <= i < |windows| && Covers(windows[i], local.value)
  }

  // ---------- The code's test of one window ----------

  predicate Matches(w: Window, t: Local) {
    if w.end <= w.start then
      (w.day == t.weekday && t.minute >= w.start) || ((w.day + 1) % 7 == t.weekday && t.minute < w.end)
    else w.day == t.weekday && w.start <= t.minute < w.end
  }

  /** A remainder, by the number of weeks to add. */
  lemma Remainder(x: int, weeks: int)
    requires 0 <= x + weeks * WEEK < WEEK
    ensures x % WEEK == x + weeks * WEEK
  {
  }

  /** The offset, without remainders: t and the start are at most a week apart. */
  lemma OffsetCases(w: Window, t: Local)
    requires ValidWindow(w) && ValidLocal(t)
    ensures var x := WeekMinute(t.weekday, t.minute) - WeekMinute(w.day, w.start);
      && -WEEK < x < WEEK
      && Offset(w, t) == if x >= 0 then x else x + WEEK
  {
    var x := WeekMinute(t.weekday, t.minute) - WeekMinute(w.day, w.start);
    Remainder(x, if x >= 0 then 0 else 1);
  }

  /** The two-part test across midnight and the test within a day are both membership in the interval. */
  lemma MatchesIsCovers(w: Window, t: Local)
    requires ValidWindow(w) && ValidLocal(t)
    ensures Matches(w, t) <==> Covers(w, t)
  {
    OffsetCases(w, t);
    assert (w.day + 1) % 7 == if w.day == 6 then 0 else w.day + 1;
  }

  method IsWithinBusinessHours(windows: seq<Window>, local: Option<Local>) returns (open: bool)
    requires forall i :: 0 <= i < |windows| ==> ValidWindow(windows[i])
    requires local.Some? ==> ValidLocal(local.value)
    ensures open <==> Open(windows, local)
    ensures windows == [] || local.None? ==> open
    ensures windows != [] && local.Some? ==>
              (open <==> exists i :: 0 <= i < |windows| && Covers(windows[i], local.value))
  {
    if |windows| == 0 || local.None? {
      return true;
    }
    var minuteOfDay, weekday := local.value.minute, local.value.weekday;
    var i := 0;
    while i < |windows|
      invariant 0 <= i <= |windows|
      invariant forall j :: 0 <= j < i ==> !Covers(windows[j], local.value)
    {
      var w := windows[i];
      MatchesIsCovers(w, local.value);
      if w.end <= w.start {
        var nextDay := (w.day + 1) % 7;
        if w.day == weekday && minuteOfDay >= w.start {
          return true;
        }
        if nextDay == weekday && minuteOfDay < w.end {
          return true;
        }
      } else if w.day == weekday && minuteOfDay >= w.start && minuteOfDay < w.end {
        return true;
      }
      i := i + 1;
    }
    return false;
  }

  /** Each window is open for exactly its length: the covered minutes of the week are a set of that size. */
  lemma CoveredMinutes(w: Window, n: nat) returns (t: Local)
    requires ValidWindow(w) && n < WEEK
    ensures ValidLocal(t) && Offset(w, t) == n
    ensures Covers(w, t) <==> n < Length(w)
    ensures forall u :: ValidLocal(u) && Offset(w, u) == n ==> u == t
  {
    var m := WeekMinute(w.day, w.start) + n;
    var wrapped := if m < WEEK then m else m - WEEK;
    t := Local(wrapped / DAY, wrapped % DAY);
    assert WeekMinute(t.weekday, t.minute) == wrapped;
    OffsetCases(w, t);
    forall u | ValidLocal(u) && Offset(w, u) == n ensures u == t {
      OffsetCases(w, u);
      SameMinute(u, t);
    }
  }

  lemma SameMinute(u: Local, t: Local)
    requires ValidLocal(u) && ValidLocal(t) && WeekMinute(u.weekday, u.minute) == WeekMinute(t.weekday, t.minute)
    ensures u == t
  {
  }

  // ---------- Storage ----------

  /** A clock time as the repository reads it: hour and minute. */
  datatype Clock = Clock(hour: int, minute: int)

  /** minuteToTime. */
  function MinuteToTime(m: int): Clock {
    Clock(m / 60, m % 60)
  }

  function MinuteOf(c: Clock): int {
    c.hour * 60 + c.minute
  }

  /** Minutes survive being stored and read back. */
  lemma MinuteRoundTrip(m: int)
    requires 0 <= m < DAY
    ensures MinuteOf(MinuteToTime(m)) == m
    ensures var c := MinuteToTime(m); 0 <= c.hour < 24 && 0 <= c.minute < 60
  {
  }

  /** A window with clock times, as the domain has it. */
  datatype ClockWindow = ClockWindow(day: int, start: Clock, end: Clock)

  function Minutes(w: ClockWindow): Window {
    Window(w.day, MinuteOf(w.start), MinuteOf(w.end))
  }

  function Clocks(w: Window): ClockWindow {
    ClockWindow(w.day, MinuteToTime(w.start), MinuteToTime(w.end))
  }

  /** validateCreateInput rejects only windows without a duration. */
  predicate CreationAccepts(w: ClockWindow) {
    MinuteOf(w.start) != MinuteOf(w.end)
  }

  /** The table's CHECK constraints. */
  predicate RowAccepted(w: Window) {
    ValidWindow(w) && w.start < w.end
  }

  /** The table takes all the windows: each is accepted and none is there twice. */
  predicate Storable(windows: seq<ClockWindow>) {
    && (forall i :: 0 <= i < |windows| ==> RowAccepted(Minutes(windows[i])))
    && (forall i, j :: 0 <= i < j < |windows| ==> Minutes(windows[i]) != Minutes(windows[j]))
  }

  predicate Holds(rows: set<Window>, windows: seq<ClockWindow>) {
    && (forall w :: w in rows ==> exists i :: 0 <= i < |windows| && Minutes(windows[i]) == w)
    && (forall i :: 0 <= i < |windows| ==> Minutes(windows[i]) in rows)
  }

  class Repository {
    /** The rows of each campaign; a set, because the table has a UNIQUE constraint over all of them. */
    var rows: map<CampaignId, set<Window>>

    function RowsOf(g: CampaignId): set<Window>
      reads this
    {
      if g in rows then rows[g] else {}
    }

    constructor ()
      ensures rows == map[]
    {
      rows := map[];
    }

    /** Replace, in one transaction: all the windows, or on any error the rows as they were. */
    method Replace(g: CampaignId, windows: seq<ClockWindow>, ok: bool) returns (r: Result<()>)
      modifies this
      ensures r.Ok? <==> ok && Storable(windows)
      ensures r.Ok? <==>
                && ok
                && (forall i :: 0 <= i < |windows| ==>
                      var w := Minutes(windows[i]);
                      0 <= w.day <= 6 && 0 <= w.start < w.end <= 1439)
                && (forall i, j :: 0 <= i < j < |windows| ==> Minutes(windows[i]) != Minutes(windows[j]))
      ensures r.Err? ==> rows == old(rows)
      ensures r.Ok? ==> rows.Keys == old(rows.Keys) + {g} && Holds(RowsOf(g), windows)
                        && forall h :: h != g ==> RowsOf(h) == old(RowsOf(h))
    {
      if !ok {
        return Err("transaction");
      }
      var inserted: set<Window> := {};
      var i := 0;
      while i < |windows|
        invariant 0 <= i <= |windows|
        invariant forall j :: 0 <= j < i ==> RowAccepted(Minutes(windows[j]))
        invariant forall j, k :: 0 <= j < k < i ==> Minutes(windows[j]) != Minutes(windows[k])
        invariant forall w :: w in inserted <==> exists j :: 0 <= j < i && Minutes(windows[j]) == w
      {
        var w := Minutes(windows[i]);
        if !RowAccepted(w) || w in inserted {
          return Err("insert");
        }
        inserted := inserted + {w};
        i := i + 1;
      }
      rows := rows[g := inserted];
      return Ok(());
    }
  }

  /** The order and number of windows do not matter to the test, only which there are. */
  lemma OpenBySet(windows: seq<Window>, others: seq<Window>, local: Option<Local>)
    requires forall w :: w in windows <==> w in others
    ensures Open(windows, local) <==> Open(others, local)
  {
    if windows != [] {
      assert windows[0] in others;
    }
    if others != [] {
      assert others[0] in windows;
    }
    forall t | local == Some(t)
      ensures (exists i :: 0 <= i < |windows| && Covers(windows[i], t))
         <==> (exists i :: 0 <= i < |others| && Covers(others[i], t))
    {
      CoveredIn(windows, others, t);
      CoveredIn(others, windows, t);
    }
  }

  lemma CoveredIn(windows: seq<Window>, others: seq<Window>, t: Local)
    requires forall w :: w in windows ==> w in others
    ensures (exists i :: 0 <= i < |windows| && Covers(windows[i], t))
        ==> (exists i :: 0 <= i < |others| && Covers(others[i], t))
  {
    if i :| 0 <= i < |windows| && Covers(windows[i], t) {
      assert windows[i] in others;
      var j :| 0 <= j < |others| && others[j] == windows[i];
    }
  }

  /** Whatever order the rows are read back in, and through the clock times they are read into, the test on the
      stored windows is the test on the windows that were put in. */
  lemma StorageKeepsHours(windows: seq<ClockWindow>, listed: seq<Window>, local: Option<Local>)
    requires forall i :: 0 <= i < |windows| ==> RowAccepted(Minutes(windows[i]))
    requires forall w :: w in listed <==> exists i :: 0 <= i < |windows| && Minutes(windows[i]) == w
    ensures var read := seq(|listed|, i requires 0 <= i < |listed| => Minutes(Clocks(listed[i])));
      var put := seq(|windows|, i requires 0 <= i < |windows| => Minutes(windows[i]));
      Open(read, local) <==> Open(put, local)
  {
    var read := seq(|listed|, i requires 0 <= i < |listed| => Minutes(Clocks(listed[i])));
    var put := seq(|windows|, i requires 0 <= i < |windows| => Minutes(windows[i]));
    forall i | 0 <= i < |listed| ensures read[i] == listed[i] {
      assert listed[i] in listed;
      MinuteRoundTrip(listed[i].start);
      MinuteRoundTrip(listed[i].end);
    }
    assert read == listed;
    forall w ensures w in listed <==> w in put {
      if w in put {
        var i :| 0 <= i < |put| && put[i] == w;
        assert Minutes(windows[i]) == w;
      }
      if w in listed {
        var i :| 0 <= i < |windows| && Minutes(windows[i]) == w;
        assert put[i] == w;
      }
    }
    OpenBySet(listed, put, local);
  }

  /** A window across midnight passes the check at creation and can never be stored. */
  lemma MidnightWindowIsNotStored(w: ClockWindow)
    requires ValidWindow(Minutes(w)) && MinuteOf(w.end) < MinuteOf(w.start)
    ensures CreationAccepts(w) && !RowAccepted(Minutes(w))
  {
  }
}
