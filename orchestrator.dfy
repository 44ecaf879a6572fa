/**
  The decision logic of main in deskbird.py, with every remote call
  replaced by an input.  The pure functions below say what one run does;
  the methods carry out the same run with the loops of the source and are
  proved to agree with them.

  Inputs standing for the outside world:
  - config: the parsed configuration, None when the file is missing;
  - authOk: whether the identity endpoint answered with status 200;
  - respond: the answer to the n-th booking call of the run (counting
    from 0), given the request sent; numbering the calls lets the answer
    depend on everything the service saw before;
  - fetched: the results list of the bookings query, None for a non-200;
  - checkIn: whether the n-th check-in call of the run succeeds;
  - today: the current date as a day number.
*/
module Orchestrator {
  import opened Wrappers
  import opened Weekdays
  import opened Api

  /** The fields of config.json that main reads; an absent target_days is the empty list. */
  datatype Config = Config(workspaceId: Id, favoriteSeats: seq<Seat>, targetDays: seq<string>)

  /** The max_days main hands to the resolver. */
  const LookaheadDays := 6

  type BookingService = (nat, BookingRequest) -> BookOutcome
  type CheckInService = (nat, CheckInCall) -> bool

  /** One booking call: the date and seat tried, the request sent and the answer. */
  datatype Attempt = Attempt(date: int, seat: string, request: BookingRequest, outcome: BookOutcome)

  /** The booking call for a seat on a date, made as call number n of the run. */
  function AttemptAt(seat: Seat, date: int, workspaceId: Id, respond: BookingService, n: nat): Attempt
  {
    var req := BookingPayload(seat.info, date, workspaceId);
    Attempt(date, seat.name, req, respond(n, req))
  }

  // ---------------------------------------------------------------------
  // The date a target-day label is booked for
  // ---------------------------------------------------------------------

  /**
    The date main books for one target_days label: None for an unknown
    label or when the resolver finds nothing within six days.
  */
  function TargetDate(name: string, today: int): (r: Option<int>)
    ensures r.Some? ==> today < r.value <= today + LookaheadDays
    ensures r.Some? ==> name in DayLabels && DayLabels[WeekdayOf(r.value)] == name
    ensures r.None? <==> name !in DayLabels || WeekdayNumber(name) == Some(WeekdayOf(today))
  {
    match WeekdayNumber(name)
    case None => None
    case Some(wd) =>
      SixDayWindowMissesOnlyToday(today, wd);
      NextOccurrence(today, wd, LookaheadDays)
  }

  // ---------------------------------------------------------------------
  // Ordered seat fallback for one date
  // ---------------------------------------------------------------------

  /** Booked: the last seat tried was booked.  Unbooked: every seat came back empty.  Aborted: the last call failed hard. */
  datatype SeatStatus = Booked | Unbooked | Aborted

  datatype Fallback = Fallback(attempts: seq<Attempt>, status: SeatStatus)

  /**
    The seat loop of main for one date, starting at call number n: seats
    are tried in order, the first non-empty result stops the loop, and a
    hard failure ends it (and, further up, the run).
  */
  function SeatFallback(seats: seq<Seat>, date: int, workspaceId: Id, respond: BookingService, n: nat): (f: Fallback)
    ensures |f.attempts| <= |seats|
    decreases |seats|
  {
    if seats == [] then Fallback([], Unbooked)
    else
      var a := AttemptAt(seats[0], date, workspaceId, respond, n);
      match a.outcome
      case HardFail => Fallback([a], Aborted)
      case Ok(nonEmpty) =>
        if nonEmpty then Fallback([a], Booked)
        else
          var rest := SeatFallback(seats[1..], date, workspaceId, respond, n + 1);
          Fallback([a] + rest.attempts, rest.status)
  }

  /** The trace tries the first |attempts| seats in order, as calls n, n + 1, ... of the run. */
  predicate TriesInOrder(attempts: seq<Attempt>, seats: seq<Seat>, date: int, workspaceId: Id, respond: BookingService, n: nat)
  {
    && |attempts| <= |seats|
    && forall i :: 0 <= i < |attempts| ==> attempts[i] == AttemptAt(seats[i], date, workspaceId, respond, n + i)
  }

  /** Every call of the trace but the last came back with an empty successfulBookings. */
  predicate EmptyBeforeLast(attempts: seq<Attempt>)
  {
    forall i :: 0 <= i < |attempts| - 1 ==> attempts[i].outcome == Ok(false)
  }

  lemma TriesInOrderCons(a: Attempt, rest: seq<Attempt>, seats: seq<Seat>, date: int, workspaceId: Id, respond: BookingService, n: nat)
    requires seats != [] && a == AttemptAt(seats[0], date, workspaceId, respond, n)
    requires TriesInOrder(rest, seats[1..], date, workspaceId, respond, n + 1)
    ensures TriesInOrder([a] + rest, seats, date, workspaceId, respond, n)
  {
    forall i | 1 <= i < |[a] + rest|
      ensures ([a] + rest)[i] == AttemptAt(seats[i], date, workspaceId, respond, n + i)
    {
      assert ([a] + rest)[i] == rest[i - 1];
      assert seats[1..][i - 1] == seats[i];
    }
  }

  lemma EmptyBeforeLastCons(a: Attempt, rest: seq<Attempt>)
    requires a.outcome == Ok(false) && EmptyBeforeLast(rest)
    ensures EmptyBeforeLast([a] + rest)
    ensures rest != [] ==> Last([a] + rest) == Last(rest)
  {
    forall i | 1 <= i < |[a] + rest| - 1
      ensures ([a] + rest)[i].outcome == Ok(false)
    {
      assert ([a] + rest)[i] == rest[i - 1];
    }
  }

  /**
    The seats tried are a prefix of the favourites in order, each with
    book_seat's payload for the date; every one but the last came back
    empty; the status is read off the last answer, and the date is left
    unbooked only after every seat was tried.
  */
  lemma {:induction false} SeatFallbackShape(seats: seq<Seat>, date: int, workspaceId: Id, respond: BookingService, n: nat)
    ensures var f := SeatFallback(seats, date, workspaceId, respond, n);
      && TriesInOrder(f.attempts, seats, date, workspaceId, respond, n)
      && EmptyBeforeLast(f.attempts)
      && (f.status == Booked <==> f.attempts != [] && Last(f.attempts).outcome == Ok(true))
      && (f.status == Aborted <==> f.attempts != [] && Last(f.attempts).outcome == HardFail)
      && (f.status == Unbooked ==> |f.attempts| == |seats|)
    decreases |seats|
  {
    if seats != [] {
      var a := AttemptAt(seats[0], date, workspaceId, respond, n);
      if a.outcome == Ok(false) {
        var rest := SeatFallback(seats[1..], date, workspaceId, respond, n + 1);
        SeatFallbackShape(seats[1..], date, workspaceId, respond, n + 1);
        TriesInOrderCons(a, rest.attempts, seats, date, workspaceId, respond, n);
        EmptyBeforeLastCons(a, rest.attempts);
      }
    }
  }

  /**
    When the first k seats come back empty and seat k is booked, exactly
    seats 0..k are tried and no later one.
  */
  lemma {:induction false} FallbackStopsAtFirstSuccess(
    seats: seq<Seat>, date: int, workspaceId: Id, respond: BookingService, n: nat, k: nat)
    requires k < |seats|
    requires forall i :: 0 <= i < k ==> AttemptAt(seats[i], date, workspaceId, respond, n + i).outcome == Ok(false)
    requires AttemptAt(seats[k], date, workspaceId, respond, n + k).outcome == Ok(true)
    ensures |SeatFallback(seats, date, workspaceId, respond, n).attempts| == k + 1
    ensures SeatFallback(seats, date, workspaceId, respond, n).status == Booked
    ensures forall i :: 0 <= i <= k ==>
      SeatFallback(seats, date, workspaceId, respond, n).attempts[i] == AttemptAt(seats[i], date, workspaceId, respond, n + i)
    decreases k
  {
    SeatFallbackShape(seats, date, workspaceId, respond, n);
    if k > 0 {
      forall i | 0 <= i < k - 1
        ensures AttemptAt(seats[1..][i], date, workspaceId, respond, n + 1 + i).outcome == Ok(false)
      {
        assert seats[1..][i] == seats[i + 1];
      }
      assert seats[1..][k - 1] == seats[k];
      FallbackStopsAtFirstSuccess(seats[1..], date, workspaceId, respond, n + 1, k - 1);
    }
  }

  /**
    Seats A, B, C where A comes back empty and B is booked: exactly A and
    then B are tried, and C never is.
  */
  lemma SecondSeatBooked(a: Seat, b: Seat, c: Seat, date: int, workspaceId: Id, respond: BookingService, n: nat)
    requires AttemptAt(a, date, workspaceId, respond, n).outcome == Ok(false)
    requires AttemptAt(b, date, workspaceId, respond, n + 1).outcome == Ok(true)
    ensures SeatFallback([a, b, c], date, workspaceId, respond, n) ==
      Fallback([AttemptAt(a, date, workspaceId, respond, n), AttemptAt(b, date, workspaceId, respond, n + 1)], Booked)
  {
    assert [a, b, c][1..] == [b, c];
    assert SeatFallback([b, c], date, workspaceId, respond, n + 1) ==
      Fallback([AttemptAt(b, date, workspaceId, respond, n + 1)], Booked);
  }

  /** When every seat comes back empty, every seat is tried and the date stays unbooked. */
  lemma {:induction false} FallbackTriesAllWhenAllEmpty(
    seats: seq<Seat>, date: int, workspaceId: Id, respond: BookingService, n: nat)
    requires forall i :: 0 <= i < |seats| ==> AttemptAt(seats[i], date, workspaceId, respond, n + i).outcome == Ok(false)
    ensures |SeatFallback(seats, date, workspaceId, respond, n).attempts| == |seats|
    ensures SeatFallback(seats, date, workspaceId, respond, n).status == Unbooked
    decreases |seats|
  {
    if seats != [] {
      forall i | 0 <= i < |seats| - 1
        ensures AttemptAt(seats[1..][i], date, workspaceId, respond, n + 1 + i).outcome == Ok(false)
      {
        assert seats[1..][i] == seats[i + 1];
      }
      FallbackTriesAllWhenAllEmpty(seats[1..], date, workspaceId, respond, n + 1);
    }
  }

  // ---------------------------------------------------------------------
  // The target-day loop
  // ---------------------------------------------------------------------

  /** The booking calls of the target-day loop, and whether a hard failure cut it short. */
  datatype Schedule = Schedule(attempts: seq<Attempt>, aborted: bool)

  /** Work done first on x and then, unless x was cut short, on y. */
  function Then(x: Schedule, y: Schedule): Schedule
  {
    if x.aborted then x else Schedule(x.attempts + y.attempts, y.aborted)
  }

  lemma ThenAssociative(x: Schedule, y: Schedule, z: Schedule)
    ensures Then(Then(x, y), z) == Then(x, Then(y, z))
  {
    if !x.aborted && !y.aborted {
      assert (x.attempts + y.attempts) + z.attempts == x.attempts + (y.attempts + z.attempts);
    }
  }

  /** Doing nothing first changes nothing. */
  lemma ThenIdle(y: Schedule)
    ensures Then(Schedule([], false), y) == y
  {
    assert [] + y.attempts == y.attempts;
  }

  /** What the loop does for one label when it reaches it as call number n of the run. */
  type DayWork = (string, nat) -> Schedule

  /**
    The target-day loop of main: the labels are taken in configuration
    order, each as the next calls of the run, and a turn that was cut short
    ends the loop.
  */
  function TargetDays(labels: seq<string>, work: DayWork, n: nat): Schedule
    decreases |labels|
  {
    if labels == [] then Schedule([], false)
    else
      var first := work(labels[0], n);
      Then(first, TargetDays(labels[1..], work, n + |first.attempts|))
  }

  /** One turn of the loop, then the rest. */
  lemma TargetDaysCons(labels: seq<string>, work: DayWork, n: nat)
    requires labels != []
    ensures var first := work(labels[0], n);
      TargetDays(labels, work, n) == Then(first, TargetDays(labels[1..], work, n + |first.attempts|))
  {
  }

  /** Target days are processed in configuration order: the labels of a are done before those of b. */
  lemma {:induction false} TargetDaysAppend(a: seq<string>, b: seq<string>, work: DayWork, n: nat)
    ensures var sa := TargetDays(a, work, n);
      TargetDays(a + b, work, n) == Then(sa, TargetDays(b, work, n + |sa.attempts|))
    decreases |a|
  {
    if a == [] {
      assert a + b == b;
      ThenIdle(TargetDays(b, work, n));
    } else {
      assert (a + b)[0] == a[0] && (a + b)[1..] == a[1..] + b;
      var first := work(a[0], n);
      var m := n + |first.attempts|;
      var rest := TargetDays(a[1..], work, m);
      TargetDaysAppend(a[1..], b, work, m);
      ThenAssociative(first, rest, TargetDays(b, work, m + |rest.attempts|));
    }
  }

  /** Every call the loop makes is made in the turn of one of the labels. */
  lemma {:induction false} TargetDaysAttemptsComeFromLabels(labels: seq<string>, work: DayWork, n: nat)
    ensures forall at :: at in TargetDays(labels, work, n).attempts ==>
      exists i, m: nat :: 0 <= i < |labels| && at in work(labels[i], m).attempts
    decreases |labels|
  {
    if labels != [] {
      var first := work(labels[0], n);
      var m := n + |first.attempts|;
      TargetDaysAttemptsComeFromLabels(labels[1..], work, m);
      forall at | at in TargetDays(labels, work, n).attempts
        ensures exists i, m: nat :: 0 <= i < |labels| && at in work(labels[i], m).attempts
      {
        if at in first.attempts {
          assert at in work(labels[0], n).attempts;
        } else {
          assert at in TargetDays(labels[1..], work, m).attempts;
          var i, m': nat :| 0 <= i < |labels[1..]| && at in work(labels[1..][i], m').attempts;
          assert labels[1..][i] == labels[i + 1];
        }
      }
    }
  }

  /** Each call of the trace, numbered from n, got the service's answer to the request it sent. */
  predicate Answered(attempts: seq<Attempt>, respond: BookingService, n: nat)
  {
    forall i :: 0 <= i < |attempts| ==> attempts[i].outcome == respond(n + i, attempts[i].request)
  }

  /** No call of the trace but the last failed hard. */
  predicate HardFailOnlyLast(attempts: seq<Attempt>)
  {
    forall i :: 0 <= i < |attempts| - 1 ==> attempts[i].outcome != HardFail
  }

  /** The calls of s got the service's answers, and s was cut short exactly when its last call failed hard. */
  predicate Consistent(s: Schedule, respond: BookingService, n: nat)
  {
    && Answered(s.attempts, respond, n)
    && HardFailOnlyLast(s.attempts)
    && (s.aborted <==> s.attempts != [] && Last(s.attempts).outcome == HardFail)
  }

  lemma ThenConsistent(x: Schedule, y: Schedule, respond: BookingService, n: nat)
    requires Consistent(x, respond, n) && Consistent(y, respond, n + |x.attempts|)
    ensures Consistent(Then(x, y), respond, n)
  {
    if !x.aborted {
      var xs: seq<Attempt>, ys: seq<Attempt> := x.attempts, y.attempts;
      forall i | |xs| <= i < |xs + ys|
        ensures (xs + ys)[i].outcome == respond(n + i, (xs + ys)[i].request)
        ensures i < |xs + ys| - 1 ==> (xs + ys)[i].outcome != HardFail
      {
        assert (xs + ys)[i] == ys[i - |xs|];
      }
      if ys != [] {
        assert Last(xs + ys) == Last(ys);
      } else {
        assert xs + ys == xs;
      }
    }
  }

  /**
    When every turn is consistent with the service's answers, so is the
    whole loop: only its last call can have failed hard, and it was cut
    short exactly when that call did.
  */
  lemma {:induction false} TargetDaysConsistent(labels: seq<string>, work: DayWork, respond: BookingService, n: nat)
    requires forall name, m: nat :: Consistent(work(name, m), respond, m)
    ensures Consistent(TargetDays(labels, work, n), respond, n)
    decreases |labels|
  {
    if labels != [] {
      var first := work(labels[0], n);
      TargetDaysConsistent(labels[1..], work, respond, n + |first.attempts|);
      ThenConsistent(first, TargetDays(labels[1..], work, n + |first.attempts|), respond, n);
    }
  }

  // ---------------------------------------------------------------------
  // One target day of main
  // ---------------------------------------------------------------------

  /**
    What main does for one target_days label, as calls n, n + 1, ... of the
    run: nothing for a label without a date (the two continue statements),
    otherwise the seat fallback for its date, which a hard failure aborts.
  */
  function BookDay(config: Config, name: string, today: int, respond: BookingService, n: nat): Schedule
  {
    match TargetDate(name, today)
    case None => Schedule([], false)
    case Some(date) =>
      var f := SeatFallback(config.favoriteSeats, date, config.workspaceId, respond, n);
      Schedule(f.attempts, f.status == Aborted)
  }

  /** BookDay as the loop's work for one configuration, date and service. */
  function DayBooking(config: Config, today: int, respond: BookingService): DayWork
  {
    (name: string, n: nat) => BookDay(config, name, today, respond, n)
  }

  /** The booking calls of a run, and whether a hard failure cut them short. */
  function BookTargetDays(config: Config, today: int, respond: BookingService): Schedule
  {
    TargetDays(config.targetDays, DayBooking(config, today, respond), 0)
  }

  /** One label's calls got the service's answers; a hard failure is their last call and aborts the turn. */
  lemma BookDayConsistent(config: Config, name: string, today: int, respond: BookingService, n: nat)
    ensures Consistent(BookDay(config, name, today, respond, n), respond, n)
  {
    match TargetDate(name, today)
    case None =>
    case Some(date) =>
      var seats := config.favoriteSeats;
      var f := SeatFallback(seats, date, config.workspaceId, respond, n);
      SeatFallbackShape(seats, date, config.workspaceId, respond, n);
      forall i | 0 <= i < |f.attempts|
        ensures f.attempts[i].outcome == respond(n + i, f.attempts[i].request)
        ensures i < |f.attempts| - 1 ==> f.attempts[i].outcome != HardFail
      {
        assert f.attempts[i] == AttemptAt(seats[i], date, config.workspaceId, respond, n + i);
      }
  }

  /**
    Every booking call of a run got the service's answer for its place in
    the run; only the last one can have failed hard, and the loop was cut
    short exactly when it did.
  */
  lemma BookTargetDaysShape(config: Config, today: int, respond: BookingService)
    ensures var s := BookTargetDays(config, today, respond);
      && Answered(s.attempts, respond, 0)
      && HardFailOnlyLast(s.attempts)
      && (s.aborted <==> s.attempts != [] && Last(s.attempts).outcome == HardFail)
  {
    var work := DayBooking(config, today, respond);
    forall name, m: nat
      ensures Consistent(work(name, m), respond, m)
    {
      BookDayConsistent(config, name, today, respond, m);
    }
    TargetDaysConsistent(config.targetDays, work, respond, 0);
  }

  /** A label whose turn never books anything can be dropped from the list. */
  lemma IdleDayIsIgnored(a: seq<string>, name: string, b: seq<string>, work: DayWork, n: nat)
    requires forall m: nat :: work(name, m) == Schedule([], false)
    ensures TargetDays(a + [name] + b, work, n) == TargetDays(a + b, work, n)
  {
    var sa := TargetDays(a, work, n);
    var m := n + |sa.attempts|;
    assert a + [name] + b == a + ([name] + b);
    TargetDaysAppend(a, [name] + b, work, n);
    TargetDaysAppend(a, b, work, n);
    var tail := [name] + b;
    assert tail[0] == name && tail[1..] == b;
    TargetDaysCons(tail, work, m);
    ThenIdle(TargetDays(b, work, m));
  }

  /** An unknown label, or one the resolver finds no date for, makes no call and changes nothing for the labels after it. */
  lemma SkippedDayIsIgnored(
    config: Config, a: seq<string>, name: string, b: seq<string>, today: int, respond: BookingService, n: nat)
    requires TargetDate(name, today).None?
    ensures var work := DayBooking(config, today, respond);
      TargetDays(a + [name] + b, work, n) == TargetDays(a + b, work, n)
  {
    var work := DayBooking(config, today, respond);
    forall m: nat ensures work(name, m) == Schedule([], false) {
    }
    IdleDayIsIgnored(a, name, b, work, n);
  }

  /**
    Every booking call of a run is for a favourite seat, on the resolved
    date of one of the configured labels: after today, at most six days
    ahead, on that label's weekday, with book_seat's payload.
  */
  lemma AttemptsAreForResolvedDates(config: Config, today: int, respond: BookingService)
    ensures forall at :: at in BookTargetDays(config, today, respond).attempts ==>
      && today < at.date <= today + LookaheadDays
      && DayLabels[WeekdayOf(at.date)] in config.targetDays
      && exists seat :: seat in config.favoriteSeats && at.seat == seat.name
           && at.request == BookingPayload(seat.info, at.date, config.workspaceId)
  {
    var labels, work := config.targetDays, DayBooking(config, today, respond);
    TargetDaysAttemptsComeFromLabels(labels, work, 0);
    forall at | at in BookTargetDays(config, today, respond).attempts
      ensures && today < at.date <= today + LookaheadDays
              && DayLabels[WeekdayOf(at.date)] in labels
              && exists seat :: seat in config.favoriteSeats && at.seat == seat.name
                   && at.request == BookingPayload(seat.info, at.date, config.workspaceId)
    {
      var k, m: nat :| 0 <= k < |labels| && at in work(labels[k], m).attempts;
      var date := TargetDate(labels[k], today).value;
      var f := SeatFallback(config.favoriteSeats, date, config.workspaceId, respond, m);
      SeatFallbackShape(config.favoriteSeats, date, config.workspaceId, respond, m);
      var i :| 0 <= i < |f.attempts| && f.attempts[i] == at;
      assert at == AttemptAt(config.favoriteSeats[i], date, config.workspaceId, respond, m + i);
      assert config.favoriteSeats[i] in config.favoriteSeats;
    }
  }

  // ---------------------------------------------------------------------
  // Same-day check-in
  // ---------------------------------------------------------------------

  /** A booking main checks in: dated today and not yet checked in. */
  predicate DueForCheckIn(b: Booking, today: int)
  {
    b.day == today && b.checkInStatus != CheckedIn
  }

  /** The bookings of the results list that main checks in, in list order. */
  function DueToday(results: seq<Booking>, today: int): (due: seq<Booking>)
    ensures |due| <= |results|
    ensures forall b :: b in due <==> b in results && DueForCheckIn(b, today)
  {
    if results == [] then []
    else
      var prefix := DueToday(results[..|results| - 1], today);
      assert results == results[..|results| - 1] + [Last(results)];
      if DueForCheckIn(Last(results), today) then prefix + [Last(results)] else prefix
  }

  /** The selection keeps list order: it distributes over concatenation. */
  lemma {:induction false} DueTodayAppend(a: seq<Booking>, b: seq<Booking>, today: int)
    ensures DueToday(a + b, today) == DueToday(a, today) + DueToday(b, today)
    decreases |b|
  {
    if b == [] {
      assert a + b == a;
    } else {
      var b' := b[..|b| - 1];
      assert (a + b)[..|a + b| - 1] == a + b';
      assert Last(a + b) == Last(b);
      DueTodayAppend(a, b', today);
    }
  }

  /** The call main makes to check a booking in. */
  function CheckInCallFor(b: Booking): CheckInCall
  {
    CheckInCall(b.id, b.zoneItemId)
  }

  /** One check-in call and whether it succeeded. */
  datatype CheckIn = CheckIn(call: CheckInCall, ok: bool)

  /**
    The check-in calls for the due bookings: one per booking, in order,
    each with its own outcome.  An earlier failure does not remove or
    change a later call.
  */
  function CheckInLog(due: seq<Booking>, checkIn: CheckInService): (log: seq<CheckIn>)
    ensures |log| == |due|
    ensures forall i :: 0 <= i < |due| ==>
      log[i].call == CheckInCallFor(due[i]) && log[i].ok == checkIn(i, CheckInCallFor(due[i]))
  {
    if due == [] then []
    else
      var call := CheckInCallFor(Last(due));
      CheckInLog(due[..|due| - 1], checkIn) + [CheckIn(call, checkIn(|due| - 1, call))]
  }

  // ---------------------------------------------------------------------
  // A whole run
  // ---------------------------------------------------------------------

  /**
    What one run of main does: the booking calls, whether the bookings
    query was sent, the check-in calls and the exit code (0, or 1 after an
    exception reached the top level).
  */
  datatype RunResult = RunResult(attempts: seq<Attempt>, fetchSent: bool, checkIns: seq<CheckIn>, exitCode: int)

  function RunOutcome(
    config: Option<Config>, authOk: bool, today: int, respond: BookingService,
    fetched: Option<seq<Booking>>, checkIn: CheckInService): RunResult
  {
    if config.None? || !authOk then RunResult([], false, [], 1)
    else
      var s := BookTargetDays(config.value, today, respond);
      if s.aborted then RunResult(s.attempts, false, [], 1)
      else
        match fetched
        case None => RunResult(s.attempts, true, [], 1)
        case Some(results) => RunResult(s.attempts, true, CheckInLog(DueToday(results, today), checkIn), 0)
  }

  /** A missing configuration or a failed authentication ends the run before any call, with exit code 1. */
  lemma StartupFailureStopsEverything(
    config: Option<Config>, authOk: bool, today: int, respond: BookingService,
    fetched: Option<seq<Booking>>, checkIn: CheckInService)
    requires config.None? || !authOk
    ensures var r := RunOutcome(config, authOk, today, respond, fetched, checkIn);
      r.attempts == [] && !r.fetchSent && r.checkIns == [] && r.exitCode == 1
  {
  }

  /**
    A hard booking failure is never recovered: it is the last booking call,
    the bookings query and every check-in are skipped and the exit code is 1.
  */
  lemma HardFailAbortsRun(
    config: Option<Config>, authOk: bool, today: int, respond: BookingService,
    fetched: Option<seq<Booking>>, checkIn: CheckInService, i: nat)
    requires var r := RunOutcome(config, authOk, today, respond, fetched, checkIn);
      i < |r.attempts| && r.attempts[i].outcome == HardFail
    ensures var r := RunOutcome(config, authOk, today, respond, fetched, checkIn);
      i == |r.attempts| - 1 && !r.fetchSent && r.checkIns == [] && r.exitCode == 1
  {
    if config.Some? {
      BookTargetDaysShape(config.value, today, respond);
    }
  }

  /** The run exits with 0 exactly when nothing failed fatally; otherwise with 1. */
  lemma ExitCodeReflectsFatalFailures(
    config: Option<Config>, authOk: bool, today: int, respond: BookingService,
    fetched: Option<seq<Booking>>, checkIn: CheckInService)
    ensures var r := RunOutcome(config, authOk, today, respond, fetched, checkIn);
      && (r.exitCode == 0 || r.exitCode == 1)
      && (r.exitCode == 0 <==>
            config.Some? && authOk && fetched.Some?
            && forall at :: at in r.attempts ==> at.outcome != HardFail)
  {
    if config.Some? && authOk {
      var s := BookTargetDays(config.value, today, respond);
      BookTargetDaysShape(config.value, today, respond);
      if s.aborted {
        assert Last(s.attempts) in s.attempts;
      } else {
        forall at | at in s.attempts
          ensures at.outcome != HardFail
        {
          var i :| 0 <= i < |s.attempts| && s.attempts[i] == at;
          assert i < |s.attempts| - 1 || at == Last(s.attempts);
        }
      }
    }
  }

  /**
    A failed bookings query ends the run with exit code 1 and no check-in.
    The query is sent exactly when the run got past authentication and the
    booking loop without a hard failure.
  */
  lemma FetchFailureSkipsCheckIns(
    config: Option<Config>, authOk: bool, today: int, respond: BookingService, checkIn: CheckInService)
    ensures var r := RunOutcome(config, authOk, today, respond, None, checkIn);
      && r.checkIns == [] && r.exitCode == 1
      && (r.fetchSent <==> config.Some? && authOk && !BookTargetDays(config.value, today, respond).aborted)
  {
  }

  /**
    On a run that reached the check-ins, the calls go exactly to the
    bookings of the results list dated today and not checked in, in list
    order, each with the booking's id and zone item id.
  */
  lemma CheckInsGoToTodaysPendingBookings(
    config: Option<Config>, authOk: bool, today: int, respond: BookingService,
    results: seq<Booking>, checkIn: CheckInService)
    requires RunOutcome(config, authOk, today, respond, Some(results), checkIn).exitCode == 0
    ensures var r := RunOutcome(config, authOk, today, respond, Some(results), checkIn);
      && |r.checkIns| == |DueToday(results, today)|
      && (forall i :: 0 <= i < |r.checkIns| ==> r.checkIns[i].call == CheckInCallFor(DueToday(results, today)[i]))
      && (forall c :: c in r.checkIns ==>
            exists b :: b in results && DueForCheckIn(b, today) && c.call == CheckInCallFor(b))
      && (forall b :: b in results && DueForCheckIn(b, today) ==>
            exists c :: c in r.checkIns && c.call == CheckInCallFor(b))
  {
    var r := RunOutcome(config, authOk, today, respond, Some(results), checkIn);
    var due := DueToday(results, today);
    forall c | c in r.checkIns
      ensures exists b :: b in results && DueForCheckIn(b, today) && c.call == CheckInCallFor(b)
    {
      var i :| 0 <= i < |r.checkIns| && r.checkIns[i] == c;
      assert due[i] in due;
    }
    forall b | b in results && DueForCheckIn(b, today)
      ensures exists c :: c in r.checkIns && c.call == CheckInCallFor(b)
    {
      var i :| 0 <= i < |due| && due[i] == b;
      assert r.checkIns[i] in r.checkIns;
    }
  }

  // ---------------------------------------------------------------------
  // The loops of main
  // ---------------------------------------------------------------------

  /** The seat loop's invariant: the calls made so far, followed by what the remaining seats give, make up the whole fallback. */
  predicate SeatLoopInvariant(
    seats: seq<Seat>, date: int, workspaceId: Id, respond: BookingService, n: nat, i: nat, attempts: seq<Attempt>)
    requires i <= |seats|
  {
    var rest := SeatFallback(seats[i..], date, workspaceId, respond, n + i);
    SeatFallback(seats, date, workspaceId, respond, n) == Fallback(attempts + rest.attempts, rest.status)
  }

  /** Trying seats[i]: an empty answer moves the loop on; any other answer ends the fallback with that call. */
  lemma SeatLoopStep(
    seats: seq<Seat>, date: int, workspaceId: Id, respond: BookingService, n: nat, i: nat, attempts: seq<Attempt>)
    requires i < |seats| && SeatLoopInvariant(seats, date, workspaceId, respond, n, i, attempts)
    ensures var a := AttemptAt(seats[i], date, workspaceId, respond, n + i);
      match a.outcome
      case HardFail => SeatFallback(seats, date, workspaceId, respond, n) == Fallback(attempts + [a], Aborted)
      case Ok(nonEmpty) =>
        if nonEmpty then SeatFallback(seats, date, workspaceId, respond, n) == Fallback(attempts + [a], Booked)
        else SeatLoopInvariant(seats, date, workspaceId, respond, n, i + 1, attempts + [a])
  {
    assert seats[i..][0] == seats[i];
    assert seats[i..][1..] == seats[i + 1..];
    var a := AttemptAt(seats[i], date, workspaceId, respond, n + i);
    var rest := SeatFallback(seats[i + 1..], date, workspaceId, respond, n + i + 1);
    assert attempts + ([a] + rest.attempts) == (attempts + [a]) + rest.attempts;
  }

  /** The seat loop of main for one date: a for loop with break on the first non-empty result. */
  method BookFirstAvailable(seats: seq<Seat>, date: int, workspaceId: Id, respond: BookingService, n: nat)
    returns (f: Fallback)
    ensures f == SeatFallback(seats, date, workspaceId, respond, n)
  {
    var attempts: seq<Attempt> := [];
    var i := 0;
    assert seats[0..] == seats;
    while i < |seats|
      invariant 0 <= i <= |seats|
      invariant SeatLoopInvariant(seats, date, workspaceId, respond, n, i, attempts)
    {
      var a := AttemptAt(seats[i], date, workspaceId, respond, n + i);
      SeatLoopStep(seats, date, workspaceId, respond, n, i, attempts);
      if a.outcome == HardFail {
        return Fallback(attempts + [a], Aborted);
      } else if a.outcome.nonEmpty {
        return Fallback(attempts + [a], Booked);
      }
      attempts := attempts + [a];
      i := i + 1;
    }
    assert seats[i..] == [];
    assert attempts + [] == attempts;
    f := Fallback(attempts, Unbooked);
  }

  /** The check-in loop of main: skip bookings not due, call check-in for the others, catching each failure. */
  method CheckInToday(results: seq<Booking>, today: int, checkIn: CheckInService) returns (log: seq<CheckIn>)
    ensures log == CheckInLog(DueToday(results, today), checkIn)
  {
    log := [];
    var i := 0;
    while i < |results|
      invariant 0 <= i <= |results|
      invariant log == CheckInLog(DueToday(results[..i], today), checkIn)
    {
      var booking := results[i];
      assert results[..i + 1][..i] == results[..i];
      if booking.day != today {
        i := i + 1;
        continue;
      }
      if booking.checkInStatus == CheckedIn {
        i := i + 1;
        continue;
      }
      var call := CheckInCallFor(booking);
      var ok := checkIn(|log|, call);
      log := log + [CheckIn(call, ok)];
      i := i + 1;
    }
    assert results[..i] == results;
  }

  /** One turn of main's target-day loop: the label lookup, the resolver and, for a date, the seat loop. */
  method BookLabel(config: Config, name: string, today: int, respond: BookingService, n: nat) returns (s: Schedule)
    ensures s == BookDay(config, name, today, respond, n)
  {
    var wd := WeekdayNumber(name);
    if wd.None? {
      return Schedule([], false);
    }
    var date := NextOccurrence(today, wd.value, LookaheadDays);
    if date.None? {
      return Schedule([], false);
    }
    var f := BookFirstAvailable(config.favoriteSeats, date.value, config.workspaceId, respond, n);
    s := Schedule(f.attempts, f.status == Aborted);
  }

  /** The target-day loop's invariant: the calls made so far, followed by what the remaining labels give, make up the whole loop. */
  predicate DayLoopInvariant(labels: seq<string>, work: DayWork, i: nat, attempts: seq<Attempt>)
    requires i <= |labels|
  {
    TargetDays(labels, work, 0) == Then(Schedule(attempts, false), TargetDays(labels[i..], work, |attempts|))
  }

  /** The bookkeeping of one turn, on schedules alone. */
  lemma ScheduleStep(total: Schedule, attempts: seq<Attempt>, s: Schedule, rest: Schedule)
    requires total == Then(Schedule(attempts, false), Then(s, rest))
    ensures if s.aborted then total == Schedule(attempts + s.attempts, true)
      else total == Then(Schedule(attempts + s.attempts, false), rest)
  {
    ThenAssociative(Schedule(attempts, false), s, rest);
  }

  /** One turn of the loop over the labels still to do, `tail`. */
  lemma DayTurn(total: Schedule, tail: seq<string>, work: DayWork, attempts: seq<Attempt>)
    requires tail != [] && total == Then(Schedule(attempts, false), TargetDays(tail, work, |attempts|))
    ensures var s := work(tail[0], |attempts|);
      if s.aborted then total == Schedule(attempts + s.attempts, true)
      else total == Then(Schedule(attempts + s.attempts, false), TargetDays(tail[1..], work, |attempts + s.attempts|))
  {
    var s := work(tail[0], |attempts|);
    TargetDaysCons(tail, work, |attempts|);
    ScheduleStep(total, attempts, s, TargetDays(tail[1..], work, |attempts| + |s.attempts|));
  }

  /** One turn of the loop: its calls are appended, and a turn that was cut short ends the loop. */
  lemma DayLoopStep(labels: seq<string>, work: DayWork, i: nat, attempts: seq<Attempt>)
    requires i < |labels| && DayLoopInvariant(labels, work, i, attempts)
    ensures var s := work(labels[i], |attempts|);
      if s.aborted then TargetDays(labels, work, 0) == Schedule(attempts + s.attempts, true)
      else DayLoopInvariant(labels, work, i + 1, attempts + s.attempts)
  {
    var tail := labels[i..];
    assert tail[0] == labels[i] && tail[1..] == labels[i + 1..];
    DayTurn(TargetDays(labels, work, 0), tail, work, attempts);
  }

  /** The target-day loop of main, with continue for a label without a date and the run aborted on a hard failure. */
  method BookAllTargetDays(config: Config, today: int, respond: BookingService) returns (s: Schedule)
    ensures s == BookTargetDays(config, today, respond)
  {
    var labels := config.targetDays;
    ghost var work := DayBooking(config, today, respond);
    var attempts: seq<Attempt> := [];
    var i := 0;
    ThenIdle(TargetDays(labels, work, 0));
    assert labels[0..] == labels;
    while i < |labels|
      invariant 0 <= i <= |labels|
      invariant DayLoopInvariant(labels, work, i, attempts)
    {
      var turn := BookLabel(config, labels[i], today, respond, |attempts|);
      assert turn == work(labels[i], |attempts|);
      DayLoopStep(labels, work, i, attempts);
      attempts := attempts + turn.attempts;
      if turn.aborted {
        return Schedule(attempts, true);
      }
      i := i + 1;
    }
    assert labels[i..] == [];
    assert attempts + [] == attempts;
    s := Schedule(attempts, false);
  }

  /** main: authenticate, run the target-day loop, fetch the bookings and check in today's. */
  method Run(
    config: Option<Config>, authOk: bool, today: int, respond: BookingService,
    fetched: Option<seq<Booking>>, checkIn: CheckInService) returns (r: RunResult)
    ensures r == RunOutcome(config, authOk, today, respond, fetched, checkIn)
  {
    if config.None? || !authOk {
      return RunResult([], false, [], 1);
    }
    var s := BookAllTargetDays(config.value, today, respond);
    if s.aborted {
      return RunResult(s.attempts, false, [], 1);
    }
    match fetched {
      case None =>
        return RunResult(s.attempts, true, [], 1);
      case Some(results) =>
        var log := CheckInToday(results, today, checkIn);
        return RunResult(s.attempts, true, log, 0);
    }
  }
}
