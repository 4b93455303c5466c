/**
 * The KPI calculators of the operations manager dashboard
 * (class OperationsDashboard in operation_manager.py): on-time performance,
 * trip completion and cancellation, mean time between failures, fleet
 * downtime, staff readiness and the operational-vehicle count, and the
 * method that stores all of them in the dashboard's `kpi_results` map.
 *
 * Clock times of trips are whole minutes, maintenance dates whole seconds,
 * durations of maintenance hours; every division is exact.
 */
module OperationManager {
  import opened Wrappers
  import opened Frames

  // ---------------------------------------------------------------------
  // Tables. Each row type holds the fields the calculators read; each
  // column type lists the columns the table is known to carry.
  // ---------------------------------------------------------------------

  /** A row of `trip_timings`: actual start and end and the scheduled time, in minutes. */
  datatype TripTiming = TripTiming(tripId: string, start: int, end: int, tripTime: int)
  datatype TimingColumn = TimingTripId | Start | End | TimingTripTime

  /** A row of `trip_durations`: the expected trip length in minutes. */
  datatype TripDuration = TripDuration(tripId: string, expectedDuration: int)
  datatype DurationColumn = DurationTripId | ExpectedDuration | RealDuration | DurationStatus | DurationTripTime

  /** A row of `bookings`. */
  datatype Booking = Booking(bookingStatus: string)
  datatype BookingColumn = BookingId | BookingStatus | CreatedAt | BookingTrip | RouteId

  /** A row of `vehicles`: `status` is true for an operational vehicle. */
  datatype Vehicle = Vehicle(status: bool)
  datatype VehicleColumn = VehicleId | RegistrationNumber | VehicleStatus | BrandName

  /** A row of `corrective_maintenances`: the date in seconds, the duration in hours. */
  datatype MaintenanceEvent = MaintenanceEvent(date: int, duration: real)
  datatype MaintenanceColumn = MaintenanceId | Date | MaintenanceVehicleId | Duration | MaintenanceName

  /** A row of `attendances`. */
  datatype Attendance = Attendance(presenceType: string)
  datatype AttendanceColumn = AttendanceId | UserId | AttendanceDate | PresenceType

  type BookingTable = Table<Booking, BookingColumn>
  type TimingTable = Table<TripTiming, TimingColumn>
  type DurationTable = Table<TripDuration, DurationColumn>
  type VehicleTable = Table<Vehicle, VehicleColumn>
  type MaintenanceTable = Table<MaintenanceEvent, MaintenanceColumn>
  type AttendanceTable = Table<Attendance, AttendanceColumn>

  /** The dashboard's `data` map, restricted to the tables the calculators read. */
  datatype Tables = Tables(
    bookings: BookingTable,
    tripTimings: TimingTable,
    tripDurations: DurationTable,
    vehicles: VehicleTable,
    correctiveMaintenances: MaintenanceTable,
    attendances: AttendanceTable)

  const DepartureGraceMinutes: int := 5
  const ArrivalGraceMinutes: int := 10
  const HoursPerDay: int := 24
  const BaselineDays: int := 30
  const SecondsPerHour: real := 3600.0

  // ---------------------------------------------------------------------
  // The left join of trip timings with trip durations on trip_id
  // ---------------------------------------------------------------------

  /**
   * A row of the merged frame. The duration side is absent (NaN) when no
   * duration row has the timing row's trip_id.
   */
  datatype MergedRow = MergedRow(timing: TripTiming, duration: Option<TripDuration>)

  /** The duration rows whose trip_id equals that of `t`, in table order. */
  function MatchingDurations(t: TripTiming, ds: seq<TripDuration>): (m: seq<TripDuration>)
    ensures |m| <= |ds|
    ensures forall d :: d in m <==> d in ds && d.tripId == t.tripId
    ensures m == [] <==> forall i | 0 <= i < |ds| :: ds[i].tripId != t.tripId
  {
    if ds == [] then []
    else (if ds[0].tripId == t.tripId then [ds[0]] else []) + MatchingDurations(t, ds[1..])
  }

  /** The merged rows one timing row produces: one per match, or one NaN-filled row. */
  function MergeOne(t: TripTiming, ds: seq<TripDuration>): (r: seq<MergedRow>)
    ensures |r| == if MatchingDurations(t, ds) == [] then 1 else |MatchingDurations(t, ds)|
    ensures forall i | 0 <= i < |r| :: r[i].timing == t && Consistent(r[i], ds)
    ensures forall i | 0 <= i < |MatchingDurations(t, ds)| :: r[i] == MergedRow(t, Some(MatchingDurations(t, ds)[i]))
  {
    var m := MatchingDurations(t, ds);
    if m == [] then [MergedRow(t, None)]
    else seq(|m|, i requires 0 <= i < |m| => MergedRow(t, Some(m[i])))
  }

  /**
   * A merged row keeps the join condition: a present duration row has the
   * same trip_id, and an absent one means no duration row has it.
   */
  predicate Consistent(row: MergedRow, ds: seq<TripDuration>) {
    match row.duration
    case Some(d) => d in ds && d.tripId == row.timing.tripId
    case None => forall d | d in ds :: d.tripId != row.timing.tripId
  }

  /**
   * `pd.merge(timings, durations, on='trip_id', how='left')`: every timing
   * row, in order, each followed through its matches in duration order.
   */
  function LeftJoin(ts: seq<TripTiming>, ds: seq<TripDuration>): (r: seq<MergedRow>)
    ensures |r| >= |ts|
    ensures forall i | 0 <= i < |r| :: r[i].timing in ts && Consistent(r[i], ds)
  {
    if ts == [] then []
    else MergeOne(ts[0], ds) + LeftJoin(ts[1..], ds)
  }

  /** Each duration row with the timing row's trip_id occurs among its matches as often as in the table, and no other row occurs. */
  lemma {:induction false} MatchingMultiplicity(t: TripTiming, ds: seq<TripDuration>, d: TripDuration)
    ensures multiset(MatchingDurations(t, ds))[d] == if d.tripId == t.tripId then multiset(ds)[d] else 0
  {
    if ds != [] {
      MatchingMultiplicity(t, ds[1..], d);
      assert ds == [ds[0]] + ds[1..];
    }
  }

  /** Every duration row sharing the timing row's trip_id gets its own merged row. */
  lemma MergeOneComplete(t: TripTiming, ds: seq<TripDuration>, d: TripDuration)
    requires d in ds && d.tripId == t.tripId
    ensures MergedRow(t, Some(d)) in MergeOne(t, ds)
  {
    var m := MatchingDurations(t, ds);
    assert d in m;
    var i :| 0 <= i < |m| && m[i] == d;
    assert MergeOne(t, ds)[i] == MergedRow(t, Some(d));
  }

  /** Every matching (timing, duration) pair appears in the left join. */
  lemma {:induction false} LeftJoinComplete(ts: seq<TripTiming>, ds: seq<TripDuration>, t: TripTiming, d: TripDuration)
    requires t in ts && d in ds && d.tripId == t.tripId
    ensures MergedRow(t, Some(d)) in LeftJoin(ts, ds)
  {
    assert LeftJoin(ts, ds) == MergeOne(ts[0], ds) + LeftJoin(ts[1..], ds);
    if ts[0] == t {
      MergeOneComplete(t, ds, d);
    } else {
      LeftJoinComplete(ts[1..], ds, t, d);
    }
  }

  /** Every timing row survives the left join, matched or not. */
  lemma {:induction false} LeftJoinKeepsTimings(ts: seq<TripTiming>, ds: seq<TripDuration>, k: nat) returns (i: nat)
    requires k < |ts|
    ensures i < |LeftJoin(ts, ds)| && LeftJoin(ts, ds)[i].timing == ts[k]
  {
    var head := MergeOne(ts[0], ds);
    var tail := LeftJoin(ts[1..], ds);
    assert LeftJoin(ts, ds) == head + tail;
    if k == 0 {
      i := 0;
    } else {
      var j := LeftJoinKeepsTimings(ts[1..], ds, k - 1);
      i := |head| + j;
      assert (head + tail)[i] == tail[j];
    }
  }

  /** No two duration rows share a trip_id. */
  predicate UniqueTripIds(ds: seq<TripDuration>) {
    forall i, j | 0 <= i < j < |ds| :: ds[i].tripId != ds[j].tripId
  }

  lemma {:induction false} AtMostOneMatch(t: TripTiming, ds: seq<TripDuration>)
    requires UniqueTripIds(ds)
    ensures |MatchingDurations(t, ds)| <= 1
  {
    if ds != [] {
      AtMostOneMatch(t, ds[1..]);
      if ds[0].tripId == t.tripId {
        forall j | 0 <= j < |ds[1..]|
          ensures ds[1..][j].tripId != t.tripId
        {
          assert ds[1..][j] == ds[j + 1];
        }
      }
    }
  }

  /** With unique duration trip_ids the left join has exactly one row per timing row. */
  lemma {:induction false} LeftJoinSizeUnique(ts: seq<TripTiming>, ds: seq<TripDuration>)
    requires UniqueTripIds(ds)
    ensures |LeftJoin(ts, ds)| == |ts|
  {
    if ts != [] {
      AtMostOneMatch(ts[0], ds);
      LeftJoinSizeUnique(ts[1..], ds);
    }
  }

  // ---------------------------------------------------------------------
  // On-time performance (operation_manager.py:165-190)
  // ---------------------------------------------------------------------

  /** `start <= trip_time_timing + 5 minutes`; the timing side is never NaN. */
  predicate DepartedOnTime(row: MergedRow) {
    row.timing.start <= row.timing.tripTime + DepartureGraceMinutes
  }

  /**
   * `end <= trip_time_timing + expected_duration minutes + 10 minutes`; a row
   * with no matching duration compares against NaT and is not on time.
   */
  predicate ArrivedOnTime(row: MergedRow) {
    match row.duration
    case None => false
    case Some(d) => row.timing.end <= row.timing.tripTime + d.expectedDuration + ArrivalGraceMinutes
  }

  /**
   * `trip_time_timing` is a column of the merged frame: pandas suffixes only
   * the non-key columns both tables carry.
   */
  predicate HasTripTimeTiming(timings: TimingTable, durations: DurationTable) {
    timings.Has(TimingTripTime) && durations.Has(DurationTripTime)
  }

  /** `calculate_otp`: the departure and arrival on-time percentages. */
  function CalculateOtp(timings: TimingTable, durations: DurationTable): (r: (real, real))
    ensures timings.Empty() || durations.Empty() ==> r == (0.0, 0.0)
    ensures !HasTripTimeTiming(timings, durations) ==> r == (0.0, 0.0)
    ensures !timings.Has(TimingTripId) || !durations.Has(DurationTripId) ==> r == (0.0, 0.0)
    ensures 0.0 <= r.0 <= 100.0 && 0.0 <= r.1 <= 100.0
  {
    if timings.Empty() || durations.Empty() then (0.0, 0.0)
    // merging on a key one frame lacks raises KeyError, caught by the handler
    else if !timings.Has(TimingTripId) || !durations.Has(DurationTripId) then (0.0, 0.0)
    else
      var merged := LeftJoin(timings.rows, durations.rows);
      var total := |merged| as real;
      var departureOtp :=
        if timings.Has(Start) && HasTripTimeTiming(timings, durations)
        then Percentage(Count(merged, DepartedOnTime) as real, total)
        else 0.0;
      if timings.Has(End) && durations.Has(ExpectedDuration) then
        // the arrival test reads trip_time_timing unchecked: KeyError, caught
        if !HasTripTimeTiming(timings, durations) then (0.0, 0.0)
        else (departureOtp, Percentage(Count(merged, ArrivedOnTime) as real, total))
      else (departureOtp, 0.0)
  }

  /** Both tables carry every column the two punctuality tests read. */
  predicate OtpColumnsPresent(timings: TimingTable, durations: DurationTable) {
    && timings.Has(TimingTripId) && timings.Has(Start) && timings.Has(End) && timings.Has(TimingTripTime)
    && durations.Has(DurationTripId) && durations.Has(ExpectedDuration) && durations.Has(DurationTripTime)
  }

  /**
   * With non-empty tables and all columns present, each rate is the
   * percentage of merged rows on time, and there are at least as many merged
   * rows as timing rows.
   */
  lemma OtpRates(timings: TimingTable, durations: DurationTable)
    requires !timings.Empty() && !durations.Empty()
    requires OtpColumnsPresent(timings, durations)
    ensures var merged := LeftJoin(timings.rows, durations.rows);
      && |merged| >= timings.Len() > 0
      && CalculateOtp(timings, durations).0 == Percentage(Count(merged, DepartedOnTime) as real, |merged| as real)
      && CalculateOtp(timings, durations).1 == Percentage(Count(merged, ArrivedOnTime) as real, |merged| as real)
  {
  }

  /**
   * Departure OTP needs only `start` and `trip_time_timing`: when both are
   * present it is the on-time percentage whatever the arrival columns are,
   * and without `start` it is 0.
   */
  lemma DepartureRate(timings: TimingTable, durations: DurationTable)
    requires !timings.Empty() && !durations.Empty()
    requires timings.Has(TimingTripId) && durations.Has(DurationTripId)
    requires HasTripTimeTiming(timings, durations)
    ensures var merged := LeftJoin(timings.rows, durations.rows);
      timings.Has(Start) ==>
        CalculateOtp(timings, durations).0 == Percentage(Count(merged, DepartedOnTime) as real, |merged| as real)
    ensures !timings.Has(Start) ==> CalculateOtp(timings, durations).0 == 0.0
  {
  }

  /**
   * Arrival OTP needs `end` and `expected_duration` (and reads
   * `trip_time_timing`): with them it is the on-time percentage whatever the
   * departure columns are, and without one of them it is 0.
   */
  lemma ArrivalRate(timings: TimingTable, durations: DurationTable)
    requires !timings.Empty() && !durations.Empty()
    requires timings.Has(TimingTripId) && durations.Has(DurationTripId)
    requires HasTripTimeTiming(timings, durations)
    ensures var merged := LeftJoin(timings.rows, durations.rows);
      timings.Has(End) && durations.Has(ExpectedDuration) ==>
        CalculateOtp(timings, durations).1 == Percentage(Count(merged, ArrivedOnTime) as real, |merged| as real)
    ensures !timings.Has(End) || !durations.Has(ExpectedDuration) ==> CalculateOtp(timings, durations).1 == 0.0
  {
  }

  /** The number of timing rows no duration row matches. */
  function UnmatchedCount(ts: seq<TripTiming>, ds: seq<TripDuration>): (n: nat)
    ensures n <= |ts|
  {
    if ts == [] then 0
    else (if MatchingDurations(ts[0], ds) == [] then 1 else 0) + UnmatchedCount(ts[1..], ds)
  }

  /**
   * Unmatched timing rows stay in the denominator but never arrive on time:
   * at most |merged| - unmatched rows can.
   */
  lemma {:induction false} UnmatchedNeverArrive(ts: seq<TripTiming>, ds: seq<TripDuration>)
    ensures Count(LeftJoin(ts, ds), ArrivedOnTime) + UnmatchedCount(ts, ds) <= |LeftJoin(ts, ds)|
  {
    if ts != [] {
      var head := MergeOne(ts[0], ds);
      CountAppend(head, LeftJoin(ts[1..], ds), ArrivedOnTime);
      UnmatchedNeverArrive(ts[1..], ds);
      if MatchingDurations(ts[0], ds) == [] {
        assert head == [MergedRow(ts[0], None)];
        assert Count(head, ArrivedOnTime) == 0;
      }
    }
  }

  /** With no duration row matching any trip, arrival OTP is 0 whatever departure OTP is. */
  lemma NoMatchesNoArrivals(timings: TimingTable, durations: DurationTable)
    requires forall t, d | t in timings.rows && d in durations.rows :: t.tripId != d.tripId
    ensures CalculateOtp(timings, durations).1 == 0.0
  {
    var merged := LeftJoin(timings.rows, durations.rows);
    forall i | 0 <= i < |merged|
      ensures !ArrivedOnTime(merged[i])
    {
      assert merged[i].timing in timings.rows;
    }
  }

  /** A one-trip timings table scheduled at 08:00 with the given actual start. */
  function OneTrip(start: int): TimingTable {
    Table([TripTiming("TRIP001", start, 12 * 60, 8 * 60)], {TimingTripId, Start, End, TimingTripTime})
  }

  /** The duration table for that trip: four hours expected. */
  function OneDuration(): DurationTable {
    Table([TripDuration("TRIP001", 240)], {DurationTripId, ExpectedDuration, DurationTripTime})
  }

  /** Leaving at 08:04 for an 08:00 trip is on time; at 08:06 it is not. */
  lemma DepartureGraceExample()
    ensures CalculateOtp(OneTrip(8 * 60 + 4), OneDuration()).0 == 100.0
    ensures CalculateOtp(OneTrip(8 * 60 + 6), OneDuration()).0 == 0.0
  {
    var ds := OneDuration().rows;
    assert MatchingDurations(OneTrip(8 * 60 + 4).rows[0], ds) == ds;
    assert LeftJoin(OneTrip(8 * 60 + 4).rows, ds) == [MergedRow(OneTrip(8 * 60 + 4).rows[0], Some(ds[0]))];
    assert MatchingDurations(OneTrip(8 * 60 + 6).rows[0], ds) == ds;
    assert LeftJoin(OneTrip(8 * 60 + 6).rows, ds) == [MergedRow(OneTrip(8 * 60 + 6).rows[0], Some(ds[0]))];
  }

  // ---------------------------------------------------------------------
  // Trip completion and cancellation (operation_manager.py:192-214)
  // ---------------------------------------------------------------------

  predicate IsCompleted(b: Booking) { b.bookingStatus == "completed" }
  predicate IsCancelled(b: Booking) { b.bookingStatus == "cancelled" }
  predicate IsOtherStatus(b: Booking) { !IsCompleted(b) && !IsCancelled(b) }

  /** `calculate_trip_completion`: the completion and cancellation percentages. */
  function CalculateTripCompletion(bookings: BookingTable): (r: (real, real))
    ensures bookings.Empty() || !bookings.Has(BookingStatus) ==> r == (0.0, 0.0)
    ensures 0.0 <= r.0 && 0.0 <= r.1 && r.0 + r.1 <= 100.0
  {
    if bookings.Empty() then (0.0, 0.0)
    else
      var totalTrips := bookings.Len();
      var completed := if bookings.Has(BookingStatus) then Count(bookings.rows, IsCompleted) else 0;
      var cancelled := if bookings.Has(BookingStatus) then Count(bookings.rows, IsCancelled) else 0;
      CountDisjoint(bookings.rows, IsCompleted, IsCancelled);
      PercentageAdd(completed as real, cancelled as real, totalTrips as real);
      (Percentage(completed as real, totalTrips as real), Percentage(cancelled as real, totalTrips as real))
  }

  /** With a status column, each rate is the percentage of bookings with that status. */
  lemma CompletionRates(bookings: BookingTable)
    requires !bookings.Empty() && bookings.Has(BookingStatus)
    ensures var (c, x) := CalculateTripCompletion(bookings);
      && c == Percentage(Count(bookings.rows, IsCompleted) as real, bookings.Len() as real)
      && x == Percentage(Count(bookings.rows, IsCancelled) as real, bookings.Len() as real)
  {
  }

  /** Every booking is completed, cancelled or something else, exactly one of the three. */
  lemma {:induction false} StatusesPartition(s: seq<Booking>)
    ensures Count(s, IsCompleted) + Count(s, IsCancelled) + Count(s, IsOtherStatus) == |s|
  {
    if s != [] {
      StatusesPartition(s[1..]);
    }
  }

  // ---------------------------------------------------------------------
  // The trip breakdown pie (operation_manager.py:377-381)
  // ---------------------------------------------------------------------

  /** The Completed, Cancelled and Other slice values of the trip breakdown chart. */
  function TripBreakdown(completionRate: real, cancellationRate: real): (values: seq<real>)
    ensures |values| == 3 && values[0] == completionRate && values[1] == cancellationRate
    ensures values[2] >= 0.0
    ensures completionRate + cancellationRate <= 100.0 ==> values[0] + values[1] + values[2] == 100.0
    ensures completionRate + cancellationRate >= 100.0 ==> values[2] == 0.0
  {
    var rest := 100.0 - completionRate - cancellationRate;
    [completionRate, cancellationRate, if rest >= 0.0 then rest else 0.0]
  }

  /**
   * On what `calculate_trip_completion` returns the slices always add up to
   * 100, and with a status column the Other slice is the percentage of
   * bookings neither completed nor cancelled.
   */
  lemma BreakdownOfBookings(bookings: BookingTable)
    ensures var (c, x) := CalculateTripCompletion(bookings);
      var v := TripBreakdown(c, x);
      v[0] + v[1] + v[2] == 100.0
    ensures !bookings.Empty() && bookings.Has(BookingStatus) ==>
      var (c, x) := CalculateTripCompletion(bookings);
      TripBreakdown(c, x)[2] == Percentage(Count(bookings.rows, IsOtherStatus) as real, bookings.Len() as real)
  {
    var (c, x) := CalculateTripCompletion(bookings);
    if !bookings.Empty() && bookings.Has(BookingStatus) {
      var s := bookings.rows;
      var completed, cancelled, other := Count(s, IsCompleted), Count(s, IsCancelled), Count(s, IsOtherStatus);
      StatusesPartition(s);
      PercentageRemainder(completed as real, cancelled as real, other as real, |s| as real);
    }
  }

  // ---------------------------------------------------------------------
  // Mean time between failures (operation_manager.py:216-239)
  // ---------------------------------------------------------------------

  function Dates(events: seq<MaintenanceEvent>): (r: seq<int>)
    ensures |r| == |events|
  {
    if events == [] then [] else [events[0].date] + Dates(events[1..])
  }

  /** `.dt.total_seconds() / 3600`. */
  function SecondsToHours(gaps: seq<int>): (r: seq<real>)
    ensures |r| == |gaps|
  {
    if gaps == [] then [] else [gaps[0] as real / SecondsPerHour] + SecondsToHours(gaps[1..])
  }

  lemma {:induction false} SumSecondsToHours(gaps: seq<int>)
    ensures Sum(SecondsToHours(gaps)) == SumInts(gaps) as real / SecondsPerHour
  {
    if gaps != [] {
      SumSecondsToHours(gaps[1..]);
    }
  }

  /** `Series.mean()`, which skips the NaN that `diff` leaves first. */
  function Mean(s: seq<real>): (r: real)
    requires |s| > 0
    ensures Sum(s) >= 0.0 ==> r >= 0.0
  {
    Sum(s) / |s| as real
  }

  /** `calculate_mtbf`: the mean gap, in hours, between date-sorted maintenance events. */
  function CalculateMtbf(maint: MaintenanceTable): (r: real)
    ensures maint.Empty() || maint.Len() < 2 || !maint.Has(Date) ==> r == 0.0
    ensures r >= 0.0
  {
    if maint.Empty() then 0.0
    else if maint.Len() < 2 then 0.0
    else if !maint.Has(Date) then 0.0
    else
      var sorted := SortAscending(Dates(maint.rows));
      var timeDiffs := SecondsToHours(Gaps(sorted));
      // `len(time_diffs)` counts the leading NaN as well
      if |timeDiffs| + 1 > 1 then
        GapsOfAscending(sorted);
        SumNonNegativeHours(Gaps(sorted));
        Mean(timeDiffs)
      else 0.0
  }

  lemma {:induction false} SumNonNegativeHours(gaps: seq<int>)
    requires forall i | 0 <= i < |gaps| :: gaps[i] >= 0
    ensures Sum(SecondsToHours(gaps)) >= 0.0
  {
    if gaps != [] {
      SumNonNegativeHours(gaps[1..]);
    }
  }

  /** `span` seconds, in hours, spread over the `n - 1` gaps between `n` events. */
  function HoursPerGap(span: int, n: int): real
    requires n >= 2
  {
    span as real / (SecondsPerHour * (n - 1) as real)
  }

  /** Seconds from the earliest to the latest maintenance date. */
  function DateSpan(maint: MaintenanceTable): (span: int)
    requires maint.Len() > 0
    ensures span >= 0
  {
    Max(Dates(maint.rows)) - Min(Dates(maint.rows))
  }

  /**
   * The mean of consecutive gaps telescopes: MTBF is the span from the
   * earliest to the latest event, in hours, over the number of gaps.
   */
  lemma MtbfClosedForm(maint: MaintenanceTable)
    requires !maint.Empty() && maint.Len() >= 2 && maint.Has(Date)
    ensures CalculateMtbf(maint) == HoursPerGap(DateSpan(maint), maint.Len())
  {
    var sorted := SortAscending(Dates(maint.rows));
    GapsTelescope(sorted);
    SortedEnds(Dates(maint.rows));
    SumSecondsToHours(Gaps(sorted));
    MeanOfSpan(Sum(SecondsToHours(Gaps(sorted))), DateSpan(maint), maint.Len(), CalculateMtbf(maint));
  }

  /** The arithmetic of the closed form, kept apart from the sorting facts. */
  lemma MeanOfSpan(sumHours: real, span: int, n: int, mean: real)
    requires n >= 2
    requires sumHours == span as real / SecondsPerHour
    requires mean == sumHours / (n - 1) as real
    ensures mean == HoursPerGap(span, n)
  {
  }

  /** Failures at hours 30, 0 and 10, listed out of order. */
  function ThreeFailures(): MaintenanceTable {
    Table([MaintenanceEvent(30 * 3600, 2.0), MaintenanceEvent(0, 5.0), MaintenanceEvent(10 * 3600, 3.0)],
          {MaintenanceId, Date, Duration})
  }

  /** Their gaps after sorting are 10 and 20 hours: MTBF is 15 hours. */
  lemma MtbfExample()
    ensures CalculateMtbf(ThreeFailures()) == 15.0
  {
    MtbfClosedForm(ThreeFailures());
    ThreeFailuresSpan();
    assert HoursPerGap(30 * 3600, 3) == 15.0;
  }

  /** The three failures span 30 hours. */
  lemma ThreeFailuresSpan()
    ensures DateSpan(ThreeFailures()) == 30 * 3600
  {
    var dates := Dates(ThreeFailures().rows);
    assert dates == [30 * 3600, 0, 10 * 3600];
    assert Max(dates) == 30 * 3600 && Min(dates) == 0;
  }

  // ---------------------------------------------------------------------
  // Fleet downtime (operation_manager.py:241-265)
  // ---------------------------------------------------------------------

  function Durations(events: seq<MaintenanceEvent>): (r: seq<real>)
    ensures |r| == |events|
    ensures forall i | 0 <= i < |r| :: r[i] == events[i].duration
  {
    if events == [] then [] else [events[0].duration] + Durations(events[1..])
  }

  /** `calculate_fleet_downtime`: maintenance hours over a 30-day, 24-hour baseline per vehicle, in percent. */
  function CalculateFleetDowntime(vehicles: VehicleTable, maint: MaintenanceTable): (r: real)
    ensures vehicles.Empty() || maint.Empty() || !maint.Has(Duration) ==> r == 0.0
  {
    if vehicles.Empty() || maint.Empty() then 0.0
    else
      var totalFleetHours := vehicles.Len() * HoursPerDay * BaselineDays;
      var downtimeHours := if maint.Has(Duration) then Sum(Durations(maint.rows)) else 0.0;
      Percentage(downtimeHours, totalFleetHours as real)
  }

  /** Downtime is the summed maintenance duration as a percentage of the fleet's baseline hours. */
  lemma DowntimeRate(vehicles: VehicleTable, maint: MaintenanceTable)
    requires !vehicles.Empty() && !maint.Empty() && maint.Has(Duration)
    ensures CalculateFleetDowntime(vehicles, maint)
            == Percentage(Sum(Durations(maint.rows)), (vehicles.Len() * HoursPerDay * BaselineDays) as real)
  {
  }

  /** Downtime is non-negative when no maintenance has a negative duration; it is not capped at 100. */
  lemma DowntimeNonNegative(vehicles: VehicleTable, maint: MaintenanceTable)
    requires forall i | 0 <= i < maint.Len() :: maint.rows[i].duration >= 0.0
    ensures CalculateFleetDowntime(vehicles, maint) >= 0.0
  {
    SumNonNegative(Durations(maint.rows));
  }

  /** Ten vehicles with 720 maintenance hours in all: 10 percent. */
  lemma DowntimeExample()
    ensures CalculateFleetDowntime(
      Table(seq(10, _ => Vehicle(true)), {VehicleId, VehicleStatus}),
      Table([MaintenanceEvent(0, 700.0), MaintenanceEvent(3600, 20.0)], {MaintenanceId, Date, Duration})) == 10.0
  {
    var ms := [MaintenanceEvent(0, 700.0), MaintenanceEvent(3600, 20.0)];
    assert Durations(ms) == [700.0, 20.0];
    assert Sum([20.0]) == 20.0;
    assert Sum([700.0, 20.0]) == 720.0;
  }

  /** One vehicle with 1440 maintenance hours: 200 percent, not clamped. */
  lemma DowntimeNotClamped()
    ensures CalculateFleetDowntime(
      Table([Vehicle(true)], {VehicleId}),
      Table([MaintenanceEvent(0, 1440.0)], {Duration})) == 200.0
  {
    assert Durations([MaintenanceEvent(0, 1440.0)]) == [1440.0];
    assert Sum([1440.0]) == 1440.0;
  }

  // ---------------------------------------------------------------------
  // Staff readiness (operation_manager.py:267-286)
  // ---------------------------------------------------------------------

  predicate IsPresent(a: Attendance) { a.presenceType == "present" }

  /** `calculate_staff_readiness`: the percentage of attendance records marked present. */
  function CalculateStaffReadiness(attendances: AttendanceTable): (r: real)
    ensures attendances.Empty() || !attendances.Has(PresenceType) ==> r == 0.0
    ensures 0.0 <= r <= 100.0
  {
    if attendances.Empty() then 0.0
    else
      var presentCount := if attendances.Has(PresenceType) then Count(attendances.rows, IsPresent) else 0;
      var totalCount := attendances.Len();
      Percentage(presentCount as real, totalCount as real)
  }

  /**
   * With a presence column, readiness is the percentage of present records,
   * and it is 100 exactly when every record is marked present.
   */
  lemma ReadinessRate(attendances: AttendanceTable)
    requires !attendances.Empty() && attendances.Has(PresenceType)
    ensures var r := CalculateStaffReadiness(attendances);
      && r == Percentage(Count(attendances.rows, IsPresent) as real, attendances.Len() as real)
      && (r == 100.0 <==> forall i | 0 <= i < attendances.Len() :: IsPresent(attendances.rows[i]))
  {
    var n := attendances.Len();
    var k := Count(attendances.rows, IsPresent);
    PercentageFull(k as real, n as real);
  }

  // ---------------------------------------------------------------------
  // Operational vehicles (operation_manager.py:288-300)
  // ---------------------------------------------------------------------

  predicate IsOperational(v: Vehicle) { v.status }

  /** `calculate_operational_vehicles`: the number of true `status` values, or every vehicle without that column. */
  function CalculateOperationalVehicles(vehicles: VehicleTable): (r: nat)
    ensures vehicles.Empty() ==> r == 0
    ensures r <= vehicles.Len()
    ensures !vehicles.Empty() && !vehicles.Has(VehicleStatus) ==> r == vehicles.Len()
    ensures !vehicles.Empty() && vehicles.Has(VehicleStatus) ==> r == Count(vehicles.rows, IsOperational)
    ensures !vehicles.Empty() && vehicles.Has(VehicleStatus) ==>
      (r == vehicles.Len() <==> forall i | 0 <= i < vehicles.Len() :: IsOperational(vehicles.rows[i]))
  {
    if vehicles.Empty() then 0
    else if vehicles.Has(VehicleStatus) then Count(vehicles.rows, IsOperational)
    else vehicles.Len()
  }

  /** `len(vehicles) if not vehicles.empty else 0`. */
  function TotalVehicles(vehicles: VehicleTable): (r: nat)
    ensures !vehicles.Empty() ==> r == vehicles.Len()
    ensures r <= vehicles.Len()
    ensures r == 0 <==> vehicles.Empty()
  {
    if vehicles.Empty() then 0 else vehicles.Len()
  }

  // ---------------------------------------------------------------------
  // All KPIs (operation_manager.py:132-161)
  // ---------------------------------------------------------------------

  /** The keys of `kpi_results`, one per KPI name. */
  datatype KpiName =
    | DepartureOtp         // "departure_otp"
    | ArrivalOtp           // "arrival_otp"
    | CompletionRate       // "completion_rate"
    | CancellationRate     // "cancellation_rate"
    | Mtbf                 // "mtbf"
    | DowntimePct          // "downtime_pct"
    | StaffReadiness       // "staff_readiness"
    | OperationalVehicles  // "operational_vehicles"
    | TotalVehiclesCount   // "total_vehicles"

  const KpiNames: set<KpiName> := {
    DepartureOtp, ArrivalOtp, CompletionRate, CancellationRate, Mtbf,
    DowntimePct, StaffReadiness, OperationalVehicles, TotalVehiclesCount}

  /** The nine entries `calculate_kpis` writes into `kpi_results`. */
  function KpiReport(d: Tables): (r: map<KpiName, real>)
    ensures r.Keys == KpiNames
  {
    var otp := CalculateOtp(d.tripTimings, d.tripDurations);
    var completion := CalculateTripCompletion(d.bookings);
    var mtbf := CalculateMtbf(d.correctiveMaintenances);
    var downtime := CalculateFleetDowntime(d.vehicles, d.correctiveMaintenances);
    var readiness := CalculateStaffReadiness(d.attendances);
    var operational := CalculateOperationalVehicles(d.vehicles);
    var total := TotalVehicles(d.vehicles);
    map[
      DepartureOtp := otp.0,
      ArrivalOtp := otp.1,
      CompletionRate := completion.0,
      CancellationRate := completion.1,
      Mtbf := mtbf,
      DowntimePct := downtime,
      StaffReadiness := readiness,
      OperationalVehicles := operational as real,
      TotalVehiclesCount := total as real]
  }

  /** Every KPI of the report lies in its range. */
  lemma KpiReportBounds(d: Tables)
    ensures var r := KpiReport(d);
      && 0.0 <= r[DepartureOtp] <= 100.0 && 0.0 <= r[ArrivalOtp] <= 100.0
      && 0.0 <= r[CompletionRate] && 0.0 <= r[CancellationRate]
      && r[CompletionRate] + r[CancellationRate] <= 100.0
      && r[Mtbf] >= 0.0
      && 0.0 <= r[StaffReadiness] <= 100.0
      && 0.0 <= r[OperationalVehicles] <= r[TotalVehiclesCount]
  {
  }

  /** The trip breakdown drawn from the report's completion and cancellation rates adds up to 100. */
  lemma KpiReportBreakdown(d: Tables)
    ensures var r := KpiReport(d);
      var v := TripBreakdown(r[CompletionRate], r[CancellationRate]);
      v[0] + v[1] + v[2] == 100.0
  {
    BreakdownOfBookings(d.bookings);
  }

  /** The report is the map of the nine calculators' results. */
  lemma KpiReportEntries(d: Tables, otp: (real, real), completion: (real, real), mtbf: real,
                         downtime: real, readiness: real, operational: nat, total: nat)
    requires otp == CalculateOtp(d.tripTimings, d.tripDurations)
    requires completion == CalculateTripCompletion(d.bookings)
    requires mtbf == CalculateMtbf(d.correctiveMaintenances)
    requires downtime == CalculateFleetDowntime(d.vehicles, d.correctiveMaintenances)
    requires readiness == CalculateStaffReadiness(d.attendances)
    requires operational == CalculateOperationalVehicles(d.vehicles)
    requires total == TotalVehicles(d.vehicles)
    ensures KpiReport(d) == map[
      DepartureOtp := otp.0, ArrivalOtp := otp.1,
      CompletionRate := completion.0, CancellationRate := completion.1,
      Mtbf := mtbf, DowntimePct := downtime, StaffReadiness := readiness,
      OperationalVehicles := operational as real, TotalVehiclesCount := total as real]
  {
  }

  /** Nine successive writes are the same as merging the nine entries in at once. */
  lemma MapUpdates(m: map<KpiName, real>, a: real, b: real, c: real, d: real, e: real,
                   f: real, g: real, h: real, i: real)
    ensures m[DepartureOtp := a][ArrivalOtp := b][CompletionRate := c][CancellationRate := d]
             [Mtbf := e][DowntimePct := f][StaffReadiness := g][OperationalVehicles := h]
             [TotalVehiclesCount := i]
         == m + map[DepartureOtp := a, ArrivalOtp := b, CompletionRate := c, CancellationRate := d,
                    Mtbf := e, DowntimePct := f, StaffReadiness := g, OperationalVehicles := h,
                    TotalVehiclesCount := i]
  {
  }

  /** The operations dashboard: its loaded tables and the KPIs computed from them. */
  class OperationsDashboard {
    var data: Tables
    var kpiResults: map<KpiName, real>

    /** A dashboard over tables already generated or loaded, with no KPI computed yet. */
    constructor (data: Tables)
      ensures this.data == data && kpiResults == map[]
    {
      this.data := data;
      kpiResults := map[];
    }

    /** `calculate_kpis`: writes the nine KPI entries, one after another, leaving other entries alone. */
    method CalculateKpis()
      modifies this`kpiResults
      ensures kpiResults == old(kpiResults) + KpiReport(data)
      ensures kpiResults.Keys == old(kpiResults).Keys + KpiNames
      ensures kpiResults[OperationalVehicles] <= kpiResults[TotalVehiclesCount]
      ensures var v := TripBreakdownValues(); v[0] + v[1] + v[2] == 100.0
    {
      ghost var before := kpiResults;
      var otp := CalculateOtp(data.tripTimings, data.tripDurations);
      kpiResults := kpiResults[DepartureOtp := otp.0];
      kpiResults := kpiResults[ArrivalOtp := otp.1];

      var completion := CalculateTripCompletion(data.bookings);
      kpiResults := kpiResults[CompletionRate := completion.0];
      kpiResults := kpiResults[CancellationRate := completion.1];

      var mtbf := CalculateMtbf(data.correctiveMaintenances);
      kpiResults := kpiResults[Mtbf := mtbf];

      var downtimePct := CalculateFleetDowntime(data.vehicles, data.correctiveMaintenances);
      kpiResults := kpiResults[DowntimePct := downtimePct];

      var staffReadiness := CalculateStaffReadiness(data.attendances);
      kpiResults := kpiResults[StaffReadiness := staffReadiness];

      var operationalVehicles := CalculateOperationalVehicles(data.vehicles);
      kpiResults := kpiResults[OperationalVehicles := operationalVehicles as real];
      var totalVehicles := TotalVehicles(data.vehicles);
      kpiResults := kpiResults[TotalVehiclesCount := totalVehicles as real];

      KpiReportEntries(data, otp, completion, mtbf, downtimePct, staffReadiness,
                       operationalVehicles, totalVehicles);
      MapUpdates(before, otp.0, otp.1, completion.0, completion.1, mtbf, downtimePct,
                 staffReadiness, operationalVehicles as real, totalVehicles as real);
      KpiReportBounds(data);
      KpiReportBreakdown(data);
    }

    /** The three values of the trip breakdown pie, read from `kpi_results`. */
    function TripBreakdownValues(): (values: seq<real>)
      reads this
      requires CompletionRate in kpiResults && CancellationRate in kpiResults
      ensures |values| == 3 && values[2] >= 0.0
      ensures values[0] == kpiResults[CompletionRate] && values[1] == kpiResults[CancellationRate]
    {
      TripBreakdown(kpiResults[CompletionRate], kpiResults[CancellationRate])
    }
  }
}
