# Transport KPI dashboards, modelled in Dafny

This project models the two KPI engines of a transport-operations dashboard and proves properties of them.

- **The operations manager** (`OperationsDashboard`, operation_manager.py).
  - The object holds a `data` map of loaded tables and a `kpi_results` map.
  - `calculate_kpis` fills `kpi_results` from six calculators:
    - on-time departure and arrival, over a left join of trip timings with trip durations;
    - trip completion and cancellation rates;
    - mean time between failures (MTBF) of corrective maintenance;
    - fleet downtime against a 24 h × 30 day baseline per vehicle;
    - staff readiness;
    - the operational-vehicle count.
  - The trip-breakdown pie shows three slices taken from `kpi_results`.
  - Files: `operation_manager.dfy` (module `OperationManager`). It uses the pandas-side helpers in `frames.dfy` (module `Frames`):
    - a table with its set of columns;
    - row counts under a filter;
    - the guarded percentage `part / whole * 100 if whole > 0 else 0`;
    - sorting one integer column;
    - `diff`, minimum and maximum.
- **The director dashboard** (`DirectorDashboard`, director_dashboard_app/director_dashboard_app.py).
  - Seven getters, each one SQL aggregate over `bookings` or `fleet`: gross revenue, net profit, commission costs, fleet utilisation, revenue per vehicle (ROFA = return on fleet assets), revenue per seat-kilometre (RASK = revenue per available seat-kilometre) and customer retention.
  - Files: `director_dashboard_app.dfy` (module `DirectorDashboardApp`). It uses `sql.dfy` (module `Sql`), which holds SQL's NULL rules:
    - `SUM` skips NULL and is NULL when no value is present;
    - `COALESCE`, `NULLIF` and nullable subtraction and division;
    - `COUNT(DISTINCT ...)` ignores NULL;
    - counting the rows of one `GROUP BY` group.
  - `wrappers.dfy` gives the `Option` type. `None` stands for SQL NULL and for an unmatched join row's missing side.

Modelling choices:
- The `data` map is a record with one table per name. The calculators read each table outside their error handlers, and a record makes "every table is present" hold by construction.
- A table is its rows plus the set of columns it carries. pandas' `.empty` means no rows or no columns.
- Each table's columns come from a fixed enumeration per table. So `'x' in df.columns` is a set-membership test.
- Clock times of trips are whole minutes. Maintenance dates are whole seconds.
- All other quantities are exact `real`s, and every division in the model is exact.
- In `calculate_otp`, the column `trip_time_timing` exists only when both tables carry `trip_time`, because pandas suffixes only overlapping column names.
- The arrival test reads `trip_time_timing` without checking for it. When the column is missing, the KeyError is caught and the whole result is (0, 0). So OTP is (0, 0) for any pair of tables that do not both carry `trip_time`.
- A timing row without a matching duration row stays in the join and in the denominator.
  - It departs on time or not like any other row, because the departure test reads only the timing side.
  - It never arrives on time, because a comparison with NaT is false.
- The director's queries are modelled with real division. PostgreSQL would truncate if `amount` were an integer column.
- `SUM(amount - commission)` drops a booking whose commission is NULL. So net profit equals gross revenue minus commission costs only when every booking records both fields. Both that equality and a counterexample are proved.

## Model

| member | source | states |
|---|---|---|
| Frames.Count | operation_manager.py:202-203 | the number of rows a filter keeps is at most the row count; it is 0 iff no row passes and the row count iff every row passes |
| Frames.CountAppend | operation_manager.py:176-177 | counting over two blocks of rows is the sum of the two counts |
| Frames.CountDisjoint | operation_manager.py:202-203 | two filters that never both hold keep at most the row count between them |
| Frames.Table.Empty | operation_manager.py:167 | `DataFrame.empty`: a table is empty when it has no rows or no columns; every calculator returns its zero result on it |
| Frames.Percentage | operation_manager.py:208-209 | `part / whole * 100`, guarded to 0 when whole is not positive, is 0 for a non-positive whole, non-negative for a non-negative part, and in [0, 100] when 0 ≤ part ≤ whole |
| Frames.PercentageOfWhole | operation_manager.py:208-209 | the percentage times the whole is 100 times the part |
| Frames.PercentageFull | operation_manager.py:283 | the percentage is 100 iff the part is the whole |
| Frames.PercentageAdd | operation_manager.py:208-209 | percentages of one whole add up |
| Frames.PercentageRemainder | operation_manager.py:380 | when three parts make up the whole, 100 minus two of the percentages is the third |
| Frames.SumNonNegative | operation_manager.py:255 | a column sum of non-negative values is non-negative |
| Frames.Sum | operation_manager.py:255 | `Series.sum()` of a numeric column, 0 for no values; its properties are `SumNonNegative`, `SumSecondsToHours`, `Sql.SumOfNonNull`, `Sql.SumNullAsZero` and `Sql.SumAppend` |
| Frames.SumInts | director_dashboard_app/director_dashboard_app.py:51 | the sum of an integer column, as `SUM(CASE WHEN status='active' THEN 1 ELSE 0 END)` adds the flags; its properties are `ActiveIsCount` and `GapsTelescope` (the summed date gaps behind MTBF) |
| Frames.Insert | operation_manager.py:231 | inserting into an ascending column keeps it ascending and adds exactly the one value |
| Frames.SortAscending | operation_manager.py:231 | `sort_values` on one column yields an ascending permutation of the column |
| Frames.Gaps | operation_manager.py:233 | `diff` without its leading NaN has one value fewer than the column |
| Frames.GapsTelescope | operation_manager.py:233-236 | the consecutive gaps add up to last minus first |
| Frames.GapsOfAscending | operation_manager.py:231-233 | the gaps of a sorted column are non-negative |
| Frames.Min | operation_manager.py:231 | the minimum is an element of the column and at most every element |
| Frames.Max | operation_manager.py:231 | the maximum is an element of the column and at least every element |
| Frames.SortedEnds | operation_manager.py:231 | after sorting, the first date is the minimum and the last the maximum |
| OperationManager.MatchingDurations | operation_manager.py:172 | the duration rows joined to a timing row are exactly those with its trip_id; there are none iff no duration row has that trip_id |
| OperationManager.MergeOne | operation_manager.py:172 | a timing row yields one merged row per match, the i-th carrying the i-th matching duration row in table order, or one row with the duration side missing; every merged row carries the timing row and keeps the join condition |
| OperationManager.LeftJoin | operation_manager.py:172 | the left join has at least as many rows as the timings table; each row comes from a timing row and keeps the join condition |
| OperationManager.MatchingMultiplicity | operation_manager.py:172 | each duration row with the timing row's trip_id occurs among its matches exactly as often as in the durations table, and a row with another trip_id never occurs |
| OperationManager.MergeOneComplete | operation_manager.py:172 | every duration row sharing the timing row's trip_id gets its own merged row |
| OperationManager.LeftJoinComplete | operation_manager.py:172 | every pair of a timing row and a duration row with the same trip_id appears in the left join |
| OperationManager.LeftJoinKeepsTimings | operation_manager.py:172 | every timing row appears in the left join, matched or not |
| OperationManager.AtMostOneMatch | operation_manager.py:172 | with unique duration trip_ids a timing row matches at most once |
| OperationManager.LeftJoinSizeUnique | operation_manager.py:172 | with unique duration trip_ids the join has exactly one row per timing row |
| OperationManager.DepartedOnTime | operation_manager.py:176 | a merged row departs on time when `start` is at most `trip_time_timing` plus the 5-minute grace; it reads only the timing side, so an unmatched row is judged like any other |
| OperationManager.ArrivedOnTime | operation_manager.py:182 | a merged row arrives on time when `end` is at most `trip_time_timing` plus `expected_duration` plus the 10-minute grace; an unmatched row compares against NaT and is never on time |
| OperationManager.HasTripTimeTiming | operation_manager.py:175 | `trip_time_timing` is a column of the merge exactly when both tables carry `trip_time`, since pandas suffixes only overlapping columns |
| OperationManager.CalculateOtp | operation_manager.py:165-190 | (0, 0) when either table is empty, when a table lacks trip_id, and whenever `trip_time` is not a column of both tables (departure skipped, arrival's KeyError caught); otherwise both rates lie in [0, 100] |
| OperationManager.OtpRates | operation_manager.py:172-183 | with all columns present, each rate is the percentage of left-join rows that depart (start ≤ trip_time + 5) or arrive (end ≤ trip_time + expected_duration + 10) on time over the join size, which is at least the number of timing rows |
| OperationManager.DepartureRate | operation_manager.py:175-179 | with both trip_ids and `trip_time` on both sides, departure OTP is the on-time percentage over the join whenever `start` is present, whatever the arrival columns, and 0 without `start` |
| OperationManager.ArrivalRate | operation_manager.py:181-185 | with both trip_ids and `trip_time` on both sides, arrival OTP is the on-time percentage over the join when `end` and `expected_duration` are present, whatever the departure columns, and 0 when either is missing |
| OperationManager.UnmatchedCount | operation_manager.py:172 | the number of unmatched timing rows is at most the number of timing rows |
| OperationManager.UnmatchedNeverArrive | operation_manager.py:172-183 | unmatched timing rows stay in the join but never arrive on time: on-time arrivals plus unmatched rows are at most the join size |
| OperationManager.NoMatchesNoArrivals | operation_manager.py:172-183 | when no duration row shares a trip_id with any timing row, arrival OTP is 0 |
| OperationManager.DepartureGraceExample | operation_manager.py:176 | the 5-minute grace: leaving at 08:04 for an 08:00 trip gives departure OTP 100, leaving at 08:06 gives 0 |
| OperationManager.IsCompleted | operation_manager.py:202 | a booking counts as completed when its status is exactly `'completed'` |
| OperationManager.IsCancelled | operation_manager.py:203 | a booking counts as cancelled when its status is exactly `'cancelled'` |
| OperationManager.CalculateTripCompletion | operation_manager.py:192-214 | (0, 0) for an empty table or with no booking_status column; otherwise both rates are non-negative and sum to at most 100 |
| OperationManager.CompletionRates | operation_manager.py:200-209 | with a status column, each rate is the percentage of bookings with status 'completed' or 'cancelled' |
| OperationManager.StatusesPartition | operation_manager.py:202-203 | each booking is completed, cancelled or other, exactly one of the three |
| OperationManager.TripBreakdown | operation_manager.py:377-381 | the slices are the two rates and `max(0, 100 - c - x)`; the third is non-negative, the three sum to 100 when c + x ≤ 100, and the third is 0 when c + x ≥ 100 |
| OperationManager.BreakdownOfBookings | operation_manager.py:377-381 | on the rates `calculate_trip_completion` returns, the three slices always sum to 100, and with a status column the Other slice is the percentage of bookings neither completed nor cancelled |
| OperationManager.Mean | operation_manager.py:236 | the mean of a non-negative sum is non-negative |
| OperationManager.SecondsToHours | operation_manager.py:233 | `.dt.total_seconds() / 3600` applied to each gap, one hour value per gap |
| OperationManager.SumSecondsToHours | operation_manager.py:233 | converting the gaps to hours one by one is converting their sum to hours |
| OperationManager.CalculateMtbf | operation_manager.py:216-239 | 0 for an empty table, fewer than two events or no date column; never negative |
| OperationManager.SumNonNegativeHours | operation_manager.py:233-236 | non-negative gaps give a non-negative sum of hours |
| OperationManager.DateSpan | operation_manager.py:231-233 | the span from the earliest to the latest date is non-negative |
| OperationManager.MtbfClosedForm | operation_manager.py:231-236 | with two or more dated events, MTBF is (latest − earliest) / (3600 × (n − 1)) hours |
| OperationManager.MeanOfSpan | operation_manager.py:233-236 | the arithmetic step of the closed form: a total of span/3600 hours over n − 1 gaps |
| OperationManager.MtbfExample | operation_manager.py:216-239 | events at hours 30, 0 and 10, out of order, give an MTBF of 15 hours |
| OperationManager.ThreeFailuresSpan | operation_manager.py:231 | those events span 30 hours |
| OperationManager.Durations | operation_manager.py:255 | the durations column holds each event's duration in row order |
| OperationManager.CalculateFleetDowntime | operation_manager.py:241-265 | 0 when either table is empty or there is no duration column |
| OperationManager.DowntimeRate | operation_manager.py:247-260 | otherwise downtime is Σ duration as a percentage of len(vehicles) × 24 × 30 hours |
| OperationManager.DowntimeNonNegative | operation_manager.py:247-260 | downtime is non-negative when no duration is negative |
| OperationManager.DowntimeExample | operation_manager.py:247-260 | 10 vehicles with 720 maintenance hours give 10 percent |
| OperationManager.DowntimeNotClamped | operation_manager.py:260 | the result is not capped: 1 vehicle with 1440 hours gives 200 percent |
| OperationManager.CalculateStaffReadiness | operation_manager.py:267-286 | 0 for an empty table or with no presence_type column; always in [0, 100] |
| OperationManager.IsPresent | operation_manager.py:277 | an attendance record counts as present when its presence_type is exactly `'present'` |
| OperationManager.ReadinessRate | operation_manager.py:274-283 | with a presence column, readiness is the percentage of records marked 'present', and 100 iff every record is present |
| OperationManager.CalculateOperationalVehicles | operation_manager.py:288-300 | 0 for an empty table; with a status column, the number of vehicles whose status is true (`status.sum()`), which is len(vehicles) iff every status is true; len(vehicles) without a status column |
| OperationManager.IsOperational | operation_manager.py:295 | a vehicle counts as operational when its boolean `status` is true, which is what `status.sum()` counts |
| OperationManager.TotalVehicles | operation_manager.py:161 | len(vehicles) for a non-empty table and 0 for an empty one |
| OperationManager.KpiReport | operation_manager.py:137-161 | the report has exactly the nine KPI keys |
| OperationManager.KpiReportBounds | operation_manager.py:137-161 | both OTP rates and readiness lie in [0, 100], completion and cancellation are non-negative with sum ≤ 100, MTBF is non-negative, and 0 ≤ operational_vehicles ≤ total_vehicles |
| OperationManager.KpiReportBreakdown | operation_manager.py:377-381 | the pie drawn from the report's two rates sums to 100 |
| OperationManager.OperationsDashboard.constructor | operation_manager.py:14-17 | a dashboard over the given tables starts with an empty kpi_results |
| OperationManager.OperationsDashboard.CalculateKpis | operation_manager.py:132-161 | kpi_results becomes its old contents overwritten by the nine entries of the report; the key set is the old keys plus exactly the nine names; operational_vehicles ≤ total_vehicles; the breakdown slices read from kpi_results sum to 100 |
| OperationManager.OperationsDashboard.TripBreakdownValues | operation_manager.py:374-381 | the pie's values are the stored completion and cancellation rates and a non-negative Other slice |
| Sql.AddSkippingNull | director_dashboard_app/director_dashboard_app.py:31 | one SUM step: NULL only when both sides are NULL; read with NULL as 0 it is plain addition |
| Sql.SqlSum | director_dashboard_app/director_dashboard_app.py:31 | SUM is NULL iff every value is NULL (an empty table included) |
| Sql.NonNull | director_dashboard_app/director_dashboard_app.py:31 | the non-NULL values are no more than the rows, and none iff every value is NULL |
| Sql.NullIfZero | director_dashboard_app/director_dashboard_app.py:62 | NULLIF(x, 0) is NULL iff x is NULL or 0, and otherwise x, which is non-zero |
| Sql.Divide | director_dashboard_app/director_dashboard_app.py:62 | nullable division is NULL iff an operand is NULL, and otherwise quotient × divisor = dividend |
| Sql.Subtract | director_dashboard_app/director_dashboard_app.py:37 | nullable subtraction is NULL iff an operand is NULL, and otherwise difference + subtrahend = minuend |
| Sql.Distinct | director_dashboard_app/director_dashboard_app.py:62 | the values COUNT(DISTINCT) counts are exactly the non-NULL values present; there are none iff every value is NULL |
| Sql.Occurrences | director_dashboard_app/director_dashboard_app.py:84-86 | a group's row count is at most the row count, and 0 iff the value does not occur |
| Sql.SumOfNonNull | director_dashboard_app/director_dashboard_app.py:31 | COALESCE(SUM(e), 0) is the sum of the non-NULL values |
| Sql.SumNullAsZero | director_dashboard_app/director_dashboard_app.py:31 | COALESCE(SUM(e), 0) is the sum with NULL read as 0 |
| Sql.SumAppend | director_dashboard_app/director_dashboard_app.py:31 | COALESCE(SUM(e), 0) over two blocks of rows is the sum of the two |
| DirectorDashboardApp.GrossRevenue | director_dashboard_app/director_dashboard_app.py:30-33 | 0 for an empty table and when no booking has an amount |
| DirectorDashboardApp.GrossRevenueIsSumOfAmounts | director_dashboard_app/director_dashboard_app.py:31 | gross revenue is Σ amount over the recorded amounts, equally Σ amount with NULL as 0 |
| DirectorDashboardApp.GrossRevenueAppend | director_dashboard_app/director_dashboard_app.py:31 | gross revenue adds up over two sets of bookings |
| DirectorDashboardApp.NetProfit | director_dashboard_app/director_dashboard_app.py:35-41 | 0 for an empty table |
| DirectorDashboardApp.CommissionCosts | director_dashboard_app/director_dashboard_app.py:43-46 | 0 for an empty table and when no booking has a commission |
| DirectorDashboardApp.CommissionCostsAppend | director_dashboard_app/director_dashboard_app.py:44 | commission costs add up over two sets of bookings |
| DirectorDashboardApp.NetProfitIsGrossMinusCommission | director_dashboard_app/director_dashboard_app.py:31-44 | when every booking records amount and commission, net profit = gross revenue − commission costs |
| DirectorDashboardApp.NullCommissionDropsOut | director_dashboard_app/director_dashboard_app.py:31-44 | a booking of 100 with NULL commission gives net profit 0 while gross minus commission is 100 |
| DirectorDashboardApp.NetProfitMayBeNegative | director_dashboard_app/director_dashboard_app.py:37 | net profit is not clamped: amount 10 with commission 30 gives −20 |
| DirectorDashboardApp.ActiveFlags | director_dashboard_app/director_dashboard_app.py:51 | one CASE value per fleet row |
| DirectorDashboardApp.IsActive | director_dashboard_app/director_dashboard_app.py:51 | `status = 'active'` holds only for a non-NULL status equal to `'active'`; a NULL status is unknown, which CASE reads as false |
| DirectorDashboardApp.FleetUtilization | director_dashboard_app/director_dashboard_app.py:48-58 | total is the row count; active is the number of rows with status 'active' and at most total; the rate is in [0, 100] and 0 for an empty fleet |
| DirectorDashboardApp.ActiveIsCount | director_dashboard_app/director_dashboard_app.py:51 | summing the CASE flags counts the active rows |
| DirectorDashboardApp.UtilizationRate | director_dashboard_app/director_dashboard_app.py:56-57 | for a non-empty fleet the rate is the active percentage, and 100 iff every row is active |
| DirectorDashboardApp.VehicleCount | director_dashboard_app/director_dashboard_app.py:62 | COUNT(DISTINCT vehicle_id) is 0 iff no booking names a vehicle |
| DirectorDashboardApp.Rofa | director_dashboard_app/director_dashboard_app.py:60-66 | 0 when no booking names a vehicle, so there is no division by zero |
| DirectorDashboardApp.RofaIsRevenuePerVehicle | director_dashboard_app/director_dashboard_app.py:62 | ROFA is gross revenue / distinct vehicles, or 0 with no vehicle |
| DirectorDashboardApp.ExampleVehiclesDistinct | director_dashboard_app/director_dashboard_app.py:62 | the example vehicle column has the four distinct ids 1 to 4 |
| DirectorDashboardApp.RofaExample | director_dashboard_app/director_dashboard_app.py:62 | 10000 of revenue over four distinct vehicles gives 2500 |
| DirectorDashboardApp.Rask | director_dashboard_app/director_dashboard_app.py:68-74 | 0 when Σ seat_km is 0 or NULL |
| DirectorDashboardApp.RaskIsRevenuePerSeatKm | director_dashboard_app/director_dashboard_app.py:70 | RASK is gross revenue / Σ seat_km, or 0 when that sum is 0 |
| DirectorDashboardApp.Trips | director_dashboard_app/director_dashboard_app.py:84-86 | a customer's trip count is at most the bookings, and 0 iff the customer never appears |
| DirectorDashboardApp.Customers | director_dashboard_app/director_dashboard_app.py:81-86 | the counted customers are exactly those with at least one booking; the NULL group is not among them |
| DirectorDashboardApp.RepeatCustomers | director_dashboard_app/director_dashboard_app.py:80 | the repeat customers are the customers with more than one booking |
| DirectorDashboardApp.RetentionOfCounts | director_dashboard_app/director_dashboard_app.py:79-82 | the outer expression equals the guarded percentage repeat / customers × 100 |
| DirectorDashboardApp.CustomerRetention | director_dashboard_app/director_dashboard_app.py:76-90 | retention lies in [0, 100] and is 0 with no customers |
| DirectorDashboardApp.RetentionFull | director_dashboard_app/director_dashboard_app.py:78-87 | with customers, retention is 100 iff every customer booked more than once |
| DirectorDashboardApp.RetentionTenCustomersExample | director_dashboard_app/director_dashboard_app.py:79-82 | 4 repeat customers out of 10 give 40 |
| DirectorDashboardApp.ExampleCustomersDistinct | director_dashboard_app/director_dashboard_app.py:81 | the example customer column holds customers 1 and 2 |
| DirectorDashboardApp.ExampleCustomersOccurrences | director_dashboard_app/director_dashboard_app.py:84-86 | in it customer 1 has two bookings and customer 2 one |
| DirectorDashboardApp.OneRepeatCustomer | director_dashboard_app/director_dashboard_app.py:78-87 | so the customers are {1, 2} and the repeat customers {1} |
| DirectorDashboardApp.RetentionExample | director_dashboard_app/director_dashboard_app.py:76-90 | one repeat customer out of two, next to a booking without a customer, gives 50 |

## Left out

- Database plumbing is not modelled: connections, the engine, table loading and `run_query`. These are I/O with a foreign driver. The dashboard is built from tables already loaded.
- Demo data generation is not modelled. It is random.
- Charts are not modelled, except the three slice values of the trip-breakdown pie. This covers gauges, the radar chart, placeholder counts, random scores and the vehicle reliability score. The report, metric formatting, `main()` and every `st.*` message are user interface.
- The users and routes tables are not modelled. No calculator reads them.
- Floating-point arithmetic is not modelled: rounding, IEEE NaN and number formatting. Every quantity is an exact real.
- The only NaN/NaT case modelled is the missing side of an unmatched join row.
- A KeyError for a table missing from `data` cannot occur in the model. The record holds every table.
- Each table's columns come from a fixed enumeration. Frames with other overlapping column names are not represented, such as a durations table that also carries `start`.
- A null or wrongly typed value in a column that is present is not represented: a null status, a non-numeric duration, a NaT date. Every value in a present column is well formed; missing columns are modelled.
- `sort_values('date')` sorts before `to_datetime` converts. The model sorts whole-second timestamps, so it assumes the stored dates order the same way as their times, as ISO date strings do.
- The operational-vehicle count and the total are stored in `kpi_results` as reals. The source stores numpy or Python integers.
- The director dashboard's connection handling is not modelled, and neither is the `float(...)` and `int(...)` conversion of query results.
- DirectorDashboardApp.Rofa: the model uses real division. PostgreSQL would truncate if `amount` were an integer column.
- DirectorDashboardApp.Rask: the model uses real division, as for ROFA.
- DirectorDashboardApp.RetentionExample: it uses two customers, one of them repeating, as a whole table. The ten-customer figure is proved on counts only, in `RetentionTenCustomersExample`.
