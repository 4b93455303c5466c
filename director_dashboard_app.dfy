// The director dashboard's financial KPIs. Each getter is one SQL aggregate
// over the `bookings` or `fleet` table, modelled here as a function over the
// table's rows; a nullable column is an `Option`.

module DirectorDashboardApp {
  import opened Wrappers
  import opened Frames
  import opened Sql

  /** A row of `bookings`, with the columns the queries read. */
  datatype Booking = Booking(
    amount: Option<real>,
    commission: Option<real>,
    vehicleId: Option<int>,
    seatKm: Option<real>,
    customerId: Option<int>)

  /** A row of `fleet`, with the column the utilisation query reads. */
  datatype FleetRow = FleetRow(status: Option<string>)

  // The columns the queries read, one value per booking in row order.

  function Amounts(bs: seq<Booking>): seq<Option<real>> {
    seq(|bs|, i requires 0 <= i < |bs| => bs[i].amount)
  }

  function Commissions(bs: seq<Booking>): seq<Option<real>> {
    seq(|bs|, i requires 0 <= i < |bs| => bs[i].commission)
  }

  /** The per-row values of `amount - commission`. */
  function Margins(bs: seq<Booking>): seq<Option<real>> {
    seq(|bs|, i requires 0 <= i < |bs| => Subtract(bs[i].amount, bs[i].commission))
  }

  function SeatKms(bs: seq<Booking>): seq<Option<real>> {
    seq(|bs|, i requires 0 <= i < |bs| => bs[i].seatKm)
  }

  function VehicleIds(bs: seq<Booking>): seq<Option<int>> {
    seq(|bs|, i requires 0 <= i < |bs| => bs[i].vehicleId)
  }

  function CustomerIds(bs: seq<Booking>): seq<Option<int>> {
    seq(|bs|, i requires 0 <= i < |bs| => bs[i].customerId)
  }

  // ---------------------------------------------------------------------
  // Revenue, profit and commission
  // ---------------------------------------------------------------------

  /** `get_gross_revenue`: `COALESCE(SUM(amount), 0)`. */
  function GrossRevenue(bs: seq<Booking>): (r: real)
    ensures bs == [] ==> r == 0.0
    ensures (forall i | 0 <= i < |bs| :: bs[i].amount.None?) ==> r == 0.0
  {
    SqlSum(Amounts(bs)).GetOr(0.0)
  }

  /** `get_net_profit`: `COALESCE(SUM(amount - commission), 0)`. */
  function NetProfit(bs: seq<Booking>): (r: real)
    ensures bs == [] ==> r == 0.0
  {
    SqlSum(Margins(bs)).GetOr(0.0)
  }

  /** `get_commission_costs`: `COALESCE(SUM(commission), 0)`. */
  function CommissionCosts(bs: seq<Booking>): (r: real)
    ensures bs == [] ==> r == 0.0
    ensures (forall i | 0 <= i < |bs| :: bs[i].commission.None?) ==> r == 0.0
  {
    SqlSum(Commissions(bs)).GetOr(0.0)
  }

  /** Gross revenue is the sum of the recorded amounts, a booking without an amount counting 0. */
  lemma GrossRevenueIsSumOfAmounts(bs: seq<Booking>)
    ensures GrossRevenue(bs) == Sum(NonNull(Amounts(bs)))
    ensures GrossRevenue(bs) == Sum(NullAsZero(Amounts(bs)))
  {
    SumOfNonNull(Amounts(bs));
    SumNullAsZero(Amounts(bs));
  }

  /** Gross revenue adds up over two sets of bookings. */
  lemma GrossRevenueAppend(a: seq<Booking>, b: seq<Booking>)
    ensures GrossRevenue(a + b) == GrossRevenue(a) + GrossRevenue(b)
  {
    assert Amounts(a + b) == Amounts(a) + Amounts(b);
    SumAppend(Amounts(a), Amounts(b));
  }

  /** Commission costs add up over two sets of bookings. */
  lemma CommissionCostsAppend(a: seq<Booking>, b: seq<Booking>)
    ensures CommissionCosts(a + b) == CommissionCosts(a) + CommissionCosts(b)
  {
    assert Commissions(a + b) == Commissions(a) + Commissions(b);
    SumAppend(Commissions(a), Commissions(b));
  }

  /** When every booking records both amount and commission, net profit is gross revenue minus commission costs. */
  lemma {:induction false} NetProfitIsGrossMinusCommission(bs: seq<Booking>)
    requires forall i | 0 <= i < |bs| :: bs[i].amount.Some? && bs[i].commission.Some?
    ensures NetProfit(bs) == GrossRevenue(bs) - CommissionCosts(bs)
  {
    if bs != [] {
      NetProfitIsGrossMinusCommission(bs[1..]);
      assert Amounts(bs)[1..] == Amounts(bs[1..]);
      assert Commissions(bs)[1..] == Commissions(bs[1..]);
      assert Margins(bs)[1..] == Margins(bs[1..]);
    }
  }

  /** A booking whose commission is NULL drops out of net profit altogether, though it counts in gross revenue. */
  lemma NullCommissionDropsOut()
    ensures var bs := [Booking(Some(100.0), None, Some(1), Some(10.0), Some(1))];
      NetProfit(bs) == 0.0 && GrossRevenue(bs) - CommissionCosts(bs) == 100.0
  {
    var bs := [Booking(Some(100.0), None, Some(1), Some(10.0), Some(1))];
    assert Margins(bs) == [None];
    assert Amounts(bs) == [Some(100.0)];
    assert Commissions(bs) == [None];
  }

  /** Net profit is not clamped: commissions above the amounts make it negative. */
  lemma NetProfitMayBeNegative()
    ensures NetProfit([Booking(Some(10.0), Some(30.0), Some(1), Some(10.0), Some(1))]) == -20.0
  {
    var bs := [Booking(Some(10.0), Some(30.0), Some(1), Some(10.0), Some(1))];
    assert Margins(bs) == [Some(-20.0)];
  }

  // ---------------------------------------------------------------------
  // Fleet utilisation
  // ---------------------------------------------------------------------

  /** `status = 'active'`; a NULL status compares as unknown, which `CASE` treats as false. */
  predicate IsActive(row: FleetRow) { row.status == Some("active") }

  /** The per-row values of `CASE WHEN status='active' THEN 1 ELSE 0 END`. */
  function ActiveFlags(fleet: seq<FleetRow>): (r: seq<int>)
    ensures |r| == |fleet|
  {
    seq(|fleet|, i requires 0 <= i < |fleet| => if IsActive(fleet[i]) then 1 else 0)
  }

  /**
   * `get_fleet_utilization`: (rate, active, total). `active` is `COALESCE(SUM(CASE ...), 0)`,
   * `total` is `COUNT(*)`, and the rate is `active / total * 100`, or 0 when the fleet is empty.
   */
  function FleetUtilization(fleet: seq<FleetRow>): (r: (real, nat, nat))
    ensures r.2 == |fleet|
    ensures r.1 == Count(fleet, IsActive)
    ensures r.1 <= r.2
    ensures 0.0 <= r.0 <= 100.0
    ensures r.2 == 0 ==> r.0 == 0.0
  {
    ActiveIsCount(fleet);
    var active := SumInts(ActiveFlags(fleet));
    var total := |fleet|;
    (Percentage(active as real, total as real), active, total)
  }

  /** Summing the CASE flags counts the active rows. */
  lemma {:induction false} ActiveIsCount(fleet: seq<FleetRow>)
    ensures SumInts(ActiveFlags(fleet)) == Count(fleet, IsActive)
  {
    if fleet != [] {
      ActiveIsCount(fleet[1..]);
      assert ActiveFlags(fleet)[1..] == ActiveFlags(fleet[1..]);
    }
  }

  /** The utilisation rate is the active share of the fleet, and 100 exactly when every vehicle is active. */
  lemma UtilizationRate(fleet: seq<FleetRow>)
    requires |fleet| > 0
    ensures FleetUtilization(fleet).0 == Percentage(Count(fleet, IsActive) as real, |fleet| as real)
    ensures FleetUtilization(fleet).0 == 100.0 <==> forall i | 0 <= i < |fleet| :: IsActive(fleet[i])
  {
    var active := Count(fleet, IsActive);
    PercentageFull(active as real, |fleet| as real);
  }

  // ---------------------------------------------------------------------
  // ROFA and RASK
  // ---------------------------------------------------------------------

  /** The number of distinct vehicles that carry bookings: `COUNT(DISTINCT vehicle_id)`. */
  function VehicleCount(bs: seq<Booking>): (n: nat)
    ensures n == 0 <==> forall i | 0 <= i < |bs| :: bs[i].vehicleId.None?
  {
    var ids := VehicleIds(bs);
    assert |ids| == |bs| && forall i | 0 <= i < |bs| :: ids[i] == bs[i].vehicleId;
    |Distinct(ids)|
  }

  /** `get_rofa`: `COALESCE(SUM(amount) / NULLIF(COUNT(DISTINCT vehicle_id), 0), 0)`. */
  function Rofa(bs: seq<Booking>): (r: real)
    ensures VehicleCount(bs) == 0 ==> r == 0.0
  {
    Divide(SqlSum(Amounts(bs)), NullIfZero(Some(VehicleCount(bs) as real))).GetOr(0.0)
  }

  /** ROFA is gross revenue per distinct vehicle, and 0 when no booking names a vehicle. */
  lemma RofaIsRevenuePerVehicle(bs: seq<Booking>)
    ensures Rofa(bs) == if VehicleCount(bs) == 0 then 0.0 else GrossRevenue(bs) / VehicleCount(bs) as real
  {
  }

  /** The amount and vehicle columns of the ROFA example: 10000 taken by four vehicles. */
  const ExampleAmounts: seq<Option<real>> := [Some(4000.0), Some(3000.0), Some(2000.0), Some(1000.0), None]
  const ExampleVehicleIds: seq<Option<int>> := [Some(1), Some(2), Some(3), Some(4), Some(2)]

  lemma ExampleVehiclesDistinct()
    ensures Distinct(ExampleVehicleIds) == {1, 2, 3, 4}
  {
    var ids := ExampleVehicleIds;
    assert ids[0] == Some(1) && ids[1] == Some(2) && ids[2] == Some(3) && ids[3] == Some(4);
  }

  /** A revenue of 10000 over four distinct vehicles gives a ROFA of 2500, whatever the other columns hold. */
  lemma RofaExample(bs: seq<Booking>)
    requires Amounts(bs) == ExampleAmounts && VehicleIds(bs) == ExampleVehicleIds
    ensures Rofa(bs) == 2500.0
  {
    ExampleVehiclesDistinct();
    assert |{1, 2, 3, 4}| == 4;
    assert SqlSum(ExampleAmounts) == Some(10000.0);
  }

  /** `get_rask`: `COALESCE(SUM(amount) / NULLIF(SUM(seat_km), 0), 0)`. */
  function Rask(bs: seq<Booking>): (r: real)
    ensures SqlSum(SeatKms(bs)).GetOr(0.0) == 0.0 ==> r == 0.0
  {
    Divide(SqlSum(Amounts(bs)), NullIfZero(SqlSum(SeatKms(bs)))).GetOr(0.0)
  }

  /** RASK is gross revenue per seat-kilometre, and 0 when the seat-kilometres sum to 0 or are all NULL. */
  lemma RaskIsRevenuePerSeatKm(bs: seq<Booking>)
    ensures var seatKm := SqlSum(SeatKms(bs)).GetOr(0.0);
      Rask(bs) == if seatKm == 0.0 then 0.0 else GrossRevenue(bs) / seatKm
  {
  }

  // ---------------------------------------------------------------------
  // Customer retention
  // ---------------------------------------------------------------------

  /** The number of bookings of one customer: `COUNT(*)` of its group in the inner `GROUP BY customer_id`. */
  function Trips(bs: seq<Booking>, c: int): (n: nat)
    ensures n <= |bs|
    ensures n == 0 <==> Some(c) !in CustomerIds(bs)
  {
    Occurrences(CustomerIds(bs), Some(c))
  }

  /**
   * The customers counted by `COUNT(DISTINCT customer_id)`. The group of bookings
   * without a customer has customer_id NULL, so it is never counted.
   */
  function Customers(bs: seq<Booking>): (r: set<int>)
    ensures forall c :: c in r <==> Trips(bs, c) > 0
  {
    Distinct(CustomerIds(bs))
  }

  /** The customers counted under `FILTER (WHERE trips > 1)`. */
  function RepeatCustomers(bs: seq<Booking>): (r: set<int>)
    ensures r <= Customers(bs)
    ensures forall c :: c in r <==> Trips(bs, c) > 1
  {
    set c | c in Customers(bs) && Trips(bs, c) > 1
  }

  /**
   * The outer query of `get_customer_retention` over its two counts:
   * `COALESCE(repeat::float / NULLIF(customers, 0) * 100, 0)`.
   */
  function RetentionOfCounts(repeat: nat, customers: nat): (r: real)
    ensures r == Percentage(repeat as real, customers as real)
  {
    var share := Divide(Some(repeat as real), NullIfZero(Some(customers as real)));
    var retention := if share.Some? then Some(share.value * 100.0) else None;
    retention.GetOr(0.0)
  }

  /** `get_customer_retention`: the share of distinct customers with more than one booking, in percent. */
  function CustomerRetention(bs: seq<Booking>): (r: real)
    ensures 0.0 <= r <= 100.0
    ensures Customers(bs) == {} ==> r == 0.0
  {
    SubsetCardinality(RepeatCustomers(bs), Customers(bs));
    RetentionOfCounts(|RepeatCustomers(bs)|, |Customers(bs)|)
  }

  /** Retention is 100 exactly when every customer booked more than once. */
  lemma RetentionFull(bs: seq<Booking>)
    requires Customers(bs) != {}
    ensures CustomerRetention(bs) == 100.0 <==> forall c | c in Customers(bs) :: Trips(bs, c) > 1
  {
    SubsetCardinality(RepeatCustomers(bs), Customers(bs));
    PercentageFull(|RepeatCustomers(bs)| as real, |Customers(bs)| as real);
    assert (forall c | c in Customers(bs) :: Trips(bs, c) > 1) <==> RepeatCustomers(bs) == Customers(bs);
  }

  /** Ten customers of whom four booked again give a retention of 40. */
  lemma RetentionTenCustomersExample()
    ensures RetentionOfCounts(4, 10) == 40.0
  {
  }

  /**
   * Customer 1 booked twice, customer 2 once, and one booking has no customer:
   * the customer column of the retention example.
   */
  const ExampleCustomerIds: seq<Option<int>> := [Some(1), Some(2), Some(1), None]

  /** The distinct customer ids of that column are 1 and 2. */
  lemma ExampleCustomersDistinct()
    ensures Distinct(ExampleCustomerIds) == {1, 2}
  {
    assert ExampleCustomerIds[0] == Some(1) && ExampleCustomerIds[1] == Some(2);
  }

  /** In that column customer 1 appears twice and customer 2 once. */
  lemma ExampleCustomersOccurrences()
    ensures Occurrences(ExampleCustomerIds, Some(1)) == 2
    ensures Occurrences(ExampleCustomerIds, Some(2)) == 1
  {
    var ids := ExampleCustomerIds;
    assert ids[1..] == [Some(2), Some(1), None] && ids[2..] == [Some(1), None] && ids[3..] == [None];
  }

  /** With that customer column, of the customers 1 and 2 only customer 1 booked more than once. */
  lemma OneRepeatCustomer(bs: seq<Booking>)
    requires CustomerIds(bs) == ExampleCustomerIds
    ensures Customers(bs) == {1, 2}
    ensures RepeatCustomers(bs) == {1}
  {
    ExampleCustomersDistinct();
    ExampleCustomersOccurrences();
  }

  /** One repeat customer out of two, and a booking without a customer, whatever the other columns hold: a retention of 50. */
  lemma RetentionExample(bs: seq<Booking>)
    requires CustomerIds(bs) == ExampleCustomerIds
    ensures CustomerRetention(bs) == 50.0
  {
    OneRepeatCustomer(bs);
    assert |{1}| == 1 && |{1, 2}| == 2;
    assert RetentionOfCounts(1, 2) == 50.0;
  }

  lemma SubsetCardinality(a: set<int>, b: set<int>)
    requires a <= b
    ensures |a| <= |b|
    ensures |a| == |b| ==> a == b
  {
    assert b == a + (b - a);
  }
}
