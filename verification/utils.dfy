/** The numeric and classification helpers of lib/utils.ts. */
module Utils {
  import opened Entities

  // ---------------------------------------------------------------------
  // getStatusColor

  const Green := "text-green-400"
  const Blue := "text-blue-400"
  const Red := "text-red-400"
  const Yellow := "text-yellow-400"
  const Gray := "text-gray-400"

  /** The text colour class for any status string; unknown statuses are
      gray. */
  function StatusColor(status: string): (c: string)
    ensures c in {Green, Blue, Red, Yellow, Gray}
    ensures c == Green <==> status in {"completed", "active"}
    ensures c == Blue <==> status == "in-progress"
    ensures c == Red <==> status in {"delayed", "blocked"}
    ensures c == Yellow <==> status in {"pending", "idle"}
  {
    match status
    case "completed" => Green
    case "active" => Green
    case "in-progress" => Blue
    case "delayed" => Red
    case "blocked" => Red
    case "pending" => Yellow
    case "idle" => Yellow
    case _ => Gray
  }

  /** Every status the types declare, for tasks and for projects, has a
      colour; the underscore spelling written by the frame handler and the
      task card does not and shows gray. */
  lemma DeclaredStatusesAreColoured(status: string)
    ensures status in {"pending", "in-progress", "completed", "blocked"} ==> StatusColor(status) != Gray
    ensures status in {"active", "completed", "delayed", "idle"} ==> StatusColor(status) != Gray
    ensures StatusColor(InProgressUnderscore) == Gray
    ensures StatusColor(InProgressHyphen) == Blue
  {
  }

  // ---------------------------------------------------------------------
  // getEfficiencyTrend

  datatype Trend = Up | Down | Stable

  function EfficiencyTrend(score: real): (t: Trend)
    ensures t == Up <==> score >= 85.0
    ensures t == Down <==> score <= 60.0
    ensures t == Stable <==> 60.0 < score < 85.0
  {
    if score >= 85.0 then Up
    else if score <= 60.0 then Down
    else Stable
  }

  function TrendRank(t: Trend): int {
    match t
    case Down => 0
    case Stable => 1
    case Up => 2
  }

  /** A higher score never gives a worse trend. */
  lemma TrendMonotone(a: real, b: real)
    requires a <= b
    ensures TrendRank(EfficiencyTrend(a)) <= TrendRank(EfficiencyTrend(b))
  {
  }

  // ---------------------------------------------------------------------
  // calculateResourceUtilization

  /** Sum of the resources' availability values. */
  function SumAvailability(resources: seq<Resource>): real
    decreases |resources|
  {
    if |resources| == 0 then 0.0
    else SumAvailability(resources[..|resources| - 1]) + resources[|resources| - 1].availability
  }

  /** The fleet-wide figure: the mean availability, 0 with no resources. */
  function FleetUtilization(resources: seq<Resource>): (u: real)
    ensures |resources| == 0 ==> u == 0.0
    ensures |resources| > 0 ==> u * (|resources| as real) == SumAvailability(resources)
  {
    if |resources| == 0 then 0.0
    else SumAvailability(resources) / (|resources| as real)
  }

  /** Bounds on every value bound the sum. */
  lemma {:induction false} SumAvailabilityBounds(resources: seq<Resource>, lo: real, hi: real)
    requires forall i :: 0 <= i < |resources| ==> lo <= resources[i].availability <= hi
    ensures lo * (|resources| as real) <= SumAvailability(resources) <= hi * (|resources| as real)
    decreases |resources|
  {
    if |resources| > 0 {
      var init := resources[..|resources| - 1];
      SumAvailabilityBounds(init, lo, hi);
      assert lo * (|resources| as real) == lo * (|init| as real) + lo;
      assert hi * (|resources| as real) == hi * (|init| as real) + hi;
    }
  }

  /** Dividing both sides of an inequality by a positive number. */
  lemma CancelPositive(a: real, b: real, n: real)
    requires n > 0.0 && a * n <= b * n
    ensures a <= b
  {
  }

  /** The mean lies between any lower and upper bound of the values, in
      particular between the minimum and the maximum. */
  lemma FleetUtilizationBetween(resources: seq<Resource>, lo: real, hi: real)
    requires |resources| > 0
    requires forall i :: 0 <= i < |resources| ==> lo <= resources[i].availability <= hi
    ensures lo <= FleetUtilization(resources) <= hi
  {
    SumAvailabilityBounds(resources, lo, hi);
    var n := |resources| as real;
    var u := FleetUtilization(resources);
    assert u * n == SumAvailability(resources);
    CancelPositive(lo, u, n);
    CancelPositive(u, hi, n);
  }

  /** Two resources at 20 and 95 average to 57.5. */
  lemma FleetUtilizationExample(a: Resource, b: Resource)
    requires a.availability == 20.0 && b.availability == 95.0
    ensures FleetUtilization([a, b]) == 57.5
  {
    assert [a, b][..1] == [a];
    assert [a][..0] == [];
    assert SumAvailability([a]) == 20.0;
    assert SumAvailability([a, b]) == 115.0;
  }
}
