/**
 * Driver selection for a discovered device (`autoadd_cb`): every driver
 * that has a device-ID match string is scored with `match_id`, and the
 * first driver with the strictly highest positive score wins.
 */
module Drivers {
  import opened Wrappers
  import opened CupsOptions
  import opened DeviceId

  /**
   * A catalog entry (`pappl_pr_driver_t`): name, description and the
   * optional device-ID match string, already split into pairs.
   */
  datatype Driver = Driver(name: string, description: string, deviceId: Option<seq<Pair>>)

  /** The application's own catalog: one generic driver with no match string. */
  const BrfDrivers: seq<Driver> := [Driver("gen_brf", "Generic", None)]

  /** What `autoadd_cb` credits a driver with: nothing without a match string. */
  function DriverScore(did: seq<Pair>, d: Driver): nat
  {
    match d.deviceId
    case None => 0
    case Some(mid) => Score(did, mid)
  }

  /**
   * Driver `i` is the selection: it scores above zero, no driver scores
   * more, and every driver before it scores strictly less.
   */
  predicate IsFirstBest(did: seq<Pair>, drivers: seq<Driver>, i: nat)
  {
    && i < |drivers|
    && drivers[i].deviceId.Some?
    && DriverScore(did, drivers[i]) > 0
    && (forall j :: 0 <= j < |drivers| ==> DriverScore(did, drivers[j]) <= DriverScore(did, drivers[i]))
    && (forall j :: 0 <= j < i ==> DriverScore(did, drivers[j]) < DriverScore(did, drivers[i]))
  }

  /**
   * `autoadd_cb` with its intended loop over the whole catalog: the name of
   * the first driver with the strictly highest positive score, or none
   * when no driver scores above zero.
   */
  method AutoAdd(did: seq<Pair>, drivers: seq<Driver>) returns (best: Option<string>)
    ensures best.None? <==> forall j :: 0 <= j < |drivers| ==> DriverScore(did, drivers[j]) == 0
    ensures best.Some? ==> exists i: nat :: IsFirstBest(did, drivers, i) && best.value == drivers[i].name
  {
    var bestScore: nat := 0;
    best := None;
    ghost var bestIndex: nat := 0;
    ghost var scores: seq<nat> := [];
    for i := 0 to |drivers|
      invariant |scores| == i
      invariant forall j :: 0 <= j < i ==> scores[j] == DriverScore(did, drivers[j])
      invariant best.None? <==> bestScore == 0
      invariant best.None? ==> forall j :: 0 <= j < i ==> scores[j] == 0
      invariant best.Some? ==> bestIndex < i && best.value == drivers[bestIndex].name
      invariant best.Some? ==> drivers[bestIndex].deviceId.Some? && bestScore == scores[bestIndex]
      invariant forall j :: 0 <= j < i ==> scores[j] <= bestScore
      invariant best.Some? ==> forall j :: 0 <= j < bestIndex ==> scores[j] < bestScore
    {
      var score: nat := 0;
      if drivers[i].deviceId.Some? {
        score := MatchId(did, drivers[i].deviceId.value);
      }
      assert score == DriverScore(did, drivers[i]);
      scores := scores + [score];
      if drivers[i].deviceId.Some? && score > bestScore {
        bestScore := score;
        best := Some(drivers[i].name);
        bestIndex := i;
      }
    }
    if best.Some? {
      assert IsFirstBest(did, drivers, bestIndex);
    }
  }

  /** A driver without a match string is never the selection. */
  lemma NoMatchStringNeverSelected(did: seq<Pair>, drivers: seq<Driver>, i: nat)
    requires i < |drivers| && drivers[i].deviceId.None?
    ensures !IsFirstBest(did, drivers, i)
  {
  }

  /** At most one driver is the first best one, so the selection is determined. */
  lemma FirstBestUnique(did: seq<Pair>, drivers: seq<Driver>, i: nat, j: nat)
    requires IsFirstBest(did, drivers, i) && IsFirstBest(did, drivers, j)
    ensures i == j
  {
  }

  /**
   * The application's own catalog has no match string, so auto-adding
   * never selects a driver, whatever the device reports.
   */
  method AutoAddBuiltIn(did: seq<Pair>) returns (best: Option<string>)
    ensures best == None
  {
    best := AutoAdd(did, BrfDrivers);
  }
}
