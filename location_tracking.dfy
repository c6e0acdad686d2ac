/**
 * The location arbiter of the `useLocationTracking` hook: every device
 * reading goes through `handleLocationUpdate`, which keeps the most accurate
 * reading seen so far and saves each reading it keeps.
 *
 * Permissions, the device subscription and alerts are not modelled; the
 * readings arrive as arguments.
 */
module LocationTracking {
  import opened Wrappers
  import opened Geo

  /** `location.coords` as the device reports them; the accuracy may be missing. */
  datatype Sample = Sample(latitude: real, longitude: real, accuracy: Option<real>)

  /** The accuracy used when the device reports none (or zero). */
  const DefaultAccuracy: real := 100.0

  /** The accuracy of a sample: the reported one, or 100 when it is missing or zero. */
  function AccuracyOf(s: Sample): (a: real)
    ensures s.accuracy.Some? && s.accuracy.value != 0.0 ==> a == s.accuracy.value
    ensures s.accuracy.None? || s.accuracy.value == 0.0 ==> a == DefaultAccuracy
  {
    match s.accuracy
    case Some(v) => if v != 0.0 then v else DefaultAccuracy
    case None => DefaultAccuracy
  }

  /** The `UserLocation` built from a sample. */
  function Reading(s: Sample): (r: UserLocation)
    ensures r.latitude == s.latitude && r.longitude == s.longitude
    ensures r.accuracy == AccuracyOf(s) && r.accuracy != 0.0
  {
    UserLocation(s.latitude, s.longitude, AccuracyOf(s))
  }

  /** The acceptance rule: no reading yet, or a strictly smaller accuracy. */
  predicate Accepts(best: Option<UserLocation>, accuracy: real): (b: bool)
    ensures best.None? ==> b
    ensures best.Some? ==> (b <==> accuracy < best.value.accuracy)
  {
    best.None? || accuracy < best.value.accuracy
  }

  /** The best reading after one sample. */
  function Step(best: Option<UserLocation>, s: Sample): (r: Option<UserLocation>)
    ensures r.Some?
    ensures Accepts(best, AccuracyOf(s)) ==> r == Some(Reading(s))
    ensures !Accepts(best, AccuracyOf(s)) ==> r == best
    ensures best.Some? ==> r.value.accuracy <= best.value.accuracy
  {
    if Accepts(best, AccuracyOf(s)) then Some(Reading(s)) else best
  }

  /** The best reading after a sequence of samples, in arrival order. */
  function Run(best: Option<UserLocation>, samples: seq<Sample>): (r: Option<UserLocation>)
    ensures |samples| > 0 ==> r.Some?
    ensures best.Some? ==> r.Some?
  {
    if |samples| == 0 then best
    else Step(Run(best, samples[..|samples| - 1]), samples[|samples| - 1])
  }

  /** The readings saved while processing `samples`, in order. */
  function Saves(best: Option<UserLocation>, samples: seq<Sample>): (r: seq<UserLocation>)
    ensures |r| <= |samples|
    ensures forall k :: 0 <= k < |r| ==> exists i :: 0 <= i < |samples| && r[k] == Reading(samples[i])
  {
    if |samples| == 0 then []
    else
      var before, s := Run(best, samples[..|samples| - 1]), samples[|samples| - 1];
      Saves(best, samples[..|samples| - 1]) + if Accepts(before, AccuracyOf(s)) then [Reading(s)] else []
  }

  /**
   * Over any sample sequence the best reading, once present, stays present,
   * and its accuracy never increases; after at least one sample there is one.
   */
  lemma {:induction false} RunMonotone(best: Option<UserLocation>, samples: seq<Sample>)
    ensures |samples| > 0 ==> Run(best, samples).Some?
    ensures best.Some? ==> Run(best, samples).Some? && Run(best, samples).value.accuracy <= best.value.accuracy
  {
    if |samples| > 0 {
      RunMonotone(best, samples[..|samples| - 1]);
    }
  }

  /** The accuracy trajectory is non-increasing: a later prefix is never worse. */
  lemma {:induction false} RunPrefixMonotone(best: Option<UserLocation>, samples: seq<Sample>, i: nat, j: nat)
    requires i <= j <= |samples|
    requires Run(best, samples[..i]).Some?
    ensures Run(best, samples[..j]).Some?
    ensures Run(best, samples[..j]).value.accuracy <= Run(best, samples[..i]).value.accuracy
  {
    if j > i {
      RunPrefixMonotone(best, samples, i, j - 1);
      assert samples[..j][..j - 1] == samples[..j - 1];
    } else {
      assert samples[..j] == samples[..i];
    }
  }

  /**
   * Starting from nothing, the best reading is that of the FIRST sample with
   * the smallest accuracy: later ties are rejected.
   */
  lemma {:induction false} RunFindsFirstMinimum(samples: seq<Sample>)
    requires |samples| > 0
    ensures exists k :: 0 <= k < |samples| && Run(None, samples) == Some(Reading(samples[k]))
              && (forall i :: 0 <= i < |samples| ==> AccuracyOf(samples[k]) <= AccuracyOf(samples[i]))
              && (forall i :: 0 <= i < k ==> AccuracyOf(samples[k]) < AccuracyOf(samples[i]))
  {
    var n := |samples| - 1;
    var init, last := samples[..n], samples[n];
    if n == 0 {
      assert Run(None, samples) == Step(None, last);
    } else {
      RunFindsFirstMinimum(init);
      var k :| 0 <= k < |init| && Run(None, init) == Some(Reading(init[k]))
                && (forall i :: 0 <= i < |init| ==> AccuracyOf(init[k]) <= AccuracyOf(init[i]))
                && (forall i :: 0 <= i < k ==> AccuracyOf(init[k]) < AccuracyOf(init[i]));
      assert init[k] == samples[k];
      assert forall i :: 0 <= i < n ==> init[i] == samples[i];
      if AccuracyOf(last) < AccuracyOf(init[k]) {
        assert Run(None, samples) == Some(Reading(last));
        assert forall i :: 0 <= i < n ==> AccuracyOf(last) < AccuracyOf(samples[i]);
      } else {
        assert Run(None, samples) == Some(Reading(samples[k]));
      }
    }
  }

  /** Every saved reading was the best one at the moment it was saved; the last save is the best. */
  lemma {:induction false} SavesEndWithBest(best: Option<UserLocation>, samples: seq<Sample>)
    ensures |Saves(best, samples)| <= |samples|
    ensures |Saves(best, samples)| > 0 ==> Run(best, samples) == Some(Saves(best, samples)[|Saves(best, samples)| - 1])
    ensures |Saves(best, samples)| == 0 ==> Run(best, samples) == best
  {
    if |samples| > 0 {
      SavesEndWithBest(best, samples[..|samples| - 1]);
    }
  }

  /** The three readings 50, 20, 30 metres leave the 20-metre reading as the best. */
  lemma ThirtyAfterTwentyRejected(c: Coordinate)
    ensures var samples := [Sample(c.latitude, c.longitude, Some(50.0)),
                            Sample(c.latitude, c.longitude, Some(20.0)),
                            Sample(c.latitude, c.longitude, Some(30.0))];
            Run(None, samples) == Some(UserLocation(c.latitude, c.longitude, 20.0))
  {
    var s1, s2, s3 := Sample(c.latitude, c.longitude, Some(50.0)),
                      Sample(c.latitude, c.longitude, Some(20.0)),
                      Sample(c.latitude, c.longitude, Some(30.0));
    var samples := [s1, s2, s3];
    assert samples[..2] == [s1, s2];
    assert samples[..2][..1] == [s1];
    assert [s1][..0] == [];
    assert Run(None, [s1]) == Some(Reading(s1));
    assert Run(None, [s1, s2]) == Some(Reading(s2));
  }

  /**
   * The hook's state: `userLocation` (the best reading) and the locations
   * handed to `saveLastLocationToStorage`.
   */
  class Arbiter {
    var userLocation: Option<UserLocation>
    var saved: seq<UserLocation>

    /** The last saved location is always the current best one. */
    ghost predicate Valid()
      reads this
    {
      (userLocation.None? <==> saved == [])
      && (saved != [] ==> userLocation == Some(saved[|saved| - 1]))
    }

    /** No reading yet. */
    constructor ()
      ensures Valid() && userLocation == None && saved == []
    {
      userLocation := None;
      saved := [];
    }

    /**
     * `handleLocationUpdate`: keep the reading if it is the first or strictly
     * more accurate, and save it exactly then.
     */
    method HandleLocationUpdate(s: Sample)
      requires Valid()
      modifies this
      ensures Valid()
      ensures userLocation == Step(old(userLocation), s)
      ensures saved == old(saved) + if Accepts(old(userLocation), AccuracyOf(s)) then [Reading(s)] else []
    {
      var accuracy := AccuracyOf(s);
      var newLocation := UserLocation(s.latitude, s.longitude, accuracy);
      if userLocation.None? || accuracy < userLocation.value.accuracy {
        saved := saved + [newLocation];
        userLocation := Some(newLocation);
      }
    }

    /**
     * The quick initial fix of `startLocationTracking`: when the device
     * returns one, it goes through the same acceptance rule.
     */
    method StartLocationTracking(quick: Option<Sample>)
      requires Valid()
      modifies this
      ensures Valid()
      ensures quick.Some? ==> userLocation == Step(old(userLocation), quick.value)
      ensures quick.Some? ==>
                saved == old(saved) + if Accepts(old(userLocation), AccuracyOf(quick.value))
                                      then [Reading(quick.value)] else []
      ensures quick.None? ==> userLocation == old(userLocation) && saved == old(saved)
    {
      if quick.Some? {
        HandleLocationUpdate(quick.value);
      }
    }
  }
}
