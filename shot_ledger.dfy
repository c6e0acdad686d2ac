/**
 * The shot ledger of the mobile app's `useShotManagement` hook: the ordered
 * list of recorded shots and the current-hole selector, the mutators that
 * replace them, and the two queries the map screen reads.
 *
 * Shot ids and timestamps come from the clock in the app; here the caller
 * supplies them, and nothing assumes they are unique.
 */
module ShotLedger {
  import opened Wrappers
  import opened Seqs
  import opened Geo

  /** A recorded shot (`GolfShot`). `club` is `null` for shots stored without one. */
  datatype Shot = Shot(
    id: string,
    coordinate: Coordinate,
    timestamp: int,
    shotNumber: int,
    holeNumber: int,
    club: Option<string>)

  /** A write handed to the key-value store; writes are fire-and-forget. */
  datatype StorageWrite = SaveShots(saved: seq<Shot>) | ClearAll

  /** Whether a shot was recorded on `hole`. */
  function IsOnHole(hole: int): Shot -> bool
  {
    (s: Shot) => s.holeNumber == hole
  }

  /** Whether a shot carries an id other than `id`. */
  function HasOtherId(id: string): Shot -> bool
  {
    (s: Shot) => s.id != id
  }

  /** The shots recorded on `hole`, in insertion order (`shots.filter(...)`). */
  function OnHole(shots: seq<Shot>, hole: int): (r: seq<Shot>)
    ensures |r| <= |shots|
    ensures forall s :: s in r <==> s in shots && s.holeNumber == hole
  {
    Filter(shots, IsOnHole(hole))
  }

  /** The shots whose id differs from `id` (the filter of `deleteShot`). */
  function WithoutId(shots: seq<Shot>, id: string): (r: seq<Shot>)
    ensures |r| <= |shots|
    ensures forall s :: s in r <==> s in shots && s.id != id
  {
    Filter(shots, HasOtherId(id))
  }

  /** The shot `createShot` builds on `hole` from `location` and `club`. */
  function NewShot(shots: seq<Shot>, hole: int, location: UserLocation, club: string,
                   id: string, timestamp: int): (n: Shot)
    ensures n.holeNumber == hole && n.shotNumber == |OnHole(shots, hole)| + 1
    ensures n.coordinate.latitude == location.latitude && n.coordinate.longitude == location.longitude
    ensures n.club == Some(club) && n.id == id && n.timestamp == timestamp
  {
    Shot(id, PositionOf(location), timestamp, |OnHole(shots, hole)| + 1, hole, Some(club))
  }

  /** `getLastShot`: the final shot of the whole list, whatever its hole. */
  function LastShot(shots: seq<Shot>): (r: Option<Shot>)
    ensures r.None? <==> shots == []
    ensures r.Some? ==> r.value == shots[|shots| - 1]
  {
    if |shots| == 0 then None else Some(shots[|shots| - 1])
  }

  /**
   * `getLastShotDistance`: the distance between the last two shots of the
   * current hole in insertion order, or the empty text when the hole has
   * fewer than two shots.
   */
  function LastShotDistance(shots: seq<Shot>, hole: int): (r: Option<Yards>)
    ensures r.None? <==> |OnHole(shots, hole)| < 2
    ensures r.Some? ==> var onHole := OnHole(shots, hole);
                        r.value == Yards(onHole[|onHole| - 2].coordinate, onHole[|onHole| - 1].coordinate)
  {
    var onHole := OnHole(shots, hole);
    if |onHole| < 2 then None
    else
      Some(Yards(onHole[|onHole| - 2].coordinate, onHole[|onHole| - 1].coordinate))
  }

  /**
   * What the store holds once every issued write has landed in order: the
   * list of the last `SaveShots`, nothing after a `ClearAll`, and `None`
   * when no write was issued.
   */
  function LastStored(writes: seq<StorageWrite>): (r: Option<seq<Shot>>)
    ensures r.None? <==> writes == []
    ensures writes != [] && writes[|writes| - 1].ClearAll? ==> r == Some([])
    ensures writes != [] && writes[|writes| - 1].SaveShots? ==> r == Some(writes[|writes| - 1].saved)
  {
    if |writes| == 0 then None
    else match writes[|writes| - 1]
      case SaveShots(saved) => Some(saved)
      case ClearAll => Some([])
  }

  /** The hook's state: `shots`, `currentHole`, and the writes it has issued. */
  class Ledger {
    var shots: seq<Shot>
    var currentHole: int
    var writes: seq<StorageWrite>

    /** The hook's initial state: no shots, hole 1. */
    constructor ()
      ensures shots == [] && currentHole == 1 && writes == []
    {
      shots := [];
      currentHole := 1;
      writes := [];
    }

    /** `loadShots`: the list read back from storage replaces the list; nothing is written. */
    method LoadShots(loaded: seq<Shot>)
      modifies this
      ensures shots == loaded
      ensures currentHole == old(currentHole) && writes == old(writes)
    {
      shots := loaded;
    }

    /** `createShot`: append a shot numbered after the current hole's shots, then save. */
    method CreateShot(location: UserLocation, club: string, id: string, timestamp: int)
      modifies this
      ensures shots == old(shots) + [NewShot(old(shots), old(currentHole), location, club, id, timestamp)]
      ensures var n := shots[|shots| - 1];
              && n.holeNumber == old(currentHole)
              && n.shotNumber == |OnHole(old(shots), old(currentHole))| + 1
              && n.coordinate == Coordinate(location.latitude, location.longitude)
              && n.club == Some(club) && n.id == id && n.timestamp == timestamp
      ensures currentHole == old(currentHole)
      ensures writes == old(writes) + [SaveShots(shots)]
      ensures LastStored(writes) == Some(shots)
    {
      var newShot := NewShot(shots, currentHole, location, club, id, timestamp);
      shots := shots + [newShot];
      writes := writes + [SaveShots(shots)];
    }

    /** `deleteShot`: keep the shots with another id, renumber nothing, then save. */
    method DeleteShot(id: string)
      modifies this
      ensures shots == WithoutId(old(shots), id)
      ensures currentHole == old(currentHole)
      ensures writes == old(writes) + [SaveShots(shots)]
      ensures LastStored(writes) == Some(shots)
    {
      shots := WithoutId(shots, id);
      writes := writes + [SaveShots(shots)];
    }

    /** `clearShots`: empty the list, go back to hole 1, and erase the store. */
    method ClearShots()
      modifies this
      ensures shots == [] && currentHole == 1
      ensures writes == old(writes) + [ClearAll]
      ensures LastStored(writes) == Some([])
    {
      shots := [];
      currentHole := 1;
      writes := writes + [ClearAll];
    }

    /** `updateShots`: replace the list wholesale, then save; the hole stays. */
    method UpdateShots(updated: seq<Shot>)
      modifies this
      ensures shots == updated
      ensures currentHole == old(currentHole)
      ensures writes == old(writes) + [SaveShots(updated)]
      ensures LastStored(writes) == Some(updated)
    {
      shots := updated;
      writes := writes + [SaveShots(updated)];
    }

    /** `setCurrentHole`: the selector changes; shots and storage do not. */
    method SetCurrentHole(hole: int)
      modifies this
      ensures currentHole == hole
      ensures shots == old(shots) && writes == old(writes)
    {
      currentHole := hole;
    }
  }

  // ---------------------------------------------------------------------------
  // Facts about the ledger operations.
  // ---------------------------------------------------------------------------

  /** The hole's shots are numbered 1, 2, ..., n in insertion order. */
  ghost predicate Contiguous(hs: seq<Shot>)
  {
    forall i :: 0 <= i < |hs| ==> hs[i].shotNumber == i + 1
  }

  /**
   * Creating a shot adds it at the end of its own hole's shots and leaves every
   * other hole's shots as they were.
   */
  lemma CreateOnHole(shots: seq<Shot>, hole: int, location: UserLocation, club: string,
                     id: string, timestamp: int, h: int)
    ensures var n := NewShot(shots, hole, location, club, id, timestamp);
            OnHole(shots + [n], h) == if h == hole then OnHole(shots, h) + [n] else OnHole(shots, h)
  {
    var n := NewShot(shots, hole, location, club, id, timestamp);
    FilterConcat(shots, [n], IsOnHole(h));
    assert [n][..0] == [];
  }

  /**
   * The new shot is numbered one past the count of shots already on its hole,
   * so with no deletions every hole stays numbered 1..n.
   */
  lemma CreateKeepsNumbering(shots: seq<Shot>, hole: int, location: UserLocation, club: string,
                             id: string, timestamp: int)
    requires forall h :: Contiguous(OnHole(shots, h))
    ensures forall h :: Contiguous(OnHole(shots + [NewShot(shots, hole, location, club, id, timestamp)], h))
  {
    forall h ensures Contiguous(OnHole(shots + [NewShot(shots, hole, location, club, id, timestamp)], h)) {
      CreateOnHole(shots, hole, location, club, id, timestamp, h);
    }
  }

  /** Deleting keeps every copy of a shot whose id differs, and no shot with that id. */
  lemma DeleteCount(shots: seq<Shot>, id: string, x: Shot)
    ensures multiset(WithoutId(shots, id))[x] == if x.id == id then 0 else multiset(shots)[x]
  {
    FilterCount(shots, HasOtherId(id), x);
  }

  /** Deleting keeps the order of the remaining shots: it distributes over concatenation. */
  lemma DeleteConcat(a: seq<Shot>, b: seq<Shot>, id: string)
    ensures WithoutId(a + b, id) == WithoutId(a, id) + WithoutId(b, id)
  {
    FilterConcat(a, b, HasOtherId(id));
  }

  /** Deleting an id that no shot carries changes nothing. */
  lemma DeleteAbsent(shots: seq<Shot>, id: string)
    requires forall s :: s in shots ==> s.id != id
    ensures WithoutId(shots, id) == shots
  {
    FilterAll(shots, HasOtherId(id));
  }

  /** Deleting the middle one of three shots whose ids differ from it leaves the outer two. */
  lemma DeleteMiddle(s1: Shot, s2: Shot, s3: Shot)
    requires s1.id != s2.id && s3.id != s2.id
    ensures WithoutId([s1, s2, s3], s2.id) == [s1, s3]
  {
    var p := HasOtherId(s2.id);
    assert [s1, s2, s3] == [s1] + [s2] + [s3];
    FilterConcat([s1] + [s2], [s3], p);
    FilterConcat([s1], [s2], p);
    FilterSingleton(s1, p);
    FilterSingleton(s2, p);
    FilterSingleton(s3, p);
  }

  /** A shot created on a hole that holds two shots is numbered 3. */
  lemma ThirdOnHole(s1: Shot, s3: Shot, hole: int, location: UserLocation, club: string,
                    id: string, timestamp: int)
    requires s1.holeNumber == s3.holeNumber == hole
    ensures NewShot([s1, s3], hole, location, club, id, timestamp).shotNumber == 3
  {
    var q := IsOnHole(hole);
    FilterConcat([s1], [s3], q);
    FilterSingleton(s1, q);
    FilterSingleton(s3, q);
    assert [s1, s3] == [s1] + [s3];
  }

  /**
   * With hole 1 holding shots 1, 2, 3, deleting the second and recording again
   * numbers the new shot 3 a second time: shot numbers are not unique.
   */
  lemma NumberRepeatsAfterDelete(s1: Shot, s2: Shot, s3: Shot, location: UserLocation, club: string,
                                 id: string, timestamp: int)
    requires s1.holeNumber == s2.holeNumber == s3.holeNumber == 1
    requires s1.shotNumber == 1 && s2.shotNumber == 2 && s3.shotNumber == 3
    requires s1.id != s2.id && s3.id != s2.id
    ensures var after := WithoutId([s1, s2, s3], s2.id);
            var n := NewShot(after, 1, location, club, id, timestamp);
            after == [s1, s3] && n.shotNumber == s3.shotNumber && n.holeNumber == s3.holeNumber
  {
    DeleteMiddle(s1, s2, s3);
    ThirdOnHole(s1, s3, 1, location, club, id, timestamp);
  }

  /**
   * `getLastShotDistance` measures from the second-to-last to the last shot of
   * the hole in insertion order: two indices `i < j` on the hole with no other
   * shot of the hole after `i` — whatever their shot numbers say.
   */
  lemma LastShotDistancePair(shots: seq<Shot>, hole: int) returns (i: nat, j: nat)
    requires LastShotDistance(shots, hole).Some?
    ensures i < j < |shots| && shots[i].holeNumber == hole && shots[j].holeNumber == hole
    ensures LastShotDistance(shots, hole) == Some(Yards(shots[i].coordinate, shots[j].coordinate))
    ensures forall k :: i < k < |shots| && k != j ==> shots[k].holeNumber != hole
  {
    var p := IsOnHole(hole);
    var r := OnHole(shots, hole);
    i, j := FilterLastTwo(shots, p);
    assert p(shots[i]) && p(shots[j]);
    forall k | i < k < |shots| && k != j ensures shots[k].holeNumber != hole {
      assert !p(shots[k]);
    }
  }

  /** `getLastShotDistance` is empty exactly when no two shots of the list lie on the hole. */
  lemma LastShotDistanceEmpty(shots: seq<Shot>, hole: int)
    ensures LastShotDistance(shots, hole).None? <==>
            forall i, j :: 0 <= i < j < |shots| && shots[i].holeNumber == hole ==> shots[j].holeNumber != hole
  {
    if LastShotDistance(shots, hole).Some? {
      var i, j := LastShotDistancePair(shots, hole);
    } else {
      var p := IsOnHole(hole);
      forall i, j | 0 <= i < j < |shots| && shots[i].holeNumber == hole
        ensures shots[j].holeNumber != hole
      {
        if shots[j].holeNumber == hole {
          FilterTwo(shots, p, i, j);
        }
      }
    }
  }

  /** A shot on another hole does not change the current hole's last-shot distance. */
  lemma LastShotDistanceOtherHole(shots: seq<Shot>, hole: int, s: Shot)
    requires s.holeNumber != hole
    ensures LastShotDistance(shots + [s], hole) == LastShotDistance(shots, hole)
  {
    FilterConcat(shots, [s], IsOnHole(hole));
    assert [s][..0] == [];
  }

  /**
   * After creating a shot, the last shot is the new one and, when the hole
   * already had one, the last-shot distance runs from the previous shot of the
   * hole to the new one.
   */
  lemma CreateThenQuery(shots: seq<Shot>, hole: int, location: UserLocation, club: string,
                        id: string, timestamp: int)
    ensures var n := NewShot(shots, hole, location, club, id, timestamp);
            var prev := OnHole(shots, hole);
            && LastShot(shots + [n]) == Some(n)
            && LastShotDistance(shots + [n], hole) ==
               if |prev| == 0 then None else Some(Yards(prev[|prev| - 1].coordinate, n.coordinate))
  {
    CreateOnHole(shots, hole, location, club, id, timestamp, hole);
  }
}
