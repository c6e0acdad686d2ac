/**
 * `HoleSelector`: the row of hole buttons 1..18 with the current one marked
 * active, and the shot counter of the current hole.
 */
module HoleSelector {
  import opened Seqs
  import opened Geo
  import opened ShotLedger

  /** The number of holes of a round. */
  const HoleCount: nat := 18

  /** One hole button: its hole number and whether it is styled active. */
  datatype HoleButton = HoleButton(hole: int, active: bool)

  /** The hole numbers 1 to 18, in order. */
  function Holes(): (r: seq<int>)
    ensures |r| == HoleCount
    ensures forall i :: 0 <= i < |r| ==> r[i] == i + 1
    ensures forall i, j :: 0 <= i < j < |r| ==> r[i] < r[j]
  {
    seq(HoleCount, i requires 0 <= i < HoleCount => i + 1)
  }

  /** The button of `hole`: active when it is the current hole. */
  function ButtonOf(currentHole: int): int -> HoleButton
  {
    (hole: int) => HoleButton(hole, currentHole == hole)
  }

  /** The buttons the selector renders. */
  function Buttons(currentHole: int): (r: seq<HoleButton>)
    ensures |r| == HoleCount
    ensures forall i :: 0 <= i < |r| ==> r[i].hole == i + 1 && (r[i].active <==> currentHole == i + 1)
  {
    Map(Holes(), ButtonOf(currentHole))
  }

  /** The test of an active button. */
  function IsActive(): HoleButton -> bool
  {
    (b: HoleButton) => b.active
  }

  /** Pressing a button reports its hole to `onHoleChange`. */
  function Pressed(buttons: seq<HoleButton>, i: nat): (h: int)
    requires i < |buttons|
    ensures h == buttons[i].hole
    ensures (forall k :: 0 <= k < |buttons| ==> buttons[k].hole == k + 1) ==> h == i + 1
  {
    buttons[i].hole
  }

  /** `currentShot`: how many shots the current hole holds. */
  function CurrentShot(shots: seq<Shot>, currentHole: int): (n: nat)
    ensures n <= |shots|
    ensures n == 0 <==> forall s :: s in shots ==> s.holeNumber != currentHole
  {
    var r := OnHole(shots, currentHole);
    assert |r| > 0 ==> r[0] in r;
    |r|
  }

  /** Exactly one button is active when the current hole is in 1..18, and none otherwise. */
  lemma ActiveCount(currentHole: int)
    ensures |Filter(Buttons(currentHole), IsActive())| == if 1 <= currentHole <= HoleCount then 1 else 0
  {
    var b := Buttons(currentHole);
    if 1 <= currentHole <= HoleCount {
      FilterExactlyOne(b, IsActive(), currentHole - 1);
    } else {
      FilterNone(b, IsActive());
    }
  }

  /** Pressing button `i` selects hole `i + 1`, whose button is then the only active one. */
  lemma PressSelects(currentHole: int, i: nat)
    requires i < HoleCount
    ensures Pressed(Buttons(currentHole), i) == i + 1
    ensures var after := Buttons(Pressed(Buttons(currentHole), i));
            after[i].active && forall j :: 0 <= j < |after| && j != i ==> !after[j].active
  {
  }

  /** After a shot is recorded, the counter shows that shot's number. */
  lemma CounterShowsNewShot(shots: seq<Shot>, hole: int, location: UserLocation, club: string,
                            id: string, timestamp: int)
    ensures var n := NewShot(shots, hole, location, club, id, timestamp);
            CurrentShot(shots + [n], hole) == n.shotNumber
  {
    CreateOnHole(shots, hole, location, club, id, timestamp, hole);
  }
}
