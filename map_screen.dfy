/**
 * The live `MapScreen` of the mobile app: the club-selection state machine,
 * the id-targeted edits of a shot, the marker data it derives from the
 * ledger, and its two toggles.
 *
 * Map camera moves, alerts and logging are effects on the map view and are
 * not modelled; `handleRecordShot` receives the camera centre (or none, when
 * the map is not ready or the camera read failed).
 */
module MapScreen {
  import opened Wrappers
  import opened Seqs
  import opened Geo
  import opened ShotLedger

  /** What the club selector is open for: recording a shot, adding one, or editing a club. */
  datatype ClubSelectionMode = Record | Add | Edit

  /** The `mode` argument of `handleRequestClubSelection`: `'add' | 'edit'`. */
  datatype RequestMode = AddRequest | EditRequest

  /** One element of `shotMarkersData`; the key and the press callback are the shot's id. */
  datatype MarkerData = MarkerData(shot: Shot, nextShotCoordinate: Option<Coordinate>)

  /** JavaScript truthiness of an optional string: absent and `""` are false. */
  predicate Truthy(s: Option<string>)
  {
    s.Some? && s.value != ""
  }

  /** Gives the shot the club when it carries the id, and leaves it alone otherwise. */
  function SetClubIf(id: string, club: string): Shot -> Shot
  {
    (s: Shot) => if s.id == id then s.(club := Some(club)) else s
  }

  /** Moves the shot to `location` when it carries the id, and leaves it alone otherwise. */
  function SetCoordinateIf(id: string, location: Coordinate): Shot -> Shot
  {
    (s: Shot) => if s.id == id then s.(coordinate := location) else s
  }

  /**
   * The list `handleEditClub` saves: same length and order, the club of every
   * shot with that id replaced, every other field and shot unchanged.
   */
  function EditClub(shots: seq<Shot>, id: string, club: string): (r: seq<Shot>)
    ensures |r| == |shots|
    ensures forall i :: 0 <= i < |shots| ==>
              r[i].(club := shots[i].club) == shots[i]
              && r[i].club == if shots[i].id == id then Some(club) else shots[i].club
  {
    Map(shots, SetClubIf(id, club))
  }

  /**
   * The list `handleEditLocation` saves: same length and order, the coordinate
   * of every shot with that id replaced, every other field and shot unchanged.
   */
  function EditLocation(shots: seq<Shot>, id: string, location: Coordinate): (r: seq<Shot>)
    ensures |r| == |shots|
    ensures forall i :: 0 <= i < |shots| ==>
              r[i].(coordinate := shots[i].coordinate) == shots[i]
              && r[i].coordinate == if shots[i].id == id then location else shots[i].coordinate
  {
    Map(shots, SetCoordinateIf(id, location))
  }

  /** Whether a shot carries the id `handleMarkerPress` looks for. */
  function HasId(id: string): Shot -> bool
  {
    (s: Shot) => s.id == id
  }

  /** The test of `nextShotInHole`: same hole, shot number one higher. */
  function IsNextOf(shot: Shot): Shot -> bool
  {
    (s: Shot) => s.holeNumber == shot.holeNumber && s.shotNumber == shot.shotNumber + 1
  }

  /**
   * `nextShotInHole`: the first shot of the WHOLE list on the same hole whose
   * number is one higher, or none.
   */
  function NextShotInHole(shots: seq<Shot>, shot: Shot): (r: Option<Shot>)
    ensures r.Some? ==> exists i :: 0 <= i < |shots| && shots[i] == r.value
                          && r.value.holeNumber == shot.holeNumber && r.value.shotNumber == shot.shotNumber + 1
                          && forall k :: 0 <= k < i ==>
                               !(shots[k].holeNumber == shot.holeNumber && shots[k].shotNumber == shot.shotNumber + 1)
    ensures r.None? <==> forall i :: 0 <= i < |shots| ==>
                           !(shots[i].holeNumber == shot.holeNumber && shots[i].shotNumber == shot.shotNumber + 1)
  {
    Find(shots, IsNextOf(shot))
  }

  /** The shots given markers: all of them, or only the current hole's. */
  function VisibleShots(shots: seq<Shot>, showPreviousHoles: bool, currentHole: int): (r: seq<Shot>)
    ensures |r| <= |shots|
    ensures showPreviousHoles ==> r == shots
    ensures forall s :: s in r <==> s in shots && (showPreviousHoles || s.holeNumber == currentHole)
  {
    if showPreviousHoles then shots else OnHole(shots, currentHole)
  }

  /** The marker entry of one shot: its next shot is looked up in all of `shots`. */
  function MarkerOf(shots: seq<Shot>): (m: Shot -> MarkerData)
    ensures forall shot :: m(shot).shot == shot
    ensures forall shot :: m(shot).nextShotCoordinate.Some? <==> NextShotInHole(shots, shot).Some?
    ensures forall shot :: m(shot).nextShotCoordinate.Some? ==>
              m(shot).nextShotCoordinate.value == NextShotInHole(shots, shot).value.coordinate
  {
    (shot: Shot) =>
      MarkerData(shot, match NextShotInHole(shots, shot)
                       case None => None
                       case Some(n) => Some(n.coordinate))
  }

  /** The data behind the markers: one entry per visible shot, with its next shot's position. */
  function MarkersData(shots: seq<Shot>, showPreviousHoles: bool, currentHole: int): (r: seq<MarkerData>)
    ensures |r| == |VisibleShots(shots, showPreviousHoles, currentHole)|
    ensures forall i :: 0 <= i < |r| ==>
              && r[i].shot == VisibleShots(shots, showPreviousHoles, currentHole)[i]
              && (r[i].nextShotCoordinate.Some? <==> NextShotInHole(shots, r[i].shot).Some?)
              && (r[i].nextShotCoordinate.Some? ==>
                    r[i].nextShotCoordinate.value == NextShotInHole(shots, r[i].shot).value.coordinate)
  {
    Map(VisibleShots(shots, showPreviousHoles, currentHole), MarkerOf(shots))
  }

  // ---------------------------------------------------------------------------
  // Facts about the edits and the marker view.
  // ---------------------------------------------------------------------------

  /** Editing the club of an id no shot carries changes nothing. */
  lemma EditClubAbsent(shots: seq<Shot>, id: string, club: string)
    requires forall s :: s in shots ==> s.id != id
    ensures EditClub(shots, id, club) == shots
  {
    var r := EditClub(shots, id, club);
    forall i | 0 <= i < |shots| ensures r[i] == shots[i] {
      assert shots[i] in shots;
    }
  }

  /** Editing the location of an id no shot carries changes nothing. */
  lemma EditLocationAbsent(shots: seq<Shot>, id: string, location: Coordinate)
    requires forall s :: s in shots ==> s.id != id
    ensures EditLocation(shots, id, location) == shots
  {
    var r := EditLocation(shots, id, location);
    forall i | 0 <= i < |shots| ensures r[i] == shots[i] {
      assert shots[i] in shots;
    }
  }

  /**
   * A club edit keeps every hole's shots in place: the hole's shots after the
   * edit are the hole's shots before it, edited. So neither the per-hole shot
   * count nor the shot numbering nor the last-shot distance changes.
   */
  lemma EditClubOnHole(shots: seq<Shot>, id: string, club: string, hole: int)
    ensures OnHole(EditClub(shots, id, club), hole) == EditClub(OnHole(shots, hole), id, club)
    ensures |OnHole(EditClub(shots, id, club), hole)| == |OnHole(shots, hole)|
    ensures Contiguous(OnHole(shots, hole)) ==> Contiguous(OnHole(EditClub(shots, id, club), hole))
    ensures LastShotDistance(EditClub(shots, id, club), hole) == LastShotDistance(shots, hole)
  {
    FilterMap(shots, SetClubIf(id, club), IsOnHole(hole), IsOnHole(hole));
  }

  /**
   * A location edit also keeps every hole's shots in place; only the
   * coordinates of the edited shots differ.
   */
  lemma EditLocationOnHole(shots: seq<Shot>, id: string, location: Coordinate, hole: int)
    ensures OnHole(EditLocation(shots, id, location), hole) == EditLocation(OnHole(shots, hole), id, location)
    ensures |OnHole(EditLocation(shots, id, location), hole)| == |OnHole(shots, hole)|
    ensures Contiguous(OnHole(shots, hole)) ==> Contiguous(OnHole(EditLocation(shots, id, location), hole))
  {
    FilterMap(shots, SetCoordinateIf(id, location), IsOnHole(hole), IsOnHole(hole));
  }

  /**
   * With previous holes hidden, the markers are exactly the current hole's
   * shots in insertion order; with them shown, one marker per shot.
   */
  lemma MarkersVisible(shots: seq<Shot>, showPreviousHoles: bool, currentHole: int)
    ensures var r := MarkersData(shots, showPreviousHoles, currentHole);
            && (showPreviousHoles ==> |r| == |shots| && forall i :: 0 <= i < |r| ==> r[i].shot == shots[i])
            && (!showPreviousHoles ==>
                  (forall i :: 0 <= i < |r| ==> r[i].shot.holeNumber == currentHole && r[i].shot in shots)
                  && forall s :: s in shots && s.holeNumber == currentHole ==>
                       exists i :: 0 <= i < |r| && r[i].shot == s)
  {
    var r := MarkersData(shots, showPreviousHoles, currentHole);
    if !showPreviousHoles {
      var v := OnHole(shots, currentHole);
      forall i | 0 <= i < |r| ensures r[i].shot.holeNumber == currentHole && r[i].shot in shots {
        assert r[i].shot == v[i];
        assert v[i] in v;
      }
      forall s | s in shots && s.holeNumber == currentHole ensures exists i :: 0 <= i < |r| && r[i].shot == s {
        assert s in v;
        var i :| 0 <= i < |v| && v[i] == s;
        assert r[i].shot == s;
      }
    }
  }

  /**
   * A marker's next-shot coordinate is looked up in the whole list: hiding
   * previous holes never changes the entry of a shot that stays visible.
   */
  lemma MarkerNextIgnoresFilter(shots: seq<Shot>, currentHole: int, i: nat)
    requires i < |MarkersData(shots, false, currentHole)|
    ensures exists j :: 0 <= j < |shots| && MarkersData(shots, true, currentHole)[j] == MarkersData(shots, false, currentHole)[i]
  {
    var v := OnHole(shots, currentHole);
    var all := MarkersData(shots, true, currentHole);
    var hidden := MarkersData(shots, false, currentHole);
    assert hidden[i].shot == v[i];
    assert v[i] in v;
    var j :| 0 <= j < |shots| && shots[j] == v[i];
    assert all[j].shot == shots[j];
    assert all[j] == hidden[i];
  }

  /**
   * The screen's session state. `ledger` is the `useShotManagement` hook the
   * screen holds; the handlers change these fields and, through the ledger's
   * mutators, the shot list.
   */
  class Session {
    const ledger: Ledger
    var clubSelectionMode: ClubSelectionMode
    var pendingShot: Option<Coordinate>
    var editingShotId: Option<string>
    var showClubSelector: bool
    var showShotEditor: bool
    var selectedShotData: Option<Shot>
    var dotToggle: bool
    var showPreviousHoles: bool

    /** The initial `useState` values. */
    constructor (ledger: Ledger)
      ensures this.ledger == ledger
      ensures clubSelectionMode == Record && pendingShot == None && editingShotId == None
      ensures !showClubSelector && !showShotEditor && selectedShotData == None
      ensures dotToggle && showPreviousHoles
    {
      this.ledger := ledger;
      clubSelectionMode := Record;
      pendingShot := None;
      editingShotId := None;
      showClubSelector := false;
      showShotEditor := false;
      selectedShotData := None;
      dotToggle := true;
      showPreviousHoles := true;
    }

    /**
     * `handleRecordShot`: with the camera centre, take it as the pending shot
     * in record mode and open the club selector; without one, change nothing.
     */
    method HandleRecordShot(center: Option<Coordinate>)
      modifies this
      ensures center.Some? ==> pendingShot == center && clubSelectionMode == Record && showClubSelector
      ensures center.None? ==> pendingShot == old(pendingShot) && clubSelectionMode == old(clubSelectionMode)
                               && showClubSelector == old(showClubSelector)
      ensures editingShotId == old(editingShotId) && showShotEditor == old(showShotEditor)
      ensures selectedShotData == old(selectedShotData)
      ensures dotToggle == old(dotToggle) && showPreviousHoles == old(showPreviousHoles)
    {
      if center.Some? {
        pendingShot := center;
        clubSelectionMode := Record;
        showClubSelector := true;
      }
    }

    /**
     * `handleRequestClubSelection`: the shot editor always closes; `add` with a
     * location and `edit` with a (non-empty) id set up the club selector.
     */
    method HandleRequestClubSelection(mode: RequestMode, shotId: Option<string>, location: Option<Coordinate>)
      modifies this
      ensures !showShotEditor && selectedShotData == None
      ensures mode == AddRequest && location.Some? ==>
                pendingShot == location && editingShotId == None && clubSelectionMode == Add && showClubSelector
      ensures mode == EditRequest && Truthy(shotId) ==>
                pendingShot == None && editingShotId == shotId && clubSelectionMode == Edit && showClubSelector
      ensures !(mode == AddRequest && location.Some?) && !(mode == EditRequest && Truthy(shotId)) ==>
                pendingShot == old(pendingShot) && editingShotId == old(editingShotId)
                && clubSelectionMode == old(clubSelectionMode) && showClubSelector == old(showClubSelector)
      ensures dotToggle == old(dotToggle) && showPreviousHoles == old(showPreviousHoles)
    {
      showShotEditor := false;
      selectedShotData := None;
      if mode == AddRequest && location.Some? {
        pendingShot := location;
        editingShotId := None;
        clubSelectionMode := Add;
        showClubSelector := true;
      } else if mode == EditRequest && Truthy(shotId) {
        pendingShot := None;
        editingShotId := shotId;
        clubSelectionMode := Edit;
        showClubSelector := true;
      }
    }

    /** `handleEditClub`: save the list with that id's club replaced. */
    method HandleEditClub(shotId: string, club: string)
      modifies ledger
      ensures ledger.shots == EditClub(old(ledger.shots), shotId, club)
      ensures ledger.currentHole == old(ledger.currentHole)
      ensures ledger.writes == old(ledger.writes) + [SaveShots(ledger.shots)]
    {
      ledger.UpdateShots(EditClub(ledger.shots, shotId, club));
    }

    /** `handleEditLocation`: save the list with that id's coordinate replaced. */
    method HandleEditLocation(shotId: string, location: Coordinate)
      modifies ledger
      ensures ledger.shots == EditLocation(old(ledger.shots), shotId, location)
      ensures ledger.currentHole == old(ledger.currentHole)
      ensures ledger.writes == old(ledger.writes) + [SaveShots(ledger.shots)]
    {
      ledger.UpdateShots(EditLocation(ledger.shots, shotId, location));
    }

    /**
     * `handleClubSelect`: the selector closes; a pending shot in record or add
     * mode is created (with accuracy 1), an edit with an id changes that club,
     * and afterwards the mode is `record` with nothing pending or edited.
     * `id` and `timestamp` stand for `Date.now()` and `new Date()`.
     */
    method HandleClubSelect(club: string, id: string, timestamp: int)
      modifies this, ledger
      ensures !showClubSelector && clubSelectionMode == Record && pendingShot == None && editingShotId == None
      ensures var creates := old(clubSelectionMode) in {Record, Add} && old(pendingShot).Some?;
              var edits := !creates && old(clubSelectionMode) == Edit && Truthy(old(editingShotId));
              && (creates ==>
                    var p := old(pendingShot).value;
                    ledger.shots == old(ledger.shots) +
                      [NewShot(old(ledger.shots), old(ledger.currentHole),
                               UserLocation(p.latitude, p.longitude, 1.0), club, id, timestamp)]
                    && ledger.writes == old(ledger.writes) + [SaveShots(ledger.shots)])
              && (edits ==>
                    ledger.shots == EditClub(old(ledger.shots), old(editingShotId).value, club)
                    && ledger.writes == old(ledger.writes) + [SaveShots(ledger.shots)])
              && (!creates && !edits ==> ledger.shots == old(ledger.shots) && ledger.writes == old(ledger.writes))
      ensures ledger.currentHole == old(ledger.currentHole)
      ensures showShotEditor == old(showShotEditor) && selectedShotData == old(selectedShotData)
      ensures dotToggle == old(dotToggle) && showPreviousHoles == old(showPreviousHoles)
    {
      showClubSelector := false;
      if clubSelectionMode == Record && pendingShot.Some? {
        var p := pendingShot.value;
        ledger.CreateShot(UserLocation(p.latitude, p.longitude, 1.0), club, id, timestamp);
      } else if clubSelectionMode == Add && pendingShot.Some? {
        var p := pendingShot.value;
        ledger.CreateShot(UserLocation(p.latitude, p.longitude, 1.0), club, id, timestamp);
      } else if clubSelectionMode == Edit && Truthy(editingShotId) {
        HandleEditClub(editingShotId.value, club);
      }
      clubSelectionMode := Record;
      pendingShot := None;
      editingShotId := None;
    }

    /** The club selector's `onCancel`: back to record mode, nothing pending; the ledger is untouched. */
    method HandleCancel()
      modifies this
      ensures clubSelectionMode == Record && pendingShot == None && editingShotId == None && !showClubSelector
      ensures showShotEditor == old(showShotEditor) && selectedShotData == old(selectedShotData)
      ensures dotToggle == old(dotToggle) && showPreviousHoles == old(showPreviousHoles)
    {
      pendingShot := None;
      editingShotId := None;
      clubSelectionMode := Record;
      showClubSelector := false;
    }

    /** `handleMarkerPress`: open the editor on the first shot with that id, if there is one. */
    method HandleMarkerPress(shotId: string)
      modifies this
      ensures var found := Find(ledger.shots, HasId(shotId));
              && (found.Some? ==> selectedShotData == found && showShotEditor)
              && (found.None? ==> selectedShotData == old(selectedShotData) && showShotEditor == old(showShotEditor))
      ensures clubSelectionMode == old(clubSelectionMode) && pendingShot == old(pendingShot)
      ensures editingShotId == old(editingShotId) && showClubSelector == old(showClubSelector)
      ensures dotToggle == old(dotToggle) && showPreviousHoles == old(showPreviousHoles)
    {
      var found := Find(ledger.shots, HasId(shotId));
      if found.Some? {
        selectedShotData := found;
        showShotEditor := true;
      }
    }

    /**
     * `handleDotToggle`: both of its tests read the value of the render that
     * made the handler, so exactly one of them fires and the flag flips.
     */
    method HandleDotToggle()
      modifies this
      ensures dotToggle == !old(dotToggle)
      ensures showPreviousHoles == old(showPreviousHoles)
      ensures clubSelectionMode == old(clubSelectionMode) && pendingShot == old(pendingShot)
      ensures editingShotId == old(editingShotId) && showClubSelector == old(showClubSelector)
      ensures showShotEditor == old(showShotEditor) && selectedShotData == old(selectedShotData)
    {
      var rendered := dotToggle;
      if rendered { dotToggle := false; }
      if !rendered { dotToggle := true; }
    }

    /** `handlePreviousHolesToggle`: flip the flag. */
    method HandlePreviousHolesToggle()
      modifies this
      ensures showPreviousHoles == !old(showPreviousHoles)
      ensures dotToggle == old(dotToggle)
      ensures clubSelectionMode == old(clubSelectionMode) && pendingShot == old(pendingShot)
      ensures editingShotId == old(editingShotId) && showClubSelector == old(showClubSelector)
      ensures showShotEditor == old(showShotEditor) && selectedShotData == old(selectedShotData)
    {
      showPreviousHoles := !showPreviousHoles;
    }

    /** The markers the screen renders from its current state. */
    function Markers(): (r: seq<MarkerData>)
      reads this, ledger
      ensures |r| <= |ledger.shots|
      ensures forall i :: 0 <= i < |r| ==>
                r[i].shot in ledger.shots && (showPreviousHoles || r[i].shot.holeNumber == ledger.currentHole)
    {
      MarkersData(ledger.shots, showPreviousHoles, ledger.currentHole)
    }
  }
}
