/**
 * Properties of the parking-lot state machine of LotSpec: the lot invariant is kept
 * by every operation, park is first-fit and changes exactly one cell, availableSpot
 * shrinks by the claimed cell, unpark's error cases change nothing, and park
 * followed by unpark restores the grid while the history keeps the spot.
 */
module LotProperties {
  import opened Wrappers
  import opened SpotIds
  import opened LotSpec

  predicate SameShape(st: LotState, st2: LotState) {
    st.floors == st2.floors && st.rows == st2.rows && st.cols == st2.cols
  }

  // ---------------------------------------------------------------------------
  // Spot ids handed out by the lot
  // ---------------------------------------------------------------------------

  /** The id of a grid cell reads back, through unpark's scan, as that cell. */
  lemma ScanOfSpotIdOf(st: LotState, p: Pos)
    requires WellShaped(st) && InBounds(st, p)
    ensures |Split(SpotIdOf(p))| == 3 && Scannable(SpotIdOf(p))
    ensures ScanSpotId(SpotIdOf(p)) == p
  {
    SplitOfFormatSpotId(p.floor, p.row, p.col);
    ParseFormatRoundTrip(p.floor, p.row, p.col);
  }

  /** Distinct cells get distinct ids. */
  lemma SpotIdOfInjective(st: LotState, p: Pos, q: Pos)
    requires WellShaped(st) && InBounds(st, p) && InBounds(st, q)
    ensures SpotIdOf(p) == SpotIdOf(q) <==> p == q
  {
    ScanOfSpotIdOf(st, p);
    ScanOfSpotIdOf(st, q);
  }

  // ---------------------------------------------------------------------------
  // park
  // ---------------------------------------------------------------------------

  /**
   * park is first-fit: it succeeds exactly when some active, free cell of the type
   * exists, and then returns the id of the first such cell in floor/row/column
   * order, which it hands to v. That cell alone changes; both maps now send v to the id.
   * On failure nothing changes.
   */
  lemma ParkEffect(st: LotState, t: VehicleType, v: string)
    requires WellShaped(st)
    ensures var (st2, res) := ParkStep(st, t, v);
      && SameShape(st, st2) && WellShaped(st2)
      && (res.Success? <==> exists p :: InBounds(st, p) && Matches(At(st, p), t))
      && (res.Failure? ==> res.error == NoAvailableSpot && st2 == st)
      && (res.Success? ==>
            exists p :: InBounds(st, p) && res.value == SpotIdOf(p)
              && Matches(At(st, p), t)
              && (forall q :: InBounds(st, q) && Precedes(q, p) ==> !Matches(At(st, q), t))
              && At(st2, p) == At(st, p).(occupied := true, vehicleNo := v)
              && (forall q :: InBounds(st, q) && q != p ==> At(st2, q) == At(st, q))
              && st2.vehicleMap == st.vehicleMap[v := res.value]
              && st2.lastSpotMap == st.lastSpotMap[v := res.value])
  {
    var (st2, res) := ParkStep(st, t, v);
    match FirstMatch(st, t)
    case None =>
    case Some(p) =>
  }

  /**
   * First fit, characterised: park picks p exactly when p is an in-grid cell that
   * matches and no cell before p in floor/row/column order matches.
   */
  lemma FirstMatchIsFirstFit(st: LotState, t: VehicleType, p: Pos)
    requires WellShaped(st)
    ensures FirstMatch(st, t) == Some(p)
        <==> InBounds(st, p) && Matches(At(st, p), t)
             && forall q :: InBounds(st, q) && Precedes(q, p) ==> !Matches(At(st, q), t)
  {
    if InBounds(st, p) && Matches(At(st, p), t)
       && forall q :: InBounds(st, q) && Precedes(q, p) ==> !Matches(At(st, q), t)
    {
      var m := FirstMatch(st, t);
      assert m.Some?;
      var q := m.value;
      assert !Precedes(q, p);
      assert !Precedes(p, q);
    }
  }

  /** Listings agree from (f, r, c) on when the two grids agree on matching from there. */
  lemma {:induction false} AvailFromAgree(st: LotState, st2: LotState, f: nat, r: nat, c: nat, t: VehicleType)
    requires WellShaped(st) && WellShaped(st2) && SameShape(st, st2)
    requires forall q :: InBounds(st, q) && NotBefore(q, f, r, c) ==> Matches(At(st, q), t) == Matches(At(st2, q), t)
    ensures AvailFrom(st2, f, r, c, t) == AvailFrom(st, f, r, c, t)
    decreases st.floors - f, st.rows - r, st.cols - c
  {
    if f >= st.floors {
    } else if r >= st.rows {
      AvailFromAgree(st, st2, f + 1, 0, 0, t);
    } else if c >= st.cols {
      AvailFromAgree(st, st2, f, r + 1, 0, t);
    } else {
      assert NotBefore(Pos(f, r, c), f, r, c);
      AvailFromAgree(st, st2, f, r, c + 1, t);
    }
  }

  /** The two grids agree everywhere except at p, where the second no longer matches t. */
  ghost predicate ClaimedAt(st: LotState, st2: LotState, p: Pos, t: VehicleType) {
    && WellShaped(st) && WellShaped(st2) && SameShape(st, st2) && InBounds(st, p)
    && (forall q :: InBounds(st, q) && q != p ==> At(st2, q) == At(st, q))
    && !Matches(At(st2, p), t)
  }

  /** At the claimed head itself: the first listing is p followed by the second listing. */
  lemma ClaimAtHead(st: LotState, st2: LotState, p: Pos, t: VehicleType)
    requires ClaimedAt(st, st2, p, t)
    requires AvailFrom(st, p.floor, p.row, p.col, t) != [] && AvailFrom(st, p.floor, p.row, p.col, t)[0] == p
    ensures AvailFrom(st2, p.floor, p.row, p.col, t) == AvailFrom(st, p.floor, p.row, p.col, t)[1..]
  {
    var (f, r, c) := (p.floor, p.row, p.col);
    AvailFromMember(st, f, r, c + 1, t, p);
    assert Matches(At(st, p), t);
    assert AvailFrom(st, f, r, c, t) == [p] + AvailFrom(st, f, r, c + 1, t);
    assert AvailFrom(st2, f, r, c, t) == AvailFrom(st2, f, r, c + 1, t);
    AvailFromAgree(st, st2, f, r, c + 1, t);
  }

  /** Before the claimed head, a cell matches in neither grid and the scan moves on. */
  lemma ClaimSkipsCell(st: LotState, st2: LotState, p: Pos, f: nat, r: nat, c: nat, t: VehicleType)
    requires ClaimedAt(st, st2, p, t)
    requires f < st.floors && r < st.rows && c < st.cols && Pos(f, r, c) != p
    requires AvailFrom(st, f, r, c, t) != [] && AvailFrom(st, f, r, c, t)[0] == p
    ensures AvailFrom(st, f, r, c + 1, t) != [] && AvailFrom(st, f, r, c + 1, t)[0] == p
    ensures AvailFrom(st, f, r, c, t) == AvailFrom(st, f, r, c + 1, t)
    ensures AvailFrom(st2, f, r, c, t) == AvailFrom(st2, f, r, c + 1, t)
  {
    var here := Pos(f, r, c);
    assert !Matches(At(st, here), t);
    assert At(st2, here) == At(st, here);
  }

  /** Taking the head cell p of a listing out of matching drops exactly that head. */
  lemma {:induction false} AvailFromClaim(st: LotState, st2: LotState, p: Pos, f: nat, r: nat, c: nat, t: VehicleType)
    requires ClaimedAt(st, st2, p, t)
    requires AvailFrom(st, f, r, c, t) != [] && AvailFrom(st, f, r, c, t)[0] == p
    ensures AvailFrom(st2, f, r, c, t) == AvailFrom(st, f, r, c, t)[1..]
    decreases st.floors - f, st.rows - r, st.cols - c
  {
    if f >= st.floors {
    } else if r >= st.rows {
      AvailFromClaim(st, st2, p, f + 1, 0, 0, t);
    } else if c >= st.cols {
      AvailFromClaim(st, st2, p, f, r + 1, 0, t);
    } else if Pos(f, r, c) == p {
      ClaimAtHead(st, st2, p, t);
    } else {
      ClaimSkipsCell(st, st2, p, f, r, c, t);
      AvailFromClaim(st, st2, p, f, r, c + 1, t);
    }
  }

  /**
   * The id park returns is the head of availableSpot's list for that type; after a
   * successful park that list loses exactly its head, and the lists of every other
   * type are unchanged.
   */
  lemma ParkShrinksAvailable(st: LotState, t: VehicleType, v: string, other: VehicleType)
    requires WellShaped(st)
    requires ParkStep(st, t, v).1.Success?
    ensures Available(st, t) != []
    ensures ParkStep(st, t, v).1.value == Ids(Available(st, t))[0]
    ensures Available(ParkStep(st, t, v).0, t) == Available(st, t)[1..]
    ensures other != t ==> Available(ParkStep(st, t, v).0, other) == Available(st, other)
  {
    var st2 := ParkStep(st, t, v).0;
    var p := FirstMatch(st, t).value;
    AvailFromClaim(st, st2, p, 0, 0, 0, t);
    if other != t {
      AvailFromAgree(st, st2, 0, 0, 0, other);
    }
  }

  /** No cell of an unrecognized type is ever active, so park of such a type always fails. */
  lemma UnknownTypeNeverParks(st: LotState, t: VehicleType, v: string)
    requires Inv(st) && !Recognized(t)
    ensures Available(st, t) == []
    ensures ParkStep(st, t, v) == (st, Failure(NoAvailableSpot))
  {
    AvailableExactly(st, t);
    var a := Available(st, t);
    forall q | InBounds(st, q) ensures !Matches(At(st, q), t) {
      assert SpotOk(At(st, q));
    }
    assert forall i :: 0 <= i < |a| ==> a[i] in a;
    assert FirstMatch(st, t).None?;
  }

  /** Claiming a free active cell keeps every cell SpotOk. */
  lemma ClaimKeepsCellsOk(st: LotState, p: Pos, v: string)
    requires WellShaped(st) && CellsOk(st) && InBounds(st, p) && At(st, p).isActive && !At(st, p).occupied
    ensures WellShaped(Claim(st, p, v))
    ensures CellsOk(Claim(st, p, v))
  {
    var st2 := Claim(st, p, v);
    assert forall q :: InBounds(st, q) ==> At(st2, q) == if q == p then At(st2, p) else At(st, q);
  }

  /** Claiming a free cell keeps every assignment pointing at a cell its vehicle holds. */
  lemma ClaimKeepsAssignments(st: LotState, p: Pos, v: string)
    requires WellShaped(st) && AssignmentsHeld(st) && InBounds(st, p) && !At(st, p).occupied
    ensures WellShaped(Claim(st, p, v))
    ensures AssignmentsHeld(Claim(st, p, v))
  {
    var st2 := Claim(st, p, v);
    forall w | w in st2.vehicleMap
      ensures w in st2.lastSpotMap && st2.lastSpotMap[w] == st2.vehicleMap[w] && HeldBy(st2, st2.vehicleMap[w], w)
    {
      if w == v {
        assert InBounds(st2, p) && SpotIdOf(p) == st2.vehicleMap[w];
      } else {
        var q :| InBounds(st, q) && SpotIdOf(q) == st.vehicleMap[w] && At(st, q).occupied && At(st, q).vehicleNo == w;
        assert InBounds(st2, q) && SpotIdOf(q) == st2.vehicleMap[w] && At(st2, q).occupied;
      }
    }
  }

  /** Claiming a cell keeps every history entry naming a grid cell. */
  lemma ClaimKeepsHistory(st: LotState, p: Pos, v: string)
    requires WellShaped(st) && HistoryNamesCells(st) && InBounds(st, p)
    ensures WellShaped(Claim(st, p, v))
    ensures HistoryNamesCells(Claim(st, p, v))
  {
    var st2 := Claim(st, p, v);
    forall w | w in st2.lastSpotMap ensures IsIdOfCell(st2, st2.lastSpotMap[w]) {
      if w == v {
        assert InBounds(st2, p) && SpotIdOf(p) == st2.lastSpotMap[w];
      } else {
        var q :| InBounds(st, q) && SpotIdOf(q) == st.lastSpotMap[w];
        assert InBounds(st2, q) && SpotIdOf(q) == st2.lastSpotMap[w];
      }
    }
  }

  /** park keeps the lot invariant. */
  lemma ParkPreservesInv(st: LotState, t: VehicleType, v: string)
    requires Inv(st)
    ensures Inv(ParkStep(st, t, v).0)
  {
    match FirstMatch(st, t)
    case None =>
    case Some(p) =>
      ClaimKeepsCellsOk(st, p, v);
      ClaimKeepsAssignments(st, p, v);
      ClaimKeepsHistory(st, p, v);
  }

  // ---------------------------------------------------------------------------
  // unpark
  // ---------------------------------------------------------------------------

  /** An id that does not split into exactly three pieces is refused, and nothing changes. */
  lemma UnparkMalformedId(st: LotState, spotId: string, v: string)
    requires WellShaped(st) && Scannable(spotId)
    requires |Split(spotId)| != 3
    ensures UnparkStep(st, spotId, v) == (st, Fail(InvalidSpotId))
  {
  }

  /** In particular an id formatted from a negative coordinate is refused as "invalid spot id". */
  lemma UnparkNegativeCoordinate(st: LotState, f: int, r: int, c: int, v: string)
    requires WellShaped(st)
    requires f < 0 || r < 0 || c < 0
    ensures Scannable(FormatSpotId(f, r, c))
    ensures UnparkStep(st, FormatSpotId(f, r, c), v) == (st, Fail(InvalidSpotId))
  {
    SplitOfFormatSpotId(f, r, c);
  }

  /** A well-formed id past any dimension of the grid is refused as out of bounds, and nothing changes. */
  lemma UnparkOutOfBounds(st: LotState, f: nat, r: nat, c: nat, v: string)
    requires WellShaped(st)
    requires f <= MaxInt64 && r <= MaxInt64 && c <= MaxInt64
    requires f >= st.floors || r >= st.rows || c >= st.cols
    ensures Scannable(FormatSpotId(f, r, c))
    ensures UnparkStep(st, FormatSpotId(f, r, c), v) == (st, Fail(SpotOutOfBounds))
  {
    SplitOfFormatSpotId(f, r, c);
    ParseFormatRoundTrip(f, r, c);
  }

  /**
   * unpark of a grid cell succeeds exactly when the cell is occupied by that vehicle
   * number. Otherwise it fails with "vehicle not found in spot" and nothing changes;
   * on success that cell alone becomes free, v's current assignment is dropped, and
   * the history map is untouched.
   */
  lemma UnparkAtCell(st: LotState, p: Pos, v: string)
    requires WellShaped(st) && InBounds(st, p)
    ensures Scannable(SpotIdOf(p))
    ensures var (st2, res) := UnparkStep(st, SpotIdOf(p), v);
      && SameShape(st, st2) && WellShaped(st2)
      && (res.Pass? <==> At(st, p).occupied && At(st, p).vehicleNo == v)
      && (res.Fail? ==> res.error == VehicleNotFound && st2 == st)
      && (res.Pass? ==>
            && At(st2, p) == At(st, p).(occupied := false, vehicleNo := "")
            && (forall q :: InBounds(st, q) && q != p ==> At(st2, q) == At(st, q))
            && st2.vehicleMap == st.vehicleMap - {v}
            && st2.lastSpotMap == st.lastSpotMap)
  {
    ScanOfSpotIdOf(st, p);
    var (st2, res) := UnparkStep(st, SpotIdOf(p), v);
    if res.Pass? {
    }
  }

  /** A second unpark of the same id by the same vehicle fails and changes nothing. */
  lemma UnparkTwiceFails(st: LotState, spotId: string, v: string)
    requires WellShaped(st) && Scannable(spotId)
    requires UnparkStep(st, spotId, v).1.Pass?
    ensures var st2 := UnparkStep(st, spotId, v).0;
      WellShaped(st2) && UnparkStep(st2, spotId, v) == (st2, Fail(VehicleNotFound))
  {
    var p := ScanSpotId(spotId);
  }

  /** Releasing a cell keeps every cell SpotOk. */
  lemma ReleaseKeepsCellsOk(st: LotState, p: Pos, v: string)
    requires WellShaped(st) && CellsOk(st) && InBounds(st, p)
    ensures WellShaped(Release(st, p, v))
    ensures CellsOk(Release(st, p, v))
  {
    var st2 := Release(st, p, v);
    assert forall q :: InBounds(st, q) ==> At(st2, q) == if q == p then At(st2, p) else At(st, q);
  }

  /** Releasing the cell v holds leaves every other vehicle's assigned cell held by it. */
  lemma ReleaseKeepsHeld(st: LotState, p: Pos, v: string, w: string)
    requires WellShaped(st) && AssignmentsHeld(st) && InBounds(st, p) && At(st, p).vehicleNo == v
    requires w in Release(st, p, v).vehicleMap
    ensures WellShaped(Release(st, p, v))
    ensures HeldBy(Release(st, p, v), Release(st, p, v).vehicleMap[w], w)
  {
    var st2 := Release(st, p, v);
    assert w != v && w in st.vehicleMap && st2.vehicleMap[w] == st.vehicleMap[w];
    assert HeldBy(st, st.vehicleMap[w], w);
    var q :| InBounds(st, q) && SpotIdOf(q) == st.vehicleMap[w] && At(st, q).occupied && At(st, q).vehicleNo == w;
    assert q != p;
    assert InBounds(st2, q) && SpotIdOf(q) == st2.vehicleMap[w] && At(st2, q).occupied && At(st2, q).vehicleNo == w;
  }

  /** Releasing the cell v holds keeps every remaining assignment pointing at a cell its vehicle holds. */
  lemma ReleaseKeepsAssignments(st: LotState, p: Pos, v: string)
    requires WellShaped(st) && AssignmentsHeld(st) && InBounds(st, p) && At(st, p).vehicleNo == v
    ensures WellShaped(Release(st, p, v))
    ensures AssignmentsHeld(Release(st, p, v))
  {
    var st2 := Release(st, p, v);
    forall w | w in st2.vehicleMap
      ensures w in st2.lastSpotMap && st2.lastSpotMap[w] == st2.vehicleMap[w] && HeldBy(st2, st2.vehicleMap[w], w)
    {
      ReleaseKeepsHeld(st, p, v, w);
    }
  }

  /** Releasing a cell leaves the history entries, and the cells they name, as they were. */
  lemma ReleaseKeepsHistory(st: LotState, p: Pos, v: string)
    requires WellShaped(st) && HistoryNamesCells(st) && InBounds(st, p)
    ensures WellShaped(Release(st, p, v))
    ensures HistoryNamesCells(Release(st, p, v))
  {
    var st2 := Release(st, p, v);
    forall w | w in st2.lastSpotMap ensures IsIdOfCell(st2, st2.lastSpotMap[w]) {
      var q :| InBounds(st, q) && SpotIdOf(q) == st.lastSpotMap[w];
      assert InBounds(st2, q) && SpotIdOf(q) == st2.lastSpotMap[w];
    }
  }

  /** unpark keeps the lot invariant. */
  lemma UnparkPreservesInv(st: LotState, spotId: string, v: string)
    requires Inv(st) && Scannable(spotId)
    ensures Inv(UnparkStep(st, spotId, v).0)
  {
    if UnparkStep(st, spotId, v).1.Pass? {
      var p := ScanSpotId(spotId);
      ReleaseKeepsCellsOk(st, p, v);
      ReleaseKeepsAssignments(st, p, v);
      ReleaseKeepsHistory(st, p, v);
    }
  }

  // ---------------------------------------------------------------------------
  // park, then unpark
  // ---------------------------------------------------------------------------

  /** Unparking a claimed cell with the claiming vehicle number succeeds and releases that cell. */
  lemma UnparkOfClaim(st: LotState, p: Pos, v: string)
    requires WellShaped(st) && InBounds(st, p)
    ensures WellShaped(Claim(st, p, v)) && Scannable(SpotIdOf(p))
    ensures UnparkStep(Claim(st, p, v), SpotIdOf(p), v) == (Release(Claim(st, p, v), p, v), Pass)
  {
    ScanOfSpotIdOf(st, p);
  }

  /** Releasing a cell just claimed from a free one restores the grid; only the maps remember. */
  lemma ReleaseUndoesClaim(st: LotState, p: Pos, v: string)
    requires WellShaped(st) && InBounds(st, p)
    requires !At(st, p).occupied && At(st, p).vehicleNo == ""
    ensures WellShaped(Claim(st, p, v))
    ensures Release(Claim(st, p, v), p, v)
         == st.(vehicleMap := st.vehicleMap - {v}, lastSpotMap := st.lastSpotMap[v := SpotIdOf(p)])
  {
    var s := At(st, p);
    assert s.(occupied := true, vehicleNo := v).(occupied := false, vehicleNo := "") == s;
    assert st.cells[p := s.(occupied := true, vehicleNo := v)][p := s] == st.cells;
    assert st.vehicleMap[v := SpotIdOf(p)] - {v} == st.vehicleMap - {v};
  }

  /**
   * Round trip: unparking the id that park just returned, with the same vehicle
   * number, succeeds; the grid is as before the park, so the cell is listed as
   * available again; v has no current assignment; and searchVehicle still reports the id.
   */
  lemma ParkUnparkRoundTrip(st: LotState, t: VehicleType, v: string)
    requires Inv(st)
    requires ParkStep(st, t, v).1.Success?
    ensures var (st2, res) := ParkStep(st, t, v);
      && Scannable(res.value)
      && var (st3, out) := UnparkStep(st2, res.value, v);
      && out == Pass
      && st3.cells == st.cells
      && Available(st3, t) == Available(st, t)
      && st3.vehicleMap == st.vehicleMap - {v}
      && st3.lastSpotMap == st.lastSpotMap[v := res.value]
      && Search(st3, v) == (res.value, true)
  {
    var p := FirstMatch(st, t).value;
    assert SpotOk(At(st, p));
    UnparkOfClaim(st, p, v);
    ReleaseUndoesClaim(st, p, v);
    var st3 := Release(Claim(st, p, v), p, v);
    AvailFromAgree(st, st3, 0, 0, 0, t);
  }

  /** History persists past release: unpark never changes what searchVehicle reports. */
  lemma UnparkKeepsHistory(st: LotState, spotId: string, v: string, w: string)
    requires WellShaped(st) && Scannable(spotId)
    ensures Search(UnparkStep(st, spotId, v).0, w) == Search(st, w)
  {
  }

  /** After a successful park, searchVehicle finds the returned id for that vehicle. */
  lemma ParkRecordsHistory(st: LotState, t: VehicleType, v: string)
    requires WellShaped(st)
    requires ParkStep(st, t, v).1.Success?
    ensures Search(ParkStep(st, t, v).0, v) == (ParkStep(st, t, v).1.value, true)
  {
  }
}
