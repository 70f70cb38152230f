/**
 * The in-memory parking lot of doit-test-simple/main.go as a pure state machine:
 * its state as a value, the construction from a layout, and one step function per
 * operation (park, unpark, availableSpot, searchVehicle). The class in lot.dfy runs
 * the loops of main.go over an array and is proved to take exactly these steps.
 */
module LotSpec {
  import opened Wrappers
  import opened SpotIds

  /** Go's `VehicleType string`; the zero value "" is the type of an unrecognized cell. */
  type VehicleType = string

  const Bicycle: VehicleType := "B"
  const Motorcycle: VehicleType := "M"
  const Automobile: VehicleType := "A"

  predicate Recognized(t: VehicleType) {
    t == Bicycle || t == Motorcycle || t == Automobile
  }

  /** One grid cell. */
  datatype Spot = Spot(spotType: VehicleType, isActive: bool, occupied: bool, vehicleNo: string)

  /** A grid coordinate, as the loops of main.go enumerate them. */
  datatype Pos = Pos(floor: nat, row: nat, col: nat)

  /** The errors the lot returns, with the texts of main.go in ErrorText. */
  datatype LotError = NoAvailableSpot | InvalidSpotId | SpotOutOfBounds | VehicleNotFound

  function ErrorText(e: LotError): string {
    match e
    case NoAvailableSpot => "no available spot"
    case InvalidSpotId => "invalid spot id"
    case SpotOutOfBounds => "spot out of bounds"
    case VehicleNotFound => "vehicle not found in spot"
  }

  /** The four error texts are pairwise distinct, so a caller can tell the errors apart. */
  lemma LotErrorTextsDistinct(e1: LotError, e2: LotError)
    ensures ErrorText(e1) == ErrorText(e2) <==> e1 == e2
  {
  }

  /**
   * The whole state of a ParkingLot: its dimensions, the grid as a map from every
   * coordinate to its cell, the current-spot map and the last-spot history map.
   */
  datatype LotState = LotState(
    floors: nat, rows: nat, cols: nat,
    cells: map<Pos, Spot>,
    vehicleMap: map<string, string>,
    lastSpotMap: map<string, string>)

  predicate InBounds(st: LotState, p: Pos) {
    p.floor < st.floors && p.row < st.rows && p.col < st.cols
  }

  /** The grid has a cell at exactly the coordinates within the dimensions, each within Go's int range. */
  ghost predicate WellShaped(st: LotState) {
    && st.floors <= MaxInt64 && st.rows <= MaxInt64 && st.cols <= MaxInt64
    && forall p :: p in st.cells <==> InBounds(st, p)
  }

  function At(st: LotState, p: Pos): Spot
    requires WellShaped(st) && InBounds(st, p)
  {
    st.cells[p]
  }

  /** The spot id the lot hands out for a coordinate. */
  function SpotIdOf(p: Pos): string {
    FormatSpotId(p.floor, p.row, p.col)
  }

  /** The ids of a list of coordinates, in the same order. */
  function Ids(ps: seq<Pos>): (ids: seq<string>)
    ensures |ids| == |ps|
    ensures forall i :: 0 <= i < |ps| ==> ids[i] == SpotIdOf(ps[i])
  {
    if ps == [] then [] else [SpotIdOf(ps[0])] + Ids(ps[1..])
  }

  /** The test both park and availableSpot apply to a cell. */
  predicate Matches(s: Spot, t: VehicleType) {
    s.isActive && !s.occupied && s.spotType == t
  }

  // ---------------------------------------------------------------------------
  // Scan order
  // ---------------------------------------------------------------------------

  /** p comes strictly before q in floor, then row, then column order. */
  predicate Precedes(p: Pos, q: Pos) {
    p.floor < q.floor || (p.floor == q.floor && (p.row < q.row || (p.row == q.row && p.col < q.col)))
  }

  /** p is at or after the scan position (f, r, c), which may be one past the end of a row or floor. */
  predicate NotBefore(p: Pos, f: int, r: int, c: int) {
    p.floor > f || (p.floor == f && (p.row > r || (p.row == r && p.col >= c)))
  }

  /** The matching cells from scan position (f, r, c) to the end, in scan order. */
  function AvailFrom(st: LotState, f: nat, r: nat, c: nat, t: VehicleType): seq<Pos>
    requires WellShaped(st)
    decreases st.floors - f, st.rows - r, st.cols - c
  {
    if f >= st.floors then []
    else if r >= st.rows then AvailFrom(st, f + 1, 0, 0, t)
    else if c >= st.cols then AvailFrom(st, f, r + 1, 0, t)
    else
      (if Matches(At(st, Pos(f, r, c)), t) then [Pos(f, r, c)] else [])
      + AvailFrom(st, f, r, c + 1, t)
  }

  /** All matching cells of the lot, in scan order. */
  function Available(st: LotState, t: VehicleType): seq<Pos>
    requires WellShaped(st)
  {
    AvailFrom(st, 0, 0, 0, t)
  }

  /** A cell is listed from (f, r, c) exactly when it is in the grid, matches and is not before (f, r, c). */
  lemma {:induction false} AvailFromMember(st: LotState, f: nat, r: nat, c: nat, t: VehicleType, p: Pos)
    requires WellShaped(st)
    ensures p in AvailFrom(st, f, r, c, t)
        <==> InBounds(st, p) && Matches(At(st, p), t) && NotBefore(p, f, r, c)
    decreases st.floors - f, st.rows - r, st.cols - c
  {
    if f >= st.floors {
    } else if r >= st.rows {
      AvailFromMember(st, f + 1, 0, 0, t, p);
    } else if c >= st.cols {
      AvailFromMember(st, f, r + 1, 0, t, p);
    } else {
      AvailFromMember(st, f, r, c + 1, t, p);
    }
  }

  /** The list from (f, r, c) is strictly increasing in scan order and starts at or after (f, r, c). */
  lemma {:induction false} AvailFromSorted(st: LotState, f: nat, r: nat, c: nat, t: VehicleType)
    requires WellShaped(st)
    ensures forall i :: 0 <= i < |AvailFrom(st, f, r, c, t)| ==> NotBefore(AvailFrom(st, f, r, c, t)[i], f, r, c)
    ensures forall i, j :: 0 <= i < j < |AvailFrom(st, f, r, c, t)| ==>
              Precedes(AvailFrom(st, f, r, c, t)[i], AvailFrom(st, f, r, c, t)[j])
    decreases st.floors - f, st.rows - r, st.cols - c
  {
    if f >= st.floors {
    } else if r >= st.rows {
      AvailFromSorted(st, f + 1, 0, 0, t);
    } else if c >= st.cols {
      AvailFromSorted(st, f, r + 1, 0, t);
    } else {
      AvailFromSorted(st, f, r, c + 1, t);
    }
  }

  /**
   * availableSpot, as specified: Available lists exactly the active, free cells of
   * type t, each once, in floor/row/column order.
   */
  lemma AvailableExactly(st: LotState, t: VehicleType)
    requires WellShaped(st)
    ensures forall p :: p in Available(st, t) <==> InBounds(st, p) && Matches(At(st, p), t)
    ensures forall i, j :: 0 <= i < j < |Available(st, t)| ==> Precedes(Available(st, t)[i], Available(st, t)[j])
  {
    forall p ensures p in Available(st, t) <==> InBounds(st, p) && Matches(At(st, p), t) {
      AvailFromMember(st, 0, 0, 0, t, p);
    }
    AvailFromSorted(st, 0, 0, 0, t);
  }

  /** The first matching cell in scan order, if any: the cell park claims. */
  function FirstMatch(st: LotState, t: VehicleType): (r: Option<Pos>)
    requires WellShaped(st)
    ensures r.None? <==> forall p :: InBounds(st, p) ==> !Matches(At(st, p), t)
    ensures r.Some? ==> InBounds(st, r.value) && Matches(At(st, r.value), t)
    ensures r.Some? ==> forall q :: InBounds(st, q) && Precedes(q, r.value) ==> !Matches(At(st, q), t)
  {
    AvailableExactly(st, t);
    var a := Available(st, t);
    if a == [] then None
    else
      assert a[0] in a;
      Some(a[0])
  }

  // ---------------------------------------------------------------------------
  // Construction
  // ---------------------------------------------------------------------------

  /** A layout cell "<TYPE>-<FLAG>" becomes a free spot; an unknown TYPE is never active. */
  function CellSpot(cell: string): (s: Spot)
    requires |Split(cell)| >= 2
    ensures !s.occupied && s.vehicleNo == ""
    ensures Recognized(Split(cell)[0]) ==> s.spotType == Split(cell)[0] && s.isActive == (Split(cell)[1] == "1")
    ensures !Recognized(Split(cell)[0]) ==> !s.isActive && s.spotType == ""
  {
    var parts := Split(cell);
    var typ := parts[0];
    var active := parts[1] == "1";
    if typ == "B" then Spot(Bicycle, active, false, "")
    else if typ == "M" then Spot(Motorcycle, active, false, "")
    else if typ == "A" then Spot(Automobile, active, false, "")
    else Spot("", false, false, "")
  }

  /** The layout covers the grid and every cell has at least one "-" (NewParkingLot indexes parts[1]). */
  ghost predicate LayoutFits(layout: seq<seq<seq<string>>>, floors: nat, rows: nat, cols: nat) {
    && floors <= |layout|
    && (forall f :: 0 <= f < floors ==> rows <= |layout[f]|)
    && (forall f, r :: 0 <= f < floors && 0 <= r < rows ==> cols <= |layout[f][r]|)
    && (forall f, r, c :: 0 <= f < floors && 0 <= r < rows && 0 <= c < cols ==> |Split(layout[f][r][c])| >= 2)
  }

  /** The grid NewParkingLot builds: cell (f, r, c) from layout[f][r][c]. */
  function InitialCells(layout: seq<seq<seq<string>>>, floors: nat, rows: nat, cols: nat): map<Pos, Spot>
    requires LayoutFits(layout, floors, rows, cols)
  {
    map f, r, c | 0 <= f < floors && 0 <= r < rows && 0 <= c < cols :: Pos(f, r, c) := CellSpot(layout[f][r][c])
  }

  /** The state NewParkingLot returns: the initial grid and two empty maps. */
  function NewLotState(floors: nat, rows: nat, cols: nat, layout: seq<seq<seq<string>>>): (st: LotState)
    requires floors <= MaxInt64 && rows <= MaxInt64 && cols <= MaxInt64
    requires LayoutFits(layout, floors, rows, cols)
    ensures st.floors == floors && st.rows == rows && st.cols == cols && WellShaped(st)
    ensures st.vehicleMap == map[] && st.lastSpotMap == map[]
    ensures forall p :: InBounds(st, p) ==> At(st, p) == CellSpot(layout[p.floor][p.row][p.col])
  {
    var st := LotState(floors, rows, cols, InitialCells(layout, floors, rows, cols), map[], map[]);
    assert forall p :: InBounds(st, p) ==> Pos(p.floor, p.row, p.col) == p;
    st
  }

  // ---------------------------------------------------------------------------
  // Invariant
  // ---------------------------------------------------------------------------

  /** What every reachable cell satisfies: only active cells are held, free cells hold no number, and only known types are active. */
  predicate SpotOk(s: Spot) {
    && (s.occupied ==> s.isActive)
    && (!s.occupied ==> s.vehicleNo == "")
    && (s.isActive ==> Recognized(s.spotType))
  }

  /** id names a cell of the grid. */
  ghost predicate IsIdOfCell(st: LotState, id: string)
    requires WellShaped(st)
  {
    exists p :: InBounds(st, p) && SpotIdOf(p) == id
  }

  /** id names a cell of the grid that v occupies. */
  ghost predicate HeldBy(st: LotState, id: string, v: string)
    requires WellShaped(st)
  {
    exists p :: InBounds(st, p) && SpotIdOf(p) == id && At(st, p).occupied && At(st, p).vehicleNo == v
  }

  /** Every cell of the grid is SpotOk. */
  ghost predicate CellsOk(st: LotState)
    requires WellShaped(st)
  {
    forall p :: InBounds(st, p) ==> SpotOk(At(st, p))
  }

  /** Each current assignment equals the vehicle's history entry and names a cell the vehicle occupies. */
  ghost predicate AssignmentsHeld(st: LotState)
    requires WellShaped(st)
  {
    forall v :: v in st.vehicleMap ==>
      v in st.lastSpotMap && st.lastSpotMap[v] == st.vehicleMap[v] && HeldBy(st, st.vehicleMap[v], v)
  }

  /** Each history entry names a cell of the grid. */
  ghost predicate HistoryNamesCells(st: LotState)
    requires WellShaped(st)
  {
    forall v :: v in st.lastSpotMap ==> IsIdOfCell(st, st.lastSpotMap[v])
  }

  /** The lot invariant. */
  ghost predicate Inv(st: LotState) {
    WellShaped(st) && CellsOk(st) && AssignmentsHeld(st) && HistoryNamesCells(st)
  }

  /** A freshly built lot satisfies the invariant, with every cell free and the maps empty. */
  lemma NewLotInv(floors: nat, rows: nat, cols: nat, layout: seq<seq<seq<string>>>)
    requires floors <= MaxInt64 && rows <= MaxInt64 && cols <= MaxInt64
    requires LayoutFits(layout, floors, rows, cols)
    ensures Inv(NewLotState(floors, rows, cols, layout))
    ensures forall p :: InBounds(NewLotState(floors, rows, cols, layout), p) ==>
              !At(NewLotState(floors, rows, cols, layout), p).occupied
  {
    var st := NewLotState(floors, rows, cols, layout);
    forall p | InBounds(st, p) ensures SpotOk(At(st, p)) && !At(st, p).occupied {
      var cell := layout[p.floor][p.row][p.col];
      assert At(st, p) == CellSpot(cell);
    }
  }

  // ---------------------------------------------------------------------------
  // Operations
  // ---------------------------------------------------------------------------

  /** What a successful park does: claim cell p for v and record its id in both maps. */
  function Claim(st: LotState, p: Pos, v: string): LotState
    requires WellShaped(st) && InBounds(st, p)
  {
    var id := SpotIdOf(p);
    st.(cells := st.cells[p := At(st, p).(occupied := true, vehicleNo := v)],
        vehicleMap := st.vehicleMap[v := id],
        lastSpotMap := st.lastSpotMap[v := id])
  }

  /** What a successful unpark does: free cell p and drop v's current assignment. */
  function Release(st: LotState, p: Pos, v: string): LotState
    requires WellShaped(st) && InBounds(st, p)
  {
    st.(cells := st.cells[p := At(st, p).(occupied := false, vehicleNo := "")],
        vehicleMap := st.vehicleMap - {v})
  }

  /** park(vehicleType, vehicleNumber): first-fit claim, or "no available spot" with nothing changed. */
  function ParkStep(st: LotState, t: VehicleType, v: string): (LotState, Result<string, LotError>)
    requires WellShaped(st)
  {
    match FirstMatch(st, t)
    case None => (st, Failure(NoAvailableSpot))
    case Some(p) => (Claim(st, p, v), Success(SpotIdOf(p)))
  }

  /**
   * unpark ignores the error of its fmt.Sscanf("%d-%d-%d"). The model covers ids whose
   * three pieces, if there are three, are each an optional '+' and decimal digits within
   * the int64 range, which is what ParseSpotID accepts. On those the scan reads the same
   * three numbers. The set is narrower than what Sscanf reads without error: Sscanf also
   * skips blanks before each number, so " 0- 0- 0" scans as 0-0-0 but is not Scannable.
   */
  predicate Scannable(spotId: string) {
    |Split(spotId)| == 3 ==> ParseSpotID(spotId).Success?
  }

  /** The coordinates the scan reads from a three-piece id (never negative: the pieces hold no "-"). */
  function ScanSpotId(spotId: string): Pos
    requires |Split(spotId)| == 3 && ParseSpotID(spotId).Success?
  {
    var id := ParseSpotID(spotId).value;
    Pos(id.floor, id.row, id.col)
  }

  /** unpark(spotId, vehicleNumber): validate the id, the bounds and the holder, then release. */
  function UnparkStep(st: LotState, spotId: string, v: string): (LotState, Outcome<LotError>)
    requires WellShaped(st) && Scannable(spotId)
  {
    if |Split(spotId)| != 3 then (st, Fail(InvalidSpotId))
    else
      var p := ScanSpotId(spotId);
      if p.floor >= st.floors || p.row >= st.rows || p.col >= st.cols then (st, Fail(SpotOutOfBounds))
      else if At(st, p).vehicleNo != v || !At(st, p).occupied then (st, Fail(VehicleNotFound))
      else (Release(st, p, v), Pass)
  }

  /**
   * searchVehicle(vehicleNumber): Go's two-value index on the history map, giving the
   * last spot id the vehicle was given and true, or "" and false if it never parked.
   */
  function Search(st: LotState, v: string): (r: (string, bool))
    ensures r.1 <==> v in st.lastSpotMap
    ensures r.1 ==> r.0 == st.lastSpotMap[v]
    ensures !r.1 ==> r.0 == ""
  {
    if v in st.lastSpotMap then (st.lastSpotMap[v], true) else ("", false)
  }
}
