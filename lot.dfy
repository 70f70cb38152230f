/**
 * The ParkingLot type of doit-test-simple/main.go: a fixed floors x rows x cols grid
 * of spots updated in place, the map from each parked vehicle number to its current
 * spot id, and the map from each vehicle number to the last spot id it was given.
 * Each operation runs the loops of main.go; its contract ties the new state and the
 * result to the step function of LotSpec that it implements.
 */
module Lot {
  import opened Wrappers
  import opened SpotIds
  import opened LotSpec
  import LotProperties

  /** One step of the scan: the cell at (f, r, c) is listed first when it matches. */
  lemma ScanCell(st: LotState, f: nat, r: nat, c: nat, t: VehicleType)
    requires WellShaped(st) && f < st.floors && r < st.rows && c < st.cols
    ensures AvailFrom(st, f, r, c, t)
         == (if Matches(At(st, Pos(f, r, c)), t) then [Pos(f, r, c)] else []) + AvailFrom(st, f, r, c + 1, t)
  {
  }

  /** Ids of a list extended by one position. */
  lemma IdsSnoc(ps: seq<Pos>, p: Pos)
    ensures Ids(ps + [p]) == Ids(ps) + [SpotIdOf(p)]
  {
  }

  /** Moving one cell forward keeps "listed so far" followed by "still to scan" equal to the whole list. */
  lemma ScanAccumulate(st: LotState, found: seq<Pos>, f: nat, r: nat, c: nat, t: VehicleType)
    requires WellShaped(st) && f < st.floors && r < st.rows && c < st.cols
    requires found + AvailFrom(st, f, r, c, t) == Available(st, t)
    ensures (if Matches(At(st, Pos(f, r, c)), t) then found + [Pos(f, r, c)] else found)
            + AvailFrom(st, f, r, c + 1, t) == Available(st, t)
  {
    ScanCell(st, f, r, c, t);
    if Matches(At(st, Pos(f, r, c)), t) {
      assert found + [Pos(f, r, c)] + AvailFrom(st, f, r, c + 1, t) == found + AvailFrom(st, f, r, c, t);
    }
  }

  /** The scan moves from the end of a row to the start of the next. */
  lemma ScanRowEnd(st: LotState, f: nat, r: nat, t: VehicleType)
    requires WellShaped(st) && f < st.floors && r < st.rows
    ensures AvailFrom(st, f, r, st.cols, t) == AvailFrom(st, f, r + 1, 0, t)
  {
  }

  /** The scan moves from the end of a floor to the start of the next. */
  lemma ScanFloorEnd(st: LotState, f: nat, t: VehicleType)
    requires WellShaped(st) && f < st.floors
    ensures AvailFrom(st, f, st.rows, 0, t) == AvailFrom(st, f + 1, 0, 0, t)
  {
  }

  /** Past the last floor nothing is left to scan. */
  lemma ScanEnd(st: LotState, t: VehicleType)
    requires WellShaped(st)
    ensures AvailFrom(st, st.floors, 0, 0, t) == []
  {
  }

  class ParkingLot {
    const floors: nat
    const rows: nat
    const cols: nat
    /** grid[f, r, c] is the spot at floor f, row r, column c. */
    const grid: array3<Spot>
    /** vehicle number -> spot id it currently holds */
    var vehicleMap: map<string, string>
    /** vehicle number -> last spot id it was given */
    var lastSpotMap: map<string, string>
    /** The grid's contents as a value, kept equal to the array. */
    ghost var cells: map<Pos, Spot>

    /** The lot's state as a LotSpec value. */
    ghost function Model(): LotState
      reads this
    {
      LotState(floors, rows, cols, cells, vehicleMap, lastSpotMap)
    }

    /** The array has the lot's dimensions and holds cells; the state satisfies the lot invariant. */
    ghost predicate Valid()
      reads this, grid
    {
      && grid.Length0 == floors && grid.Length1 == rows && grid.Length2 == cols
      && Inv(Model())
      && forall f, r, c :: 0 <= f < floors && 0 <= r < rows && 0 <= c < cols ==>
           grid[f, r, c] == cells[Pos(f, r, c)]
    }

    /** NewParkingLot: build every spot from its "<TYPE>-<FLAG>" layout cell; both maps start empty. */
    constructor (floors: nat, rows: nat, cols: nat, layout: seq<seq<seq<string>>>)
      requires floors <= MaxInt64 && rows <= MaxInt64 && cols <= MaxInt64
      requires LayoutFits(layout, floors, rows, cols)
      ensures Valid() && fresh(grid)
      ensures Model() == NewLotState(floors, rows, cols, layout)
    {
      var g := new Spot[floors, rows, cols];
      var f := 0;
      while f < floors
        invariant 0 <= f <= floors
        invariant forall f', r', c' :: 0 <= f' < f && 0 <= r' < rows && 0 <= c' < cols ==>
                    g[f', r', c'] == CellSpot(layout[f'][r'][c'])
      {
        var r := 0;
        while r < rows
          invariant 0 <= r <= rows
          invariant forall f', r', c' :: 0 <= f' < f && 0 <= r' < rows && 0 <= c' < cols ==>
                      g[f', r', c'] == CellSpot(layout[f'][r'][c'])
          invariant forall r', c' :: 0 <= r' < r && 0 <= c' < cols ==> g[f, r', c'] == CellSpot(layout[f][r'][c'])
        {
          var c := 0;
          while c < cols
            invariant 0 <= c <= cols
            invariant forall f', r', c' :: 0 <= f' < f && 0 <= r' < rows && 0 <= c' < cols ==>
                        g[f', r', c'] == CellSpot(layout[f'][r'][c'])
            invariant forall r', c' :: 0 <= r' < r && 0 <= c' < cols ==> g[f, r', c'] == CellSpot(layout[f][r'][c'])
            invariant forall c' :: 0 <= c' < c ==> g[f, r, c'] == CellSpot(layout[f][r][c'])
          {
            var cell := layout[f][r][c];
            var parts := Split(cell);
            var typ := parts[0];
            var active := parts[1] == "1";
            var spotType: VehicleType := "";
            if typ == "B" {
              spotType := Bicycle;
            } else if typ == "M" {
              spotType := Motorcycle;
            } else if typ == "A" {
              spotType := Automobile;
            } else {
              active := false;
            }
            g[f, r, c] := Spot(spotType, active, false, "");
            c := c + 1;
          }
          r := r + 1;
        }
        f := f + 1;
      }
      this.floors, this.rows, this.cols := floors, rows, cols;
      grid := g;
      vehicleMap := map[];
      lastSpotMap := map[];
      cells := InitialCells(layout, floors, rows, cols);
      new;
      NewLotInv(floors, rows, cols, layout);
    }

    /**
     * park: scan floor, row, column for the first active, free spot of the type,
     * claim it for the vehicle and record its id in both maps; "no available spot" otherwise.
     */
    method Park(vehicleType: VehicleType, vehicleNumber: string) returns (res: Result<string, LotError>)
      requires Valid()
      modifies this, grid
      ensures Valid()
      ensures (Model(), res) == ParkStep(old(Model()), vehicleType, vehicleNumber)
    {
      ghost var st := Model();
      var f := 0;
      while f < floors
        invariant 0 <= f <= floors
        invariant Valid() && Model() == st
        invariant Available(st, vehicleType) == AvailFrom(st, f, 0, 0, vehicleType)
      {
        var r := 0;
        while r < rows
          invariant 0 <= r <= rows
          invariant Valid() && Model() == st
          invariant Available(st, vehicleType) == AvailFrom(st, f, r, 0, vehicleType)
        {
          var c := 0;
          while c < cols
            invariant 0 <= c <= cols
            invariant Valid() && Model() == st
            invariant Available(st, vehicleType) == AvailFrom(st, f, r, c, vehicleType)
          {
            var spot := grid[f, r, c];
            ScanCell(st, f, r, c, vehicleType);
            if spot.isActive && !spot.occupied && spot.spotType == vehicleType {
              ghost var p := Pos(f, r, c);
              assert Available(st, vehicleType)[0] == p;
              grid[f, r, c] := spot.(occupied := true, vehicleNo := vehicleNumber);
              var spotId := FormatSpotId(f, r, c);
              vehicleMap := vehicleMap[vehicleNumber := spotId];
              lastSpotMap := lastSpotMap[vehicleNumber := spotId];
              cells := cells[p := spot.(occupied := true, vehicleNo := vehicleNumber)];
              LotProperties.ParkPreservesInv(st, vehicleType, vehicleNumber);
              return Success(spotId);
            }
            c := c + 1;
          }
          ScanRowEnd(st, f, r, vehicleType);
          r := r + 1;
        }
        ScanFloorEnd(st, f, vehicleType);
        f := f + 1;
      }
      ScanEnd(st, vehicleType);
      return Failure(NoAvailableSpot);
    }

    /**
     * unpark: check the id has three pieces, read its coordinates, check the bounds
     * and that the vehicle holds the spot, then free the spot and drop the vehicle's
     * current assignment. The history map is left alone.
     */
    method Unpark(spotId: string, vehicleNumber: string) returns (res: Outcome<LotError>)
      requires Valid() && Scannable(spotId)
      modifies this, grid
      ensures Valid()
      ensures (Model(), res) == UnparkStep(old(Model()), spotId, vehicleNumber)
    {
      ghost var st := Model();
      var loc := Split(spotId);
      if |loc| != 3 {
        return Fail(InvalidSpotId);
      }
      var p := ScanSpotId(spotId);
      var f, r, c := p.floor, p.row, p.col;
      if f >= floors || r >= rows || c >= cols {
        return Fail(SpotOutOfBounds);
      }
      var spot := grid[f, r, c];
      if spot.vehicleNo != vehicleNumber || !spot.occupied {
        return Fail(VehicleNotFound);
      }
      grid[f, r, c] := spot.(occupied := false, vehicleNo := "");
      vehicleMap := vehicleMap - {vehicleNumber};
      cells := cells[p := spot.(occupied := false, vehicleNo := "")];
      LotProperties.UnparkPreservesInv(st, spotId, vehicleNumber);
      return Pass;
    }

    /** availableSpot: the ids of all active, free spots of the type, in floor/row/column order. */
    method AvailableSpot(vehicleType: VehicleType) returns (spots: seq<string>)
      requires Valid()
      ensures spots == Ids(Available(Model(), vehicleType))
    {
      ghost var st := Model();
      ghost var found: seq<Pos> := [];
      spots := [];
      var f := 0;
      while f < floors
        invariant 0 <= f <= floors
        invariant spots == Ids(found)
        invariant found + AvailFrom(st, f, 0, 0, vehicleType) == Available(st, vehicleType)
      {
        var r := 0;
        while r < rows
          invariant 0 <= r <= rows
          invariant spots == Ids(found)
          invariant found + AvailFrom(st, f, r, 0, vehicleType) == Available(st, vehicleType)
        {
          var c := 0;
          while c < cols
            invariant 0 <= c <= cols
            invariant spots == Ids(found)
            invariant found + AvailFrom(st, f, r, c, vehicleType) == Available(st, vehicleType)
          {
            var spot := grid[f, r, c];
            ScanAccumulate(st, found, f, r, c, vehicleType);
            if spot.isActive && !spot.occupied && spot.spotType == vehicleType {
              IdsSnoc(found, Pos(f, r, c));
              spots := spots + [FormatSpotId(f, r, c)];
              found := found + [Pos(f, r, c)];
            }
            c := c + 1;
          }
          ScanRowEnd(st, f, r, vehicleType);
          r := r + 1;
        }
        ScanFloorEnd(st, f, vehicleType);
        f := f + 1;
      }
      ScanEnd(st, vehicleType);
    }

    /** searchVehicle: the last spot id the vehicle was given, and whether it was ever parked. */
    function SearchVehicle(vehicleNumber: string): (r: (string, bool))
      reads this
      ensures r == Search(Model(), vehicleNumber)
    {
      if vehicleNumber in lastSpotMap then (lastSpotMap[vehicleNumber], true) else ("", false)
    }
  }
}
