/**
 * The scenarios of doit-test-simple/main_test.go, replayed on the model: the
 * one-floor, two-row, three-column test lot, the expected spot ids of TestPark,
 * the two unpark cases, the availability counts and the three searches.
 */
module LotScenarios {
  import opened Wrappers
  import opened SpotIds
  import opened LotSpec
  import opened LotProperties
  import Lot

  /** The layout of createTestLot: B M X on row 0, A M A on row 1 (X is not a vehicle type). */
  const TestLayout: seq<seq<seq<string>>> := [[["B-1", "M-1", "X-0"], ["A-1", "M-1", "A-1"]]]

  /** A layout cell "<TYPE>-<FLAG>" splits into its two parts. */
  lemma SplitCell(cell: string, a: string, b: string)
    requires '-' !in a && '-' !in b && cell == a + "-" + b
    ensures Split(cell) == [a, b]
  {
    SplitJoin(a, b);
    SplitWithoutDash(a);
    SplitWithoutDash(b);
  }

  lemma TestCellsSplit()
    ensures Split("B-1") == ["B", "1"] && Split("M-1") == ["M", "1"]
    ensures Split("X-0") == ["X", "0"] && Split("A-1") == ["A", "1"]
  {
    SplitCell("B-1", "B", "1");
    SplitCell("M-1", "M", "1");
    SplitCell("X-0", "X", "0");
    SplitCell("A-1", "A", "1");
  }

  /** The spot each kind of test cell becomes: "X" is no vehicle type, so that cell is inactive. */
  lemma TestCellSpots()
    ensures CellSpot("B-1") == Free(Bicycle) && CellSpot("M-1") == Free(Motorcycle)
    ensures CellSpot("X-0") == Off && CellSpot("A-1") == Free(Automobile)
  {
    TestCellsSplit();
  }

  lemma TestLayoutFits()
    ensures LayoutFits(TestLayout, 1, 2, 3)
  {
    TestCellsSplit();
  }

  /** createTestLot: the spots the test layout gives, row by row. */
  function TestLot(): (st: LotState)
    ensures TestShaped(st)
    ensures Table(st) == T0
    ensures st.vehicleMap == map[] && st.lastSpotMap == map[]
  {
    TestLayoutFits();
    TestCellSpots();
    var st := NewLotState(1, 2, 3, TestLayout);
    assert At(st, Pos(0, 0, 0)) == CellSpot("B-1") && At(st, Pos(0, 0, 1)) == CellSpot("M-1");
    assert At(st, Pos(0, 0, 2)) == CellSpot("X-0") && At(st, Pos(0, 1, 0)) == CellSpot("A-1");
    assert At(st, Pos(0, 1, 1)) == CellSpot("M-1") && At(st, Pos(0, 1, 2)) == CellSpot("A-1");
    st
  }

  const T0 := [Free(Bicycle), Free(Motorcycle), Off, Free(Automobile), Free(Motorcycle), Free(Automobile)]

  /** Every cell of a test-shaped lot is one of Cells; Cells is in scan order. */
  lemma CellIndex(st: LotState, q: Pos) returns (j: nat)
    requires TestShaped(st) && InBounds(st, q)
    ensures j < 6 && Cells[j] == q
  {
    j := if q.row == 0 then q.col else 3 + q.col;
  }

  lemma CellsInScanOrder(i: nat, j: nat)
    requires i < 6 && j < 6
    ensures Precedes(Cells[j], Cells[i]) <==> j < i
  {
  }

  lemma ParkKeepsShape(st: LotState, t: VehicleType, v: string)
    requires WellShaped(st)
    ensures WellShaped(ParkStep(st, t, v).0)
  {
    ParkEffect(st, t, v);
  }

  /** The test's "fill up for previous test cases" loop: park each request in turn, collecting the results. */
  function ParkAll(st: LotState, reqs: seq<(VehicleType, string)>): (results: seq<Result<string, LotError>>)
    requires WellShaped(st)
    ensures |results| == |reqs|
    decreases |reqs|
  {
    if reqs == [] then []
    else
      ParkKeepsShape(st, reqs[0].0, reqs[0].1);
      var (st2, res) := ParkStep(st, reqs[0].0, reqs[0].1);
      [res] + ParkAll(st2, reqs[1..])
  }

  /** The state the "fill up" loop leaves: each request parked in turn, on a grid of unchanged shape. */
  function ParkAllState(st: LotState, reqs: seq<(VehicleType, string)>): (st2: LotState)
    requires WellShaped(st)
    ensures WellShaped(st2) && SameShape(st, st2)
    decreases |reqs|
  {
    if reqs == [] then st
    else
      ParkEffect(st, reqs[0].0, reqs[0].1);
      ParkAllState(ParkStep(st, reqs[0].0, reqs[0].1).0, reqs[1..])
  }

  /** Running requests k.. is running request k, then k + 1.. from the state it leaves. */
  lemma ParkAllUnfold(st: LotState, reqs: seq<(VehicleType, string)>, k: nat)
    requires WellShaped(st) && k < |reqs|
    ensures WellShaped(ParkStep(st, reqs[k].0, reqs[k].1).0)
    ensures ParkAll(st, reqs[k..])
      == [ParkStep(st, reqs[k].0, reqs[k].1).1] + ParkAll(ParkStep(st, reqs[k].0, reqs[k].1).0, reqs[k + 1..])
    ensures ParkAllState(st, reqs[k..]) == ParkAllState(ParkStep(st, reqs[k].0, reqs[k].1).0, reqs[k + 1..])
  {
    ParkKeepsShape(st, reqs[k].0, reqs[k].1);
    assert reqs[k..][0] == reqs[k] && reqs[k..][1..] == reqs[k + 1..];
  }

  /** One more request at the front of the run: its result comes first. */
  lemma ParkAllFrom(st: LotState, reqs: seq<(VehicleType, string)>, results: seq<Result<string, LotError>>, k: nat)
    requires WellShaped(st) && k < |reqs| && k < |results|
    requires ParkStep(st, reqs[k].0, reqs[k].1).1 == results[k]
    requires ParkAll(ParkStep(st, reqs[k].0, reqs[k].1).0, reqs[k + 1..]) == results[k + 1..]
    ensures ParkAll(st, reqs[k..]) == results[k..]
  {
    assert reqs[k..][0] == reqs[k] && reqs[k..][1..] == reqs[k + 1..];
    assert results[k..] == [results[k]] + results[k + 1..];
  }

  /** park claims p when p is the first matching cell. */
  lemma ParksAt(st: LotState, t: VehicleType, v: string, p: Pos)
    requires WellShaped(st) && InBounds(st, p) && Matches(At(st, p), t)
    requires forall q :: InBounds(st, q) && Precedes(q, p) ==> !Matches(At(st, q), t)
    ensures ParkStep(st, t, v) == (Claim(st, p, v), Success(SpotIdOf(p)))
  {
    FirstMatchIsFirstFit(st, t, p);
  }

  /** park fails when no cell matches. */
  lemma ParksNowhere(st: LotState, t: VehicleType, v: string)
    requires WellShaped(st)
    requires forall q :: InBounds(st, q) ==> !Matches(At(st, q), t)
    ensures ParkStep(st, t, v) == (st, Failure(NoAvailableSpot))
  {
  }

  function Free(t: VehicleType): Spot { Spot(t, true, false, "") }
  function Taken(t: VehicleType, v: string): Spot { Spot(t, true, true, v) }
  const Off: Spot := Spot("", false, false, "")

  /** A state shaped like the test lot. */
  ghost predicate TestShaped(st: LotState) {
    WellShaped(st) && st.floors == 1 && st.rows == 2 && st.cols == 3
  }

  /** The six spots of a test-shaped lot, row by row. */
  function Table(st: LotState): (row: seq<Spot>)
    requires TestShaped(st)
    ensures |row| == 6 && forall j :: 0 <= j < 6 ==> row[j] == At(st, Cells[j])
  {
    [At(st, Pos(0, 0, 0)), At(st, Pos(0, 0, 1)), At(st, Pos(0, 0, 2)),
     At(st, Pos(0, 1, 0)), At(st, Pos(0, 1, 1)), At(st, Pos(0, 1, 2))]
  }

  /** The cells of the test lot in scan order; Table lists their spots in the same order. */
  const Cells: seq<Pos> := [Pos(0, 0, 0), Pos(0, 0, 1), Pos(0, 0, 2), Pos(0, 1, 0), Pos(0, 1, 1), Pos(0, 1, 2)]

  /** Claiming cell i of a test-shaped lot changes entry i of its table and no other. */
  lemma ClaimOnTable(st: LotState, v: string, i: nat)
    requires TestShaped(st) && i < 6
    ensures TestShaped(Claim(st, Cells[i], v))
    ensures Table(Claim(st, Cells[i], v)) == Table(st)[i := Table(st)[i].(occupied := true, vehicleNo := v)]
  {
    var st2 := Claim(st, Cells[i], v);
    assert TestShaped(st2);
    forall j | 0 <= j < 6 ensures Table(st2)[j] == Table(st)[i := Table(st)[i].(occupied := true, vehicleNo := v)][j] {
    }
  }

  /** park on a test-shaped lot claims the first matching entry of its table. */
  lemma ParkOnTable(st: LotState, t: VehicleType, v: string, i: nat)
    requires TestShaped(st) && i < 6 && Matches(Table(st)[i], t)
    requires forall j :: 0 <= j < i ==> !Matches(Table(st)[j], t)
    ensures ParkStep(st, t, v) == (Claim(st, Cells[i], v), Success(SpotIdOf(Cells[i])))
  {
    forall q | InBounds(st, q) && Precedes(q, Cells[i]) ensures !Matches(At(st, q), t) {
      var j := CellIndex(st, q);
      CellsInScanOrder(i, j);
    }
    ParksAt(st, t, v, Cells[i]);
  }

  /** park on a test-shaped lot fails when no entry of its table matches. */
  lemma ParkFailsOnTable(st: LotState, t: VehicleType, v: string)
    requires TestShaped(st)
    requires forall j :: 0 <= j < 6 ==> !Matches(Table(st)[j], t)
    ensures ParkStep(st, t, v) == (st, Failure(NoAvailableSpot))
  {
    forall q | InBounds(st, q) ensures !Matches(At(st, q), t) {
      var j := CellIndex(st, q);
      assert Table(st)[j] == At(st, q);
    }
    ParksNowhere(st, t, v);
  }

  /** The ids of the test cells that TestPark, TestUnpark and TestSearchVehicle expect. */
  lemma CellIds()
    ensures SpotIdOf(Cells[0]) == "0-0-0" && SpotIdOf(Cells[1]) == "0-0-1"
    ensures SpotIdOf(Cells[3]) == "0-1-0" && SpotIdOf(Cells[4]) == "0-1-1"
    ensures SpotIdOf(Cells[5]) == "0-1-2"
  {
  }

  const TestParkRequests: seq<(VehicleType, string)> :=
    [(Bicycle, "B-001"), (Motorcycle, "M-001"), (Motorcycle, "M-002"), (Motorcycle, "M-003"),
     (Automobile, "A-001"), (Automobile, "A-002"), (Automobile, "A-003")]

  const TestParkResults: seq<Result<string, LotError>> :=
    [Success("0-0-0"), Success("0-0-1"), Success("0-1-1"), Failure(NoAvailableSpot),
     Success("0-1-0"), Success("0-1-2"), Failure(NoAvailableSpot)]

  /** The test lot's table after each successful park of TestPark. */
  const T1 := [Taken(Bicycle, "B-001"), Free(Motorcycle), Off, Free(Automobile), Free(Motorcycle), Free(Automobile)]
  const T2 := [Taken(Bicycle, "B-001"), Taken(Motorcycle, "M-001"), Off, Free(Automobile), Free(Motorcycle), Free(Automobile)]
  const T3 := [Taken(Bicycle, "B-001"), Taken(Motorcycle, "M-001"), Off, Free(Automobile), Taken(Motorcycle, "M-002"), Free(Automobile)]
  const T4 := [Taken(Bicycle, "B-001"), Taken(Motorcycle, "M-001"), Off, Taken(Automobile, "A-001"), Taken(Motorcycle, "M-002"), Free(Automobile)]
  const T5 := [Taken(Bicycle, "B-001"), Taken(Motorcycle, "M-001"), Off, Taken(Automobile, "A-001"), Taken(Motorcycle, "M-002"), Taken(Automobile, "A-002")]

  /** Parks 7, 6, ..., 1 of TestPark, each from the table the earlier ones leave. */
  lemma TestParkFrom6(st: LotState)
    requires TestShaped(st) && Table(st) == T5
    ensures ParkAll(st, TestParkRequests[6..]) == TestParkResults[6..]
  {
    ParkFailsOnTable(st, Automobile, "A-003");
  }

  lemma TestParkFrom5(st: LotState)
    requires TestShaped(st) && Table(st) == T4
    ensures ParkAll(st, TestParkRequests[5..]) == TestParkResults[5..]
  {
    CellIds();
    ParkOnTable(st, Automobile, "A-002", 5);
    ClaimOnTable(st, "A-002", 5);
    TestParkFrom6(Claim(st, Cells[5], "A-002"));
    ParkAllFrom(st, TestParkRequests, TestParkResults, 5);
  }

  lemma TestParkFrom4(st: LotState)
    requires TestShaped(st) && Table(st) == T3
    ensures ParkAll(st, TestParkRequests[4..]) == TestParkResults[4..]
  {
    CellIds();
    ParkOnTable(st, Automobile, "A-001", 3);
    ClaimOnTable(st, "A-001", 3);
    TestParkFrom5(Claim(st, Cells[3], "A-001"));
    ParkAllFrom(st, TestParkRequests, TestParkResults, 4);
  }

  lemma TestParkFrom3(st: LotState)
    requires TestShaped(st) && Table(st) == T3
    ensures ParkAll(st, TestParkRequests[3..]) == TestParkResults[3..]
  {
    ParkFailsOnTable(st, Motorcycle, "M-003");
    TestParkFrom4(st);
    ParkAllFrom(st, TestParkRequests, TestParkResults, 3);
  }

  lemma TestParkFrom2(st: LotState)
    requires TestShaped(st) && Table(st) == T2
    ensures ParkAll(st, TestParkRequests[2..]) == TestParkResults[2..]
  {
    CellIds();
    ParkOnTable(st, Motorcycle, "M-002", 4);
    ClaimOnTable(st, "M-002", 4);
    TestParkFrom3(Claim(st, Cells[4], "M-002"));
    ParkAllFrom(st, TestParkRequests, TestParkResults, 2);
  }

  lemma TestParkFrom1(st: LotState)
    requires TestShaped(st) && Table(st) == T1
    ensures ParkAll(st, TestParkRequests[1..]) == TestParkResults[1..]
  {
    CellIds();
    ParkOnTable(st, Motorcycle, "M-001", 1);
    ClaimOnTable(st, "M-001", 1);
    TestParkFrom2(Claim(st, Cells[1], "M-001"));
    ParkAllFrom(st, TestParkRequests, TestParkResults, 1);
  }

  lemma TestParkFrom0(st: LotState)
    requires TestShaped(st) && Table(st) == T0
    ensures ParkAll(st, TestParkRequests[0..]) == TestParkResults[0..]
  {
    CellIds();
    ParkOnTable(st, Bicycle, "B-001", 0);
    ClaimOnTable(st, "B-001", 0);
    TestParkFrom1(Claim(st, Cells[0], "B-001"));
    ParkAllFrom(st, TestParkRequests, TestParkResults, 0);
  }

  /**
   * TestPark: parking the seven test vehicles in turn on a fresh test lot gives these
   * ids, and fails where the test expects an error (both motorcycle spots, then both
   * car spots, are taken).
   */
  lemma TestParkCases()
    ensures ParkAll(TestLot(), TestParkRequests) == TestParkResults
  {
    TestParkFrom0(TestLot());
    assert TestParkRequests[0..] == TestParkRequests && TestParkResults[0..] == TestParkResults;
  }

  /** TestUnpark, "Valid unpark": a car parks at 0-1-0 and unparks from there. */
  lemma TestValidUnpark(st: LotState)
    requires TestShaped(st) && Table(st) == T0
    ensures var (st2, res) := ParkStep(st, Automobile, "CAR1");
      && res == Success("0-1-0") && WellShaped(st2) && Scannable("0-1-0")
      && UnparkStep(st2, "0-1-0", "CAR1").1 == Pass
  {
    CellIds();
    ParkOnTable(st, Automobile, "CAR1", 3);
    UnparkOfClaim(st, Cells[3], "CAR1");
  }

  /** TestUnpark, "Unpark twice": the second unpark of the same motorcycle finds no vehicle. */
  lemma TestUnparkTwice(st: LotState)
    requires TestShaped(st) && Table(st) == T0
    ensures var (st2, res) := ParkStep(st, Motorcycle, "MOTO2");
      && res == Success("0-0-1") && WellShaped(st2) && Scannable("0-0-1")
      && var (st3, out) := UnparkStep(st2, "0-0-1", "MOTO2");
      && out == Pass && WellShaped(st3)
      && UnparkStep(st3, "0-0-1", "MOTO2").1 == Fail(VehicleNotFound)
  {
    CellIds();
    ParkOnTable(st, Motorcycle, "MOTO2", 1);
    UnparkOfClaim(st, Cells[1], "MOTO2");
    UnparkTwiceFails(Claim(st, Cells[1], "MOTO2"), "0-0-1", "MOTO2");
  }

  /** TestAvailableSpots: each type has a free spot, and one park leaves one fewer. */
  lemma TestAvailableFor(st: LotState, t: VehicleType, i: nat)
    requires TestShaped(st) && i < 6 && Matches(Table(st)[i], t)
    requires forall j :: 0 <= j < i ==> !Matches(Table(st)[j], t)
    ensures |Available(st, t)| > 0
    ensures |Available(ParkStep(st, t, "TEST-AVAIL").0, t)| == |Available(st, t)| - 1
  {
    ParkOnTable(st, t, "TEST-AVAIL", i);
    ParkShrinksAvailable(st, t, "TEST-AVAIL", t);
  }

  /** TestAvailableSpots for the three types it loops over: B's first spot is 0-0-0, M's 0-0-1, A's 0-1-0. */
  lemma TestAvailableSpots(st: LotState)
    requires TestShaped(st) && Table(st) == T0
    ensures |Available(st, Bicycle)| > 0
    ensures |Available(ParkStep(st, Bicycle, "TEST-AVAIL").0, Bicycle)| == |Available(st, Bicycle)| - 1
    ensures |Available(st, Motorcycle)| > 0
    ensures |Available(ParkStep(st, Motorcycle, "TEST-AVAIL").0, Motorcycle)| == |Available(st, Motorcycle)| - 1
    ensures |Available(st, Automobile)| > 0
    ensures |Available(ParkStep(st, Automobile, "TEST-AVAIL").0, Automobile)| == |Available(st, Automobile)| - 1
  {
    TestAvailableFor(st, Bicycle, 0);
    TestAvailableFor(st, Motorcycle, 1);
    TestAvailableFor(st, Automobile, 3);
  }

  /** TestSearchVehicle: found while parked, still found after unpark, unknown otherwise. */
  lemma TestSearch(st: LotState)
    requires TestShaped(st) && Table(st) == T0 && st.lastSpotMap == map[]
    ensures Search(ParkStep(st, Bicycle, "B-123").0, "B-123") == ("0-0-0", true)
    ensures var (st2, res) := ParkStep(st, Automobile, "A-321");
      && res == Success("0-1-0") && WellShaped(st2) && Scannable("0-1-0")
      && Search(UnparkStep(st2, "0-1-0", "A-321").0, "A-321") == ("0-1-0", true)
    ensures Search(st, "X-999") == ("", false)
  {
    CellIds();
    ParkOnTable(st, Bicycle, "B-123", 0);
    ParkRecordsHistory(st, Bicycle, "B-123");
    ParkOnTable(st, Automobile, "A-321", 3);
    ParkRecordsHistory(st, Automobile, "A-321");
    UnparkOfClaim(st, Cells[3], "A-321");
    UnparkKeepsHistory(Claim(st, Cells[3], "A-321"), "0-1-0", "A-321", "A-321");
  }

  /** createTestLot on the ParkingLot class: its state is TestLot(). */
  method CreateTestLot() returns (lot: Lot.ParkingLot)
    ensures fresh(lot) && fresh(lot.grid) && lot.Valid() && lot.Model() == TestLot()
  {
    TestLayoutFits();
    lot := new Lot.ParkingLot(1, 2, 3, TestLayout);
  }

  /** TestUnpark on the class, "Valid unpark" then "Unpark twice". */
  method UnparkCasesOnLot() returns (car: Result<string, LotError>, carOut: Outcome<LotError>,
                                     moto: Result<string, LotError>, motoOut: Outcome<LotError>, motoAgain: Outcome<LotError>)
    ensures car == Success("0-1-0") && carOut == Pass
    ensures moto == Success("0-0-1") && motoOut == Pass && motoAgain == Fail(VehicleNotFound)
  {
    var lot := CreateTestLot();
    TestValidUnpark(lot.Model());
    car := lot.Park(Automobile, "CAR1");
    carOut := lot.Unpark("0-1-0", "CAR1");
    var lot2 := CreateTestLot();
    TestUnparkTwice(lot2.Model());
    moto := lot2.Park(Motorcycle, "MOTO2");
    motoOut := lot2.Unpark("0-0-1", "MOTO2");
    motoAgain := lot2.Unpark("0-0-1", "MOTO2");
  }

  /** TestAvailableSpots on the class, for one vehicle type and its first spot i in the test lot. */
  method AvailableCaseOnLot(t: VehicleType, i: nat) returns (initial: seq<string>, after: seq<string>)
    requires i < 6 && Matches(T0[i], t) && forall j :: 0 <= j < i ==> !Matches(T0[j], t)
    ensures |initial| > 0 && |after| == |initial| - 1
  {
    var lot := CreateTestLot();
    TestAvailableFor(lot.Model(), t, i);
    initial := lot.AvailableSpot(t);
    var _ := lot.Park(t, "TEST-AVAIL");
    after := lot.AvailableSpot(t);
  }

  /** TestAvailableSpots on the class, for each of the three types it loops over. */
  method AvailableCasesOnLot() returns (counts: seq<(int, int)>)
    ensures |counts| == 3 && forall k :: 0 <= k < 3 ==> counts[k].0 > 0 && counts[k].1 == counts[k].0 - 1
  {
    var bInitial, bAfter := AvailableCaseOnLot(Bicycle, 0);
    var mInitial, mAfter := AvailableCaseOnLot(Motorcycle, 1);
    var aInitial, aAfter := AvailableCaseOnLot(Automobile, 3);
    counts := [(|bInitial|, |bAfter|), (|mInitial|, |mAfter|), (|aInitial|, |aAfter|)];
  }

  /** TestSearchVehicle on the class. */
  method SearchCasesOnLot() returns (parked: (string, bool), unparked: (string, bool), unknown: (string, bool))
    ensures parked == ("0-0-0", true) && unparked == ("0-1-0", true) && unknown == ("", false)
  {
    var lot := CreateTestLot();
    TestSearch(lot.Model());
    var _ := lot.Park(Bicycle, "B-123");
    parked := lot.SearchVehicle("B-123");
    var lot2 := CreateTestLot();
    var _ := lot2.Park(Automobile, "A-321");
    var _ := lot2.Unpark("0-1-0", "A-321");
    unparked := lot2.SearchVehicle("A-321");
    var lot3 := CreateTestLot();
    unknown := lot3.SearchVehicle("X-999");
  }

  /** The test's "fill up" loop on the class: park each request in turn on the same lot. */
  method ParkEach(lot: Lot.ParkingLot, reqs: seq<(VehicleType, string)>) returns (results: seq<Result<string, LotError>>)
    requires lot.Valid()
    modifies lot, lot.grid
    ensures lot.Valid()
    ensures results == ParkAll(old(lot.Model()), reqs)
    ensures lot.Model() == ParkAllState(old(lot.Model()), reqs)
  {
    ghost var st0 := lot.Model();
    results := [];
    var k := 0;
    while k < |reqs|
      invariant 0 <= k <= |reqs|
      invariant lot.Valid()
      invariant results + ParkAll(lot.Model(), reqs[k..]) == ParkAll(st0, reqs)
      invariant ParkAllState(lot.Model(), reqs[k..]) == ParkAllState(st0, reqs)
    {
      var (t, v) := reqs[k];
      ParkAllUnfold(lot.Model(), reqs, k);
      var r := lot.Park(t, v);
      results := results + [r];
      k := k + 1;
    }
  }

  /** TestPark on the class: each park, after the earlier ones, gives the expected id or error. */
  method ParkCasesOnLot() returns (results: seq<Result<string, LotError>>)
    ensures results == TestParkResults
  {
    var lot := CreateTestLot();
    results := ParkEach(lot, TestParkRequests);
    TestParkCases();
  }
}
