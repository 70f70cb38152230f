# Parking lot model

A Dafny model of the in-memory parking lot of `doit-test-simple/main.go`, with proofs
about it. It also models two small pure pieces of the same repository: the spot-id
parser `ParseSpotID` of `pkg/global.go`, and the bilingual message table of
`doit-test-long/pkg/errors/message.go`.

The lot is a fixed grid of floors × rows × columns of spots. Each spot has a vehicle
type (`"B"`, `"M"`, `"A"`), an active flag, an occupied flag and the vehicle number
that holds it. Two maps sit beside the grid:

- `vehicleMap` sends each parked vehicle number to the spot id it holds now.
- `lastSpotMap` sends each vehicle number to the last spot id it was given.

The operations are:

- `park` does a first-fit scan in floor, row, column order. It claims the first spot
  that is active, free and of the requested type, and returns its id `"f-r-c"`.
- `unpark` checks the id, the bounds, and that the vehicle holds the spot. It then
  frees the spot and drops the vehicle's current assignment.
- `availableSpot` lists the ids of the free matching spots, in scan order.
- `searchVehicle` looks a vehicle up in the history map.

Files:

- `wrappers.dfy` defines `Option`, `Result` and `Outcome`.
- `spot_ids.dfy` (module `SpotIds`) holds the spot ids and the Go library behaviour
  they depend on:
  - `strings.Split` on `"-"`;
  - `strconv.Atoi` with 64-bit ints;
  - the `%d-%d-%d` format;
  - `ParseSpotID` and `entity.SpotID`.
- `error_messages.dfy` (module `ErrorMessages`) holds the `EM` table and `Message`.
- `lot_spec.dfy` (module `LotSpec`) is the lot as a value, `LotState`, with one pure
  step function per operation. Those step functions are the specification. It also
  builds the initial state and defines the lot invariant `Inv`:
  - an occupied spot is active;
  - a free spot holds no vehicle number;
  - only the three known types are ever active;
  - every current assignment equals the vehicle's history entry and names a spot it holds;
  - every history entry names a grid cell.
- `lot_properties.dfy` (module `LotProperties`) proves how the step functions behave:
  - the first-fit characterisation;
  - frame properties and the error cases;
  - that park and unpark both preserve the invariant;
  - the park/unpark round trip;
  - how availability changes.
- `lot.dfy` (module `Lot`) holds the class `ParkingLot`:
  - a `array3<Spot>` grid, updated in place, with the two maps as fields;
  - the nested loops of `main.go` in the constructor, `Park` and `AvailableSpot`;
  - method contracts that tie the new state and the result to the step functions of `LotSpec`;
  - the invariant `Valid()`, which every method keeps.
- `lot_scenarios.dfy` (module `LotScenarios`) replays the unit tests of
  `doit-test-simple/main_test.go` on the test lot. It does this twice: on the step
  functions and on the class.

Four things the code does that a reader might not expect, all modelled as written:

- A malformed layout is not reported as an error. The code indexes the layout
  directly, so the model makes well-formed dimensions and `"X-Y"` cells
  preconditions of construction.
- An empty vehicle number is accepted by `park`. One might expect an occupied spot
  always to hold a non-empty number; that does not hold, and the invariant states only
  that a free spot has an empty number.
- Nothing stops one vehicle number from being parked twice.
  - The second park overwrites `vehicleMap`, and the first spot stays held.
  - One might expect a vehicle to be in `vehicleMap` exactly when it holds one spot; that does not hold.
  - The invariant states only that the current assignment names a spot the vehicle holds.
- `ParseSpotID` reports a bad row piece with the text "invalid col", as written.

## Model

| member | source | states |
|---|---|---|
| SpotIds.Split | pkg/global.go:27 | `strings.Split` on "-" always yields at least one piece |
| SpotIds.SplitJoin | pkg/global.go:27 | splitting `a + "-" + b` gives the pieces of `a` followed by the pieces of `b` |
| SpotIds.SplitPiecesHaveNoDash | pkg/global.go:27 | no piece of a split contains "-" |
| SpotIds.FormatInt | business/usecase/parking/parking_.go:35 | `%d` text is non-empty and starts with "-" exactly for negative numbers |
| SpotIds.Atoi | pkg/global.go:32-45 | an accepted number lies in the int64 range, and is non-negative when the text has no "-" |
| SpotIds.DecValueOfNatToDecimal | business/usecase/parking/parking_.go:35 | reading back the decimal digits of a natural number gives the number |
| SpotIds.AtoiOfFormatInt | pkg/global.go:32-45 | `Atoi` inverts `%d` on the whole int64 range |
| SpotIds.SplitOfFormatInt | pkg/global.go:27 | the `%d` text of a number is one piece, or two (an empty one first) when it is negative |
| SpotIds.ParseSpotID | pkg/global.go:26-52 | a parsed id never has a negative coordinate |
| SpotIds.ParseSpotIDSuccess | pkg/global.go:26-52 | parsing succeeds iff there are exactly three pieces and `Atoi` accepts each; floor, row and col are then pieces 0, 1, 2 in order |
| SpotIds.SplitOfFormatSpotId | pkg/global.go:27-30 | a formatted id has 3 pieces plus one per negative coordinate |
| SpotIds.ParseFormatRoundTrip | pkg/global.go:26-52 | parsing the `%d-%d-%d` id of non-negative int64 coordinates gives them back |
| SpotIds.ParseRejectsNegative | pkg/global.go:27-30 | an id formatted from any negative coordinate fails with "invalid spotID format" |
| SpotIds.ParseBadRowSaysCol | pkg/global.go:37-40 | a row piece that `Atoi` rejects, after a good floor, fails with the text "invalid col" |
| SpotIds.ParseBadFormat | pkg/global.go:27-30 | any id that does not split into exactly three pieces fails with "invalid spotID format" |
| SpotIds.ParseBadFloor | pkg/global.go:32-35 | a three-piece id whose floor piece `Atoi` rejects fails with "invalid floor" |
| SpotIds.ParseBadCol | pkg/global.go:42-45 | a three-piece id with good floor and row pieces and a col piece `Atoi` rejects fails with "invalid col" |
| SpotIds.ErrorText | pkg/global.go:29-44 | the texts "invalid spotID format", "invalid floor" and "invalid col" of the three error returns, without the wrapped cause; SpotIdErrorTextsDistinct proves them pairwise distinct |
| SpotIds.SpotIdErrorTextsDistinct | pkg/global.go:29-44 | two `ParseSpotID` errors have the same text iff they are the same error |
| SpotIds.FormatSpotId | doit-test-simple/main.go:88 | the `%d-%d-%d` id of a coordinate triple; ParseFormatRoundTrip proves `ParseSpotID` reads it back for non-negative int64 coordinates, and SpotIdOfInjective that distinct cells get distinct ids |
| ErrorMessages.Entry | doit-test-long/pkg/errors/message.go:37-39 | a map index yields the entry when the key is present and the zero message otherwise |
| ErrorMessages.Message | doit-test-long/pkg/errors/message.go:35-40 | for a key in the table: the ID text for language "ID", the EN text for any other language; "" for a missing key |
| ErrorMessages.EMKeysAndTexts | doit-test-long/pkg/errors/message.go:11-32 | the table has exactly the keys internal, notfound, badrequest, unauthorized, uniqueconst, each with non-empty EN and ID texts |
| ErrorMessages.EMMessageNonEmpty | doit-test-long/pkg/errors/message.go:11-40 | `Message` on the table is non-empty exactly for the five keys, in every language |
| LotSpec.CellSpot | doit-test-simple/main.go:42-62 | a built spot is free with no vehicle number; B/M/A keep their type and are active iff the flag is "1"; any other letter gives an inactive spot with the empty type |
| LotSpec.NewLotState | doit-test-simple/main.go:35-74 | the built lot has the given dimensions, every cell built from its layout entry, and both maps empty |
| LotSpec.NewLotInv | doit-test-simple/main.go:35-74 | a newly built lot satisfies the lot invariant and every spot is free |
| LotSpec.Ids | doit-test-simple/main.go:136 | the id list has one `%d-%d-%d` id per position, in the same order |
| LotSpec.AvailFromMember | doit-test-simple/main.go:130-141 | the scan from (f, r, c) lists a cell iff it is in the grid, matches, and is not before (f, r, c) |
| LotSpec.AvailFromSorted | doit-test-simple/main.go:130-141 | the scan lists cells in strictly increasing floor/row/column order |
| LotSpec.AvailableExactly | doit-test-simple/main.go:130-141 | the available list holds exactly the active, free cells of the type, sorted in scan order |
| LotSpec.FirstMatch | doit-test-simple/main.go:80-95 | the first-fit choice: nothing iff no cell matches; otherwise a matching cell with no matching cell before it |
| LotSpec.ErrorText | doit-test-simple/main.go:96-117 | the texts "no available spot", "invalid spot id", "spot out of bounds" and "vehicle not found in spot" of the four lot errors; LotErrorTextsDistinct proves them pairwise distinct |
| LotSpec.LotErrorTextsDistinct | doit-test-simple/main.go:96-117 | two lot errors have the same text iff they are the same error |
| LotSpec.Claim | doit-test-simple/main.go:85-90 | marks cell p occupied by v and sends v to its id in both maps; ParkEffect and the Claim* lemmas state what that changes and keeps |
| LotSpec.Release | doit-test-simple/main.go:120-122 | frees cell p, clears its number and removes v from `vehicleMap`; UnparkAtCell and the Release* lemmas state what that changes and keeps |
| LotSpec.ParkStep | doit-test-simple/main.go:76-97 | park as one step: claim the first-fit cell and return its id, or fail with "no available spot"; ParkEffect, ParkShrinksAvailable and ParkPreservesInv state its properties |
| LotSpec.Scannable | doit-test-simple/main.go:103-109 | the ids for which unpark's ignored `Sscanf` is modelled: a three-piece id must have pieces `ParseSpotID` accepts; ScanOfSpotIdOf proves every grid cell's id qualifies |
| LotSpec.ScanSpotId | doit-test-simple/main.go:109 | the three numbers the scan reads from such an id; ScanOfSpotIdOf proves it reads a grid cell's id back as that cell |
| LotSpec.UnparkStep | doit-test-simple/main.go:99-124 | unpark as one step: the piece count, the bounds and the holder checks in the order of the code, then the release; UnparkMalformedId, UnparkOutOfBounds, UnparkAtCell and UnparkPreservesInv state its properties |
| LotSpec.AvailFrom | doit-test-simple/main.go:130-141 | the matching cells from a scan position to the end, in the loops' order; AvailFromMember and AvailFromSorted characterise it |
| LotSpec.Available | doit-test-simple/main.go:126-142 | the full scan; AvailableExactly proves it lists exactly the matching cells, in order |
| LotSpec.Search | doit-test-simple/main.go:144-150 | found iff the vehicle is in the history map, with its last id, otherwise ""; ParkRecordsHistory and UnparkKeepsHistory state what park and unpark do to it |
| LotProperties.ScanOfSpotIdOf | doit-test-simple/main.go:103-109 | the id of a grid cell has three pieces, passes unpark's scan and reads back as that cell |
| LotProperties.SpotIdOfInjective | doit-test-simple/main.go:88 | distinct grid cells get distinct ids |
| LotProperties.ParkEffect | doit-test-simple/main.go:80-96 | park succeeds iff some cell matches; on failure the error is "no available spot" and nothing changes; on success the id is that of the first matching cell, only that cell changes (occupied, holding v), and both maps send v to the id |
| LotProperties.FirstMatchIsFirstFit | doit-test-simple/main.go:80-91 | park picks p iff p matches and no earlier cell does |
| LotProperties.AvailFromAgree | doit-test-simple/main.go:130-141 | the listing depends only on which cells match |
| LotProperties.ClaimAtHead | doit-test-simple/main.go:84-86 | when p is the first available cell from its own position and p is claimed, the listing from p loses exactly p |
| LotProperties.ClaimSkipsCell | doit-test-simple/main.go:84-86 | when the listing from a cell other than p starts at p, the listing from the next cell also starts at p, and before and after claiming p that cell adds nothing to the listing |
| LotProperties.AvailFromClaim | doit-test-simple/main.go:84-86 | when the listing from any scan position starts at p, and p stops matching while every other cell is unchanged, the new listing is the old one without its head |
| LotProperties.ParkShrinksAvailable | doit-test-simple/main.go:84-91 | the id park returns is the head of availableSpot's list; that list then loses exactly its head, and the lists of every other type are unchanged |
| LotProperties.UnknownTypeNeverParks | doit-test-simple/main.go:55-57 | under the invariant, a type other than B/M/A has no available spot and park of it fails with nothing changed |
| LotProperties.ClaimKeepsCellsOk | doit-test-simple/main.go:84-86 | claiming an active free spot keeps every spot consistent |
| LotProperties.ClaimKeepsAssignments | doit-test-simple/main.go:85-90 | claiming a free spot keeps every assignment equal to the history and held by its vehicle |
| LotProperties.ClaimKeepsHistory | doit-test-simple/main.go:88-90 | claiming keeps every history entry naming a grid cell |
| LotProperties.ParkPreservesInv | doit-test-simple/main.go:76-97 | park keeps the lot invariant |
| LotProperties.UnparkMalformedId | doit-test-simple/main.go:103-106 | an id that is not exactly three pieces fails with "invalid spot id" and nothing changes |
| LotProperties.UnparkNegativeCoordinate | doit-test-simple/main.go:103-106 | an id formatted from a negative coordinate fails with "invalid spot id" |
| LotProperties.UnparkOutOfBounds | doit-test-simple/main.go:111-113 | a well-formed id past any dimension fails with "spot out of bounds" and nothing changes |
| LotProperties.UnparkAtCell | doit-test-simple/main.go:115-123 | unpark of a grid cell succeeds iff the cell is occupied by that number; otherwise "vehicle not found in spot" with nothing changed; on success only that cell is freed, v leaves `vehicleMap`, and `lastSpotMap` is untouched |
| LotProperties.UnparkTwiceFails | doit-test-simple/main.go:115-118 | after a successful unpark, the same unpark fails with "vehicle not found in spot" and changes nothing |
| LotProperties.ReleaseKeepsCellsOk | doit-test-simple/main.go:120-121 | freeing a spot keeps every spot consistent |
| LotProperties.ReleaseKeepsHeld | doit-test-simple/main.go:120-122 | freeing v's spot leaves every other vehicle's assigned spot held by it |
| LotProperties.ReleaseKeepsAssignments | doit-test-simple/main.go:120-122 | freeing v's spot keeps every remaining assignment equal to the history and held |
| LotProperties.ReleaseKeepsHistory | doit-test-simple/main.go:120-122 | freeing keeps every history entry naming a grid cell |
| LotProperties.UnparkPreservesInv | doit-test-simple/main.go:99-124 | unpark keeps the lot invariant |
| LotProperties.UnparkOfClaim | doit-test-simple/main.go:99-124 | unparking a claimed cell's id with the claiming number succeeds and frees that cell |
| LotProperties.ReleaseUndoesClaim | doit-test-simple/main.go:84-122 | claiming a free cell with no vehicle number and then freeing it gives back the original state, except that v leaves `vehicleMap` and `lastSpotMap` sends v to the cell's id |
| LotProperties.ParkUnparkRoundTrip | doit-test-simple/main.go:76-124 | unparking the id park just returned succeeds, restores the grid and the available list, removes v from `vehicleMap`, and searchVehicle still finds the id |
| LotProperties.UnparkKeepsHistory | doit-test-simple/main.go:120-122 | unpark never changes what searchVehicle reports for any vehicle |
| LotProperties.ParkRecordsHistory | doit-test-simple/main.go:90 | after a successful park, searchVehicle finds the returned id for that vehicle |
| Lot.ParkingLot.constructor | doit-test-simple/main.go:35-74 | the nested loops build exactly `NewLotState` for the layout, and the result is valid |
| Lot.ParkingLot.Park | doit-test-simple/main.go:76-97 | the triple loop's new state and result are those of the first-fit step; validity is kept |
| Lot.ParkingLot.Unpark | doit-test-simple/main.go:99-124 | the new state and result are those of the unpark step; validity is kept |
| Lot.ParkingLot.AvailableSpot | doit-test-simple/main.go:126-142 | the triple loop returns exactly the ids of the available list, in scan order |
| Lot.ParkingLot.SearchVehicle | doit-test-simple/main.go:144-150 | the history lookup of the lot's state |
| LotScenarios.CreateTestLot | doit-test-simple/main_test.go:10-18 | createTestLot on the class: a fresh, valid lot whose state is the test lot |
| LotScenarios.TestCellSpots | doit-test-simple/main_test.go:13-14 | the test cells B-1, M-1, A-1 give active free spots of their type, and X-0 gives an inactive one |
| LotScenarios.TestLot | doit-test-simple/main_test.go:10-18 | the test lot is 1 × 2 × 3 with spots B, M, off / A, M, A, all free, and empty maps |
| LotScenarios.ParkAll | doit-test-simple/main_test.go:40-45 | one result per request |
| LotScenarios.ParkAllState | doit-test-simple/main_test.go:40-43 | the state after parking each request in turn, on a grid of the same shape |
| LotScenarios.TestParkCases | doit-test-simple/main_test.go:27-33 | the seven parks give 0-0-0, 0-0-1, 0-1-1, failure, 0-1-0, 0-1-2, failure |
| LotScenarios.TestValidUnpark | doit-test-simple/main_test.go:71-77 | a car parks at 0-1-0 and unparks from it |
| LotScenarios.TestUnparkTwice | doit-test-simple/main_test.go:78-86 | a motorcycle parks at 0-0-1, unparks, and a second unpark fails with "vehicle not found in spot" |
| LotScenarios.TestAvailableFor | doit-test-simple/main_test.go:112-126 | on a lot where cell i is the first spot matching t, the list for t is non-empty and a park of t shortens it by exactly one |
| LotScenarios.TestAvailableSpots | doit-test-simple/main_test.go:109-129 | for each of Bicycle, Motorcycle and Automobile on the test lot, the list is non-empty and one park shortens it by one |
| LotScenarios.TestSearch | doit-test-simple/main_test.go:131-165 | found while parked (0-0-0), still found after unpark (0-1-0), not found for an unknown vehicle |
| LotScenarios.ParkEach | doit-test-simple/main_test.go:40-43 | the fill-up loop on the class: the results and the lot's final state are those of parking each request in turn, and validity is kept |
| LotScenarios.ParkCasesOnLot | doit-test-simple/main_test.go:20-60 | the class gives the seven TestPark results |
| LotScenarios.UnparkCasesOnLot | doit-test-simple/main_test.go:62-107 | the class gives the TestUnpark results |
| LotScenarios.AvailableCaseOnLot | doit-test-simple/main_test.go:109-129 | on the class built from the test layout, for a type whose first match is cell i, the list is non-empty and one park shortens it by one |
| LotScenarios.AvailableCasesOnLot | doit-test-simple/main_test.go:109-129 | on the class, for each of the three types, the list is non-empty and one park shortens it by one |
| LotScenarios.SearchCasesOnLot | doit-test-simple/main_test.go:131-165 | the class gives the TestSearchVehicle results |

## Left out

- The `sync.RWMutex` and the concurrency tests: each operation is modelled as one atomic step.
- `test/main.go` and the gate tests of `doit-test-simple/main_test.go` (`TestConcurrentParkingFromMultipleGates`, `TestStressConcurrentGates`): they exercise goroutines and races, which a sequential model cannot express.
- `main()` and its printing.
- Malformed layouts. `NewParkingLot` would panic on them, because it indexes the layout and `parts[1]` directly. The model makes `LayoutFits` and dimensions within int64 preconditions of construction.
- Lot.ParkingLot.Unpark: the ignored `fmt.Sscanf` error is not modelled. The precondition `Scannable` demands that each piece of a three-piece id is one `ParseSpotID` accepts. This is narrower than what `Sscanf` reads without error: `Sscanf` skips blanks before each number, so `" 0- 0- 0"` unparks spot 0-0-0 in `main.go` but is outside the model. Three-piece ids on which the scan stops early are outside the model too. Read from Go's scanning rules, they behave as follows:
  - `"1-x-2"` leaves r = c = 0, so it unparks spot 1-0-0 if the vehicle holds it.
  - `"0--1"` reads r = -1. The bound check at `main.go:111` has no lower bound, so it passes, and the grid index at `main.go:115` panics.
- SpotIds.ErrorText: for a bad floor, row or col it returns only the text before `": %w"` ("invalid floor", "invalid col"). The `strconv` error that `fmt.Errorf` appends is not modelled, because `Atoi` does not model why a text is rejected.
- SpotIds.Atoi: it says only whether a text is accepted. It does not say why a text is rejected (syntax or range), so the wrapped `%w` cause in `ParseSpotID`'s messages is not modelled.
- The grid of `*Spot` pointers is an `array3` of spot values. No two cells of the source share a spot, so no aliasing is lost.
- `BoolPtr` and `TimePtr` in `pkg/global.go`: they only take an address.
- The database-backed domain, use-case and transaction layers, the HTTP handlers, routing, middleware, logging and commands, the seeders, the `doit-test-long` stubs and the k6 script. These are I/O over code that is not part of this model.
