/**
 * The textual spot id "floor-row-col": Go's `strings.Split` on "-", `strconv.Atoi`
 * on a 64-bit platform, the `fmt.Sprintf("%d-%d-%d", ...)` format, and the strict
 * parser `ParseSpotID` of pkg/global.go with the `entity.SpotID` triple it returns.
 */
module SpotIds {
  import opened Wrappers

  const MaxInt64: int := 0x7fff_ffff_ffff_ffff
  const MinInt64: int := -0x8000_0000_0000_0000

  // ---------------------------------------------------------------------------
  // strings.Split(s, "-")
  // ---------------------------------------------------------------------------

  /** Go's `strings.Split(s, "-")`: the pieces between separators, always at least one. */
  function Split(s: string): (parts: seq<string>)
    ensures |parts| >= 1
    decreases |s|
  {
    if s == [] then [""]
    else if s[0] == '-' then [""] + Split(s[1..])
    else
      var rest := Split(s[1..]);
      [[s[0]] + rest[0]] + rest[1..]
  }

  /** No piece of a split contains the separator. */
  lemma {:induction false} SplitPiecesHaveNoDash(s: string)
    ensures forall i :: 0 <= i < |Split(s)| ==> '-' !in Split(s)[i]
    decreases |s|
  {
    if s != [] {
      SplitPiecesHaveNoDash(s[1..]);
    }
  }

  /** A string without a separator splits into itself alone. */
  lemma {:induction false} SplitWithoutDash(s: string)
    requires '-' !in s
    ensures Split(s) == [s]
    decreases |s|
  {
    if s != [] {
      SplitWithoutDash(s[1..]);
      assert [s[0]] + s[1..] == s;
    }
  }

  /** Joining two strings with a separator concatenates their splits. */
  lemma {:induction false} SplitJoin(a: string, b: string)
    ensures Split(a + "-" + b) == Split(a) + Split(b)
    decreases |a|
  {
    if a == [] {
      assert a + "-" + b == "-" + b;
      assert ("-" + b)[1..] == b;
    } else {
      var s := a + "-" + b;
      assert s[0] == a[0];
      assert s[1..] == a[1..] + "-" + b;
      SplitJoin(a[1..], b);
    }
  }

  // ---------------------------------------------------------------------------
  // Decimal digits, strconv.Atoi and the %d verb
  // ---------------------------------------------------------------------------

  predicate IsDigit(ch: char) {
    '0' <= ch <= '9'
  }

  /** A non-empty run of ASCII decimal digits. */
  predicate IsDigits(s: string) {
    |s| > 0 && forall i :: 0 <= i < |s| ==> IsDigit(s[i])
  }

  /** The value of a run of decimal digits, most significant first. */
  function DecValue(s: string): nat
    requires forall i :: 0 <= i < |s| ==> IsDigit(s[i])
    decreases |s|
  {
    if s == [] then 0
    else
      assert IsDigit(s[|s| - 1]);
      DecValue(s[..|s| - 1]) * 10 + (s[|s| - 1] as int - '0' as int)
  }

  function Digit(d: nat): (ch: char)
    requires d < 10
    ensures IsDigit(ch)
  {
    ('0' as int + d) as char
  }

  /** The decimal digits of a natural number, without leading zeros. */
  function NatToDecimal(n: nat): (s: string)
    ensures IsDigits(s)
    decreases n
  {
    if n < 10 then [Digit(n)] else NatToDecimal(n / 10) + [Digit(n % 10)]
  }

  /** Go's `%d` verb on an int: a minus sign for negative values, then the digits. */
  function FormatInt(n: int): (s: string)
    ensures |s| > 0
    ensures (n < 0) == (s[0] == '-')
  {
    if n < 0 then "-" + NatToDecimal(-n) else NatToDecimal(n)
  }

  /**
   * Go's `strconv.Atoi` with 64-bit ints: an optional '+' or '-' sign followed by
   * at least one decimal digit, whose value fits an int64; None is the error return.
   */
  function Atoi(s: string): (r: Option<int>)
    ensures r.Some? ==> MinInt64 <= r.value <= MaxInt64
    ensures r.Some? && '-' !in s ==> r.value >= 0
  {
    var negative := |s| > 0 && s[0] == '-';
    var digits := if |s| > 0 && (s[0] == '+' || s[0] == '-') then s[1..] else s;
    if !IsDigits(digits) then None
    else
      var magnitude: int := DecValue(digits);
      var v := if negative then -magnitude else magnitude;
      if MinInt64 <= v <= MaxInt64 then Some(v) else None
  }

  /** Reading back the digits of a number gives the number. */
  lemma {:induction false} DecValueOfNatToDecimal(n: nat)
    ensures DecValue(NatToDecimal(n)) == n
    decreases n
  {
    var s := NatToDecimal(n);
    if n >= 10 {
      DecValueOfNatToDecimal(n / 10);
      assert s[..|s| - 1] == NatToDecimal(n / 10);
    }
  }

  /** Atoi inverts the %d format on the whole int64 range. */
  lemma AtoiOfFormatInt(n: int)
    requires MinInt64 <= n <= MaxInt64
    ensures Atoi(FormatInt(n)) == Some(n)
  {
    if n < 0 {
      DecValueOfNatToDecimal(-n);
      assert ("-" + NatToDecimal(-n))[1..] == NatToDecimal(-n);
    } else {
      DecValueOfNatToDecimal(n);
    }
  }

  /** The %d text of a number splits into one piece, or two when it is negative. */
  lemma SplitOfFormatInt(n: int)
    ensures Split(FormatInt(n)) == if n < 0 then ["", NatToDecimal(-n)] else [NatToDecimal(n)]
  {
    if n < 0 {
      SplitWithoutDash(NatToDecimal(-n));
      SplitJoin("", NatToDecimal(-n));
      assert "" + "-" + NatToDecimal(-n) == FormatInt(n);
      SplitWithoutDash("");
    } else {
      SplitWithoutDash(NatToDecimal(n));
    }
  }

  // ---------------------------------------------------------------------------
  // Spot ids
  // ---------------------------------------------------------------------------

  /** entity.SpotID: the coordinate triple a spot id denotes. */
  datatype SpotID = SpotID(floor: int, row: int, col: int)

  /** The error returns of ParseSpotID; a bad row is reported as a bad col, as pkg/global.go does. */
  datatype SpotIdError = InvalidFormat | InvalidFloor | InvalidCol

  /** The error text ParseSpotID returns, without the wrapped strconv cause. */
  function ErrorText(e: SpotIdError): string {
    match e
    case InvalidFormat => "invalid spotID format"
    case InvalidFloor => "invalid floor"
    case InvalidCol => "invalid col"
  }

  /** `fmt.Sprintf("%d-%d-%d", f, r, c)`: the id the lot hands out for a spot. */
  function FormatSpotId(f: int, r: int, c: int): string {
    FormatInt(f) + "-" + FormatInt(r) + "-" + FormatInt(c)
  }

  /** pkg.ParseSpotID: split on "-", demand three pieces, convert each with Atoi. */
  function ParseSpotID(spotID: string): (r: Result<SpotID, SpotIdError>)
    ensures r.Success? ==> r.value.floor >= 0 && r.value.row >= 0 && r.value.col >= 0
  {
    var parts := Split(spotID);
    SplitPiecesHaveNoDash(spotID);
    if |parts| != 3 then Failure(InvalidFormat)
    else
      match Atoi(parts[0])
      case None => Failure(InvalidFloor)
      case Some(floor) =>
        match Atoi(parts[1])
        case None => Failure(InvalidCol)
        case Some(row) =>
          match Atoi(parts[2])
          case None => Failure(InvalidCol)
          case Some(col) => Success(SpotID(floor, row, col))
  }

  /** The pieces of a formatted id: three for non-negative coordinates, one more per negative one. */
  lemma SplitOfFormatSpotId(f: int, r: int, c: int)
    ensures Split(FormatSpotId(f, r, c))
         == Split(FormatInt(f)) + Split(FormatInt(r)) + Split(FormatInt(c))
    ensures |Split(FormatSpotId(f, r, c))|
         == 3 + (if f < 0 then 1 else 0) + (if r < 0 then 1 else 0) + (if c < 0 then 1 else 0)
  {
    SplitJoin(FormatInt(f), FormatInt(r));
    assert FormatSpotId(f, r, c) == (FormatInt(f) + "-" + FormatInt(r)) + "-" + FormatInt(c);
    SplitJoin(FormatInt(f) + "-" + FormatInt(r), FormatInt(c));
    SplitOfFormatInt(f);
    SplitOfFormatInt(r);
    SplitOfFormatInt(c);
  }

  /** Round trip: parsing the id formatted from non-negative int coordinates gives them back. */
  lemma ParseFormatRoundTrip(f: int, r: int, c: int)
    requires 0 <= f <= MaxInt64 && 0 <= r <= MaxInt64 && 0 <= c <= MaxInt64
    ensures ParseSpotID(FormatSpotId(f, r, c)) == Success(SpotID(f, r, c))
  {
    SplitOfFormatSpotId(f, r, c);
    SplitOfFormatInt(f);
    SplitOfFormatInt(r);
    SplitOfFormatInt(c);
    AtoiOfFormatInt(f);
    AtoiOfFormatInt(r);
    AtoiOfFormatInt(c);
  }

  /** An id formatted from a negative coordinate has an extra "-" and is rejected as malformed. */
  lemma ParseRejectsNegative(f: int, r: int, c: int)
    requires f < 0 || r < 0 || c < 0
    ensures ParseSpotID(FormatSpotId(f, r, c)) == Failure(InvalidFormat)
  {
    SplitOfFormatSpotId(f, r, c);
  }

  /** A piece that Atoi rejects in the row position is reported with the col message. */
  lemma ParseBadRowSaysCol(floor: string, row: string, col: string)
    requires '-' !in floor && '-' !in row && '-' !in col
    requires Atoi(floor).Some? && Atoi(row).None?
    ensures ParseSpotID(floor + "-" + row + "-" + col) == Failure(InvalidCol)
    ensures ErrorText(ParseSpotID(floor + "-" + row + "-" + col).error) == "invalid col"
  {
    SplitJoin(floor, row);
    assert floor + "-" + row + "-" + col == (floor + "-" + row) + "-" + col;
    SplitJoin(floor + "-" + row, col);
    SplitWithoutDash(floor);
    SplitWithoutDash(row);
    SplitWithoutDash(col);
  }

  /** Any id that does not split into exactly three pieces is reported as malformed. */
  lemma ParseBadFormat(spotID: string)
    requires |Split(spotID)| != 3
    ensures ParseSpotID(spotID) == Failure(InvalidFormat)
    ensures ErrorText(ParseSpotID(spotID).error) == "invalid spotID format"
  {
  }

  /** A three-piece id whose floor piece Atoi rejects is reported as a bad floor. */
  lemma ParseBadFloor(spotID: string)
    requires |Split(spotID)| == 3 && Atoi(Split(spotID)[0]).None?
    ensures ParseSpotID(spotID) == Failure(InvalidFloor)
    ensures ErrorText(ParseSpotID(spotID).error) == "invalid floor"
  {
  }

  /** A three-piece id with good floor and row pieces and a col piece Atoi rejects is reported as a bad col. */
  lemma ParseBadCol(spotID: string)
    requires |Split(spotID)| == 3 && Atoi(Split(spotID)[0]).Some? && Atoi(Split(spotID)[1]).Some?
    requires Atoi(Split(spotID)[2]).None?
    ensures ParseSpotID(spotID) == Failure(InvalidCol)
    ensures ErrorText(ParseSpotID(spotID).error) == "invalid col"
  {
  }

  /** The three error texts of ParseSpotID are pairwise distinct. */
  lemma SpotIdErrorTextsDistinct(e1: SpotIdError, e2: SpotIdError)
    ensures ErrorText(e1) == ErrorText(e2) <==> e1 == e2
  {
  }

  /** Success exactly when there are three pieces that Atoi all accepts, with their values in order. */
  lemma ParseSpotIDSuccess(spotID: string)
    ensures ParseSpotID(spotID).Success? <==>
      |Split(spotID)| == 3 && Atoi(Split(spotID)[0]).Some? && Atoi(Split(spotID)[1]).Some?
      && Atoi(Split(spotID)[2]).Some?
    ensures ParseSpotID(spotID).Success? ==>
      ParseSpotID(spotID).value
      == SpotID(Atoi(Split(spotID)[0]).value, Atoi(Split(spotID)[1]).value, Atoi(Split(spotID)[2]).value)
  {
  }
}
