/** The platform's small utilities: percentages, coordinate and address checks, day counts,
    unit conversions, a completeness test, credit valuation, status colours and CSV. */
module Helpers {
  import opened Types
  import JsStrings
  import Verification

  /** `calculatePercentage`. */
  function CalculatePercentage(value: real, total: real): (p: real)
    ensures total == 0.0 ==> p == 0.0
    ensures total != 0.0 ==> p * total == value * 100.0
  {
    if total == 0.0 then 0.0 else (value / total) * 100.0
  }

  /** A part of a non-zero whole is a share of at most 100 % when both are positive, and the
      whole is exactly 100 %. */
  lemma PercentageFacts(value: real, total: real)
    ensures total != 0.0 ==> CalculatePercentage(total, total) == 100.0
    ensures 0.0 <= value <= total && total > 0.0 ==> 0.0 <= CalculatePercentage(value, total) <= 100.0
  {
    if 0.0 <= value <= total && total > 0.0 {
      assert value / total <= 1.0;
    }
  }

  /** `isValidGeoLocation`. */
  predicate IsValidGeoLocation(lat: real, lng: real) {
    lat >= -90.0 && lat <= 90.0 && lng >= -180.0 && lng <= 180.0
  }

  /** Validity is the same on both hemispheres: reflecting a point through the origin keeps it
      valid, and the poles and the antimeridian are valid. */
  lemma GeoLocationFacts(lat: real, lng: real)
    ensures IsValidGeoLocation(lat, lng) <==> IsValidGeoLocation(-lat, -lng)
    ensures IsValidGeoLocation(90.0, 180.0) && IsValidGeoLocation(-90.0, -180.0)
    ensures lat > 90.0 || lat < -90.0 ==> !IsValidGeoLocation(lat, lng)
  {
  }

  /** `truncateAddress`; `chars` is 6 when omitted. */
  function TruncateAddress(address: string, chars: int): string {
    if |address| <= chars * 2 then address
    else JsStrings.Slice(address, 0, chars) + "..." + JsStrings.SliceFrom(address, -chars)
  }

  /** A short address is kept; a longer one keeps its first and last `chars` characters around
      "...". With `chars` 0, `slice(-0)` is the whole string, so "..." is put in front of it. */
  lemma TruncateAddressShape(address: string, chars: int)
    ensures |address| <= 2 * chars ==> TruncateAddress(address, chars) == address
    ensures 0 < chars && 2 * chars < |address| ==>
              TruncateAddress(address, chars)
              == address[..chars] + "..." + address[|address| - chars..]
              && |TruncateAddress(address, chars)| == 2 * chars + 3
    ensures chars == 0 && address != "" ==> TruncateAddress(address, chars) == "..." + address
  {
  }

  predicate IsHexDigit(c: char) {
    ('0' <= c <= '9') || ('a' <= c <= 'f') || ('A' <= c <= 'F')
  }

  /** `isValidBlockchainAddress`: the whole string is "0x" followed by exactly 40 hex digits. */
  predicate IsValidBlockchainAddress(address: string) {
    |address| == 42 && address[..2] == "0x" && forall i :: 2 <= i < 42 ==> IsHexDigit(address[i])
  }

  /** "0x" before any 40 hex digits is valid, and nothing else is; the default display form of
      a valid address is 15 characters long. */
  lemma BlockchainAddressFacts(digits: string, address: string)
    ensures IsValidBlockchainAddress("0x" + digits) <==>
              |digits| == 40 && forall i :: 0 <= i < 40 ==> IsHexDigit(digits[i])
    ensures IsValidBlockchainAddress(address) ==> |TruncateAddress(address, 6)| == 15
  {
    var a := "0x" + digits;
    assert a[..2] == "0x";
    if |digits| == 40 {
      assert forall i :: 0 <= i < 40 ==> a[i + 2] == digits[i];
      if IsValidBlockchainAddress(a) {
        forall i | 0 <= i < 40 ensures IsHexDigit(digits[i]) {
          assert a[i + 2] == digits[i];
        }
      }
    }
    if IsValidBlockchainAddress(address) {
      TruncateAddressShape(address, 6);
    }
  }

  const DayMs: int := 24 * 60 * 60 * 1000

  function Abs(x: int): nat {
    if x < 0 then -x else x
  }

  /** `daysBetween`: the distance in days, rounded half up as `Math.round` does. */
  function DaysBetween(t1: int, t2: int): (d: nat)
    ensures d * DayMs - DayMs / 2 <= Abs(t1 - t2) < d * DayMs + DayMs / 2
  {
    (Abs(t1 - t2) + DayMs / 2) / DayMs
  }

  /** The day count is symmetric, zero for one instant, and exact for whole days. */
  lemma DaysBetweenFacts(t1: int, t2: int, k: nat)
    ensures DaysBetween(t1, t2) == DaysBetween(t2, t1)
    ensures DaysBetween(t1, t1) == 0
    ensures DaysBetween(t1, t1 + k * DayMs) == k
  {
    var d := DaysBetween(t1, t1 + k * DayMs);
    assert Abs(t1 - (t1 + k * DayMs)) == k * DayMs;
    assert d * DayMs - DayMs / 2 <= k * DayMs < d * DayMs + DayMs / 2;
    DayCountUnique(d, k);
  }

  lemma DayCountUnique(d: int, k: int)
    requires d * DayMs - DayMs / 2 <= k * DayMs < d * DayMs + DayMs / 2
    ensures d == k
  {
    assert (d - k) * DayMs <= DayMs / 2;
    assert (k - d) * DayMs < DayMs / 2;
  }

  /** `isVerificationDueSoon` at instant `now`; the threshold is 30 days when omitted. */
  predicate IsVerificationDueSoon(dueDate: int, now: int, daysThreshold: int) {
    DaysBetween(now, dueDate) <= daysThreshold && dueDate > now
  }

  /** A verification due soon is one due in the future by less than the threshold and half a
      day, and it is not yet due. */
  lemma DueSoonFacts(r: VerificationRecord, now: int, daysThreshold: nat)
    ensures IsVerificationDueSoon(r.nextVerificationDue, now, daysThreshold) <==>
              now < r.nextVerificationDue < now + daysThreshold * DayMs + DayMs / 2
    ensures IsVerificationDueSoon(r.nextVerificationDue, now, daysThreshold) ==>
              !Verification.IsVerificationDue(r, now)
  {
    var d := DaysBetween(now, r.nextVerificationDue);
    if d <= daysThreshold {
      assert d * DayMs <= daysThreshold * DayMs;
    } else {
      assert (daysThreshold + 1) * DayMs <= d * DayMs;
    }
  }

  // ---------------------------------------------------------------- unit conversions

  /** `tonnesToKg`. */
  function TonnesToKg(tonnes: real): real { tonnes * 1000.0 }

  /** `kgToTonnes`. */
  function KgToTonnes(kg: real): real { kg / 1000.0 }

  /** `mjToKwh`. */
  function MjToKwh(mj: real): real { mj / 3.6 }

  /** `kwhToMj`. */
  function KwhToMj(kwh: real): real { kwh * 3.6 }

  /** Each pair of conversions are inverses of each other, and both keep order. */
  lemma ConversionsInverse(x: real, y: real)
    ensures KgToTonnes(TonnesToKg(x)) == x && TonnesToKg(KgToTonnes(x)) == x
    ensures MjToKwh(KwhToMj(x)) == x && KwhToMj(MjToKwh(x)) == x
    ensures x <= y ==> TonnesToKg(x) <= TonnesToKg(y) && KwhToMj(x) <= KwhToMj(y)
    ensures x <= y ==> KgToTonnes(x) <= KgToTonnes(y) && MjToKwh(x) <= MjToKwh(y)
  {
  }

  // ---------------------------------------------------------------- records

  /** `isEmissionsDataComplete`: the four fields are all present and truthy. */
  predicate IsEmissionsDataComplete(d: EmissionsRecord) {
    TruthyNumber(d.methaneDestroyed) && TruthyNumber(d.co2Equivalent)
    && TruthyNumber(d.grossEmissionsReduction) && d.standardUsed.Some?
  }

  /** `calculateCarbonCreditValue`; the price per tonne is 30 when omitted. */
  function CalculateCarbonCreditValue(co2Tonnes: real, pricePerTonne: real): real {
    co2Tonnes * pricePerTonne
  }

  /** At the default price a tonne is worth 30, value grows with the tonnes, and the value of
      parts adds up to the value of the whole. */
  lemma CreditValueFacts(t1: real, t2: real)
    ensures CalculateCarbonCreditValue(t1, 30.0) == 30.0 * t1
    ensures t1 <= t2 ==> CalculateCarbonCreditValue(t1, 30.0) <= CalculateCarbonCreditValue(t2, 30.0)
    ensures CalculateCarbonCreditValue(t1 + t2, 30.0)
            == CalculateCarbonCreditValue(t1, 30.0) + CalculateCarbonCreditValue(t2, 30.0)
  {
  }

  const DefaultStatusColor: string := "#9ca3af"

  const StatusColors: map<string, string> := map[
    "PENDING" := "#fbbf24", "IN_PROGRESS" := "#3b82f6", "COMPLETED" := "#10b981",
    "VERIFIED" := "#10b981", "FAILED" := "#ef4444", "REJECTED" := "#ef4444",
    "MINTED" := "#8b5cf6", "AVAILABLE" := "#10b981", "SOLD" := "#3b82f6",
    "OFFSET" := "#059669", "DESTROYED" := "#6b7280"]

  /** `getStatusColor`. */
  function GetStatusColor(status: string): (color: string)
    ensures status in StatusColors ==> color == StatusColors[status]
    ensures status !in StatusColors ==> color == DefaultStatusColor
  {
    if status in StatusColors && StatusColors[status] != "" then StatusColors[status]
    else DefaultStatusColor
  }

  /** Every colour is a seven-character "#rrggbb"; the credit statuses each have their own, and
      a status without a colour gets the grey default. */
  lemma StatusColorFacts(status: string)
    ensures |GetStatusColor(status)| == 7 && GetStatusColor(status)[0] == '#'
    ensures GetStatusColor("MINTED") != GetStatusColor("DESTROYED")
    ensures GetStatusColor("MINTED") != DefaultStatusColor
    ensures GetStatusColor("DESTROYED") != DefaultStatusColor
  {
  }

  // ---------------------------------------------------------------- CSV

  /** The cells of one CSV line, each trimmed. */
  function ParseCsvLine(line: string): (cells: seq<string>)
    ensures |cells| == JsStrings.Count(line, ',') + 1
  {
    var parts := JsStrings.Split(line, ',');
    seq(|parts|, j requires 0 <= j < |parts| => JsStrings.Trim(parts[j]))
  }

  /** `parseCSV`: one row per line, split at commas, each cell trimmed. */
  function ParseCsv(csv: string): (rows: seq<seq<string>>)
    ensures |rows| == JsStrings.Count(csv, '\n') + 1
  {
    var lines := JsStrings.Split(csv, '\n');
    seq(|lines|, i requires 0 <= i < |lines| => ParseCsvLine(lines[i]))
  }

  /** Every parsed cell is already trimmed. */
  lemma ParsedCellsTrimmed(csv: string, i: nat, j: nat)
    requires i < |ParseCsv(csv)| && j < |ParseCsv(csv)[i]|
    ensures JsStrings.Trim(ParseCsv(csv)[i][j]) == ParseCsv(csv)[i][j]
  {
    var lines := JsStrings.Split(csv, '\n');
    var parts := JsStrings.Split(lines[i], ',');
    JsStrings.TrimIdempotent(parts[j]);
  }

  /** `item[header] || ''` for an item whose values are rendered text: a missing or empty value
      gives the empty cell. */
  function CsvCell(item: map<string, string>, header: string): string {
    if header in item && item[header] != "" then item[header] else ""
  }

  function CsvRow(item: map<string, string>, headers: seq<string>): (row: seq<string>)
    ensures |row| == |headers|
  {
    seq(|headers|, j requires 0 <= j < |headers| => CsvCell(item, headers[j]))
  }

  /** The lines `exportToCSV` produces: the header line, then one line per item. */
  function CsvLines(data: seq<map<string, string>>, headers: seq<string>): (lines: seq<string>)
    ensures |lines| == |data| + 1
  {
    [JsStrings.Join(headers, ',')]
    + seq(|data|, i requires 0 <= i < |data| => JsStrings.Join(CsvRow(data[i], headers), ','))
  }

  /** `exportToCSV`. */
  method ExportToCsv(data: seq<map<string, string>>, headers: seq<string>) returns (csv: string)
    ensures csv == JsStrings.Join(CsvLines(data, headers), '\n')
  {
    var rows := [JsStrings.Join(headers, ',')];
    var i := 0;
    while i < |data|
      invariant 0 <= i <= |data|
      invariant |rows| == i + 1 && rows[0] == JsStrings.Join(headers, ',')
      invariant forall k :: 0 <= k < i ==> rows[k + 1] == JsStrings.Join(CsvRow(data[k], headers), ',')
    {
      var values := CsvRow(data[i], headers);
      rows := rows + [JsStrings.Join(values, ',')];
      i := i + 1;
    }
    assert rows == CsvLines(data, headers);
    csv := JsStrings.Join(rows, '\n');
  }

  /** A cell that survives a CSV round trip: no separator in it, no surrounding whitespace. */
  predicate CsvSafe(s: string) {
    ',' !in s && '\n' !in s && JsStrings.Trim(s) == s
  }

  predicate SafeCells(cells: seq<string>) {
    forall j :: 0 <= j < |cells| ==> CsvSafe(cells[j])
  }

  predicate SafeItem(item: map<string, string>) {
    forall h :: h in item ==> CsvSafe(item[h])
  }

  lemma {:induction false} JoinAvoids(parts: seq<string>, sep: char, c: char)
    requires c != sep
    requires forall k :: 0 <= k < |parts| ==> c !in parts[k]
    ensures c !in JsStrings.Join(parts, sep)
    decreases |parts|
  {
    if |parts| > 1 {
      JoinAvoids(parts[1..], sep, c);
    }
  }

  /** The cells of a row of safe values are safe. */
  lemma CsvRowSafe(item: map<string, string>, headers: seq<string>)
    requires SafeItem(item)
    ensures SafeCells(CsvRow(item, headers))
  {
    assert JsStrings.Trim("") == "";
  }

  /** A single line of safe cells parses back to those cells. */
  lemma CsvLineRoundTrip(cells: seq<string>)
    requires |cells| >= 1
    requires SafeCells(cells)
    ensures '\n' !in JsStrings.Join(cells, ',')
    ensures ParseCsvLine(JsStrings.Join(cells, ',')) == cells
  {
    JoinAvoids(cells, ',', '\n');
    JsStrings.SplitJoin(cells, ',');
  }

  lemma CsvItemLine(item: map<string, string>, headers: seq<string>)
    requires |headers| >= 1
    requires SafeItem(item)
    ensures '\n' !in JsStrings.Join(CsvRow(item, headers), ',')
    ensures ParseCsvLine(JsStrings.Join(CsvRow(item, headers), ',')) == CsvRow(item, headers)
  {
    CsvRowSafe(item, headers);
    CsvLineRoundTrip(CsvRow(item, headers));
  }

  /** The exported line after the header line for item `i` parses back to its cells. */
  lemma CsvItemLineAt(data: seq<map<string, string>>, headers: seq<string>, i: nat)
    requires |headers| >= 1 && i < |data|
    requires SafeItem(data[i])
    ensures '\n' !in CsvLines(data, headers)[i + 1]
    ensures ParseCsvLine(CsvLines(data, headers)[i + 1]) == CsvRow(data[i], headers)
  {
    assert CsvLines(data, headers)[i + 1] == JsStrings.Join(CsvRow(data[i], headers), ',');
    CsvItemLine(data[i], headers);
  }

  /** Each exported line is free of newlines and parses back to its cells. */
  lemma CsvLinesParse(data: seq<map<string, string>>, headers: seq<string>)
    requires |headers| >= 1
    requires SafeCells(headers)
    requires forall i :: 0 <= i < |data| ==> SafeItem(data[i])
    ensures forall k :: 0 <= k < |CsvLines(data, headers)| ==> '\n' !in CsvLines(data, headers)[k]
    ensures ParseCsvLine(CsvLines(data, headers)[0]) == headers
    ensures forall i :: 0 <= i < |data| ==>
              ParseCsvLine(CsvLines(data, headers)[i + 1]) == CsvRow(data[i], headers)
  {
    CsvLineRoundTrip(headers);
    forall i | 0 <= i < |data|
      ensures ParseCsvLine(CsvLines(data, headers)[i + 1]) == CsvRow(data[i], headers)
    {
      CsvItemLineAt(data, headers, i);
    }
    forall k | 0 <= k < |CsvLines(data, headers)| ensures '\n' !in CsvLines(data, headers)[k] {
      if k > 0 {
        CsvItemLineAt(data, headers, k - 1);
      }
    }
  }

  /** Exporting and parsing back gives the header row and one row of cells per item, provided
      there is at least one header and no header or value holds a comma, a newline or
      surrounding whitespace. */
  lemma CsvRoundTrip(data: seq<map<string, string>>, headers: seq<string>)
    requires |headers| >= 1
    requires SafeCells(headers)
    requires forall i :: 0 <= i < |data| ==> SafeItem(data[i])
    ensures var rows := ParseCsv(JsStrings.Join(CsvLines(data, headers), '\n'));
            |rows| == |data| + 1 && rows[0] == headers
            && forall i :: 0 <= i < |data| ==> rows[i + 1] == CsvRow(data[i], headers)
  {
    var lines := CsvLines(data, headers);
    CsvLinesParse(data, headers);
    JsStrings.SplitJoin(lines, '\n');
    var rows := ParseCsv(JsStrings.Join(lines, '\n'));
    assert |rows| == |lines|;
    assert forall k :: 0 <= k < |lines| ==> rows[k] == ParseCsvLine(lines[k]);
  }
}
