/** The search-result click of the home page's search box: a search result is
    turned into the record the conversation page shows (congress, bill number,
    chamber type, last-update date), and the chamber label of the info cards. */
module ResultParsing {
  import opened Wrappers
  import opened Strings

  /** A search result as the search returns it. */
  datatype SearchResult = SearchResult(
    title: string,
    packageId: string,
    origin: string,
    lastModified: string,
    resultLink: string)

  /** The record handed to the conversation page. */
  datatype ParsedResult = ParsedResult(
    title: string,
    congress: string,
    number: string,
    billType: string,
    updateDate: string,
    url: string)

  /** `packageId.split('-')[1]` is `undefined` when the id has no `-`, and
      calling `.slice` on it throws; the click handler then gives up. */
  datatype ParseError = NoCongressSegment

  /** `packageId.split('-').pop()`: the text after the last `-` (all of
      `packageId` when it has none). */
  function LastSegment(packageId: string): (segment: string)
    ensures '-' !in segment
    ensures |segment| <= |packageId| && segment == packageId[|packageId| - |segment|..]
    ensures |segment| < |packageId| ==> packageId[|packageId| - |segment| - 1] == '-'
    ensures '-' !in packageId ==> segment == packageId
  {
    SplitLastIsSuffix(packageId, '-');
    var parts := Split(packageId, '-');
    parts[|parts| - 1]
  }

  /** The bill number as the handler computes it: every digit of the last
      segment, so the congress digits in front are kept as well. */
  function AsWrittenNumber(packageId: string): (number: string)
    ensures AllDigits(number)
    ensures |number| <= |LastSegment(packageId)|
  {
    DigitsOnly(LastSegment(packageId))
  }

  /** The bill number as intended: the run of digits after the congress
      digits and the type letters of the last segment. */
  function Number(packageId: string): (number: string)
    ensures AllDigits(number)
    ensures |number| <= |LastSegment(packageId)|
  {
    LeadingDigits(DropNonDigits(DropLeadingDigits(LastSegment(packageId))))
  }

  /** `origin === "House" ? "HR" : "S"`. */
  function BillType(origin: string): (billType: string)
    ensures billType == "HR" <==> origin == "House"
    ensures billType == "S" <==> origin != "House"
  {
    if origin == "House" then "HR" else "S"
  }

  /** `lastModified.split('T')[0]`: the part of `lastModified` before its
      first `T`, or all of it when there is none. */
  function UpdateDate(lastModified: string): (date: string)
    ensures |date| <= |lastModified| && date == lastModified[..|date|]
    ensures 'T' !in date
    ensures |date| < |lastModified| ==> lastModified[|date|] == 'T'
    ensures 'T' !in lastModified ==> date == lastModified
  {
    SplitFirstIsPrefix(lastModified, 'T');
    Split(lastModified, 'T')[0]
  }

  /** The `parsedResult` object of `handleResultClick`. */
  function ParseResult(result: SearchResult): (parsed: Result<ParsedResult, ParseError>)
    ensures parsed.Failure? <==> '-' !in result.packageId
    ensures parsed.Success? ==>
      && parsed.value.title == result.title
      && parsed.value.url == result.resultLink
      && |parsed.value.congress| <= 3
      && AllDigits(parsed.value.number)
    ensures parsed.Success? ==>
      && parsed.value.number == Number(result.packageId)
      && parsed.value.billType == BillType(result.origin)
      && parsed.value.updateDate == UpdateDate(result.lastModified)
  {
    var parts := Split(result.packageId, '-');
    if |parts| < 2 then Failure(NoCongressSegment)
    else Success(ParsedResult(
      result.title,
      Take(parts[1], 3),
      Number(result.packageId),
      BillType(result.origin),
      UpdateDate(result.lastModified),
      result.resultLink))
  }

  /** A `-` at the front of a text gives an empty first piece. */
  lemma SplitDash(rest: string)
    ensures Split("-" + rest, '-') == [""] + Split(rest, '-')
  {
    assert ("-" + rest)[1..] == rest;
  }

  /** With an id `collection-segment…` the parse succeeds and the congress is
      the first three characters of `segment`. */
  lemma CongressOfPackageId(result: SearchResult, collection: string, segment: string, rest: string)
    requires '-' !in collection && '-' !in segment
    requires |rest| > 0 ==> rest[0] == '-'
    requires result.packageId == collection + "-" + segment + rest
    ensures ParseResult(result).Success?
    ensures ParseResult(result).value.congress == Take(segment, 3)
  {
    var tail := segment + rest;
    assert result.packageId == collection + ("-" + tail);
    SplitPrefix(collection, "-" + tail, '-');
    SplitDash(tail);
    SplitPrefix(segment, rest, '-');
    if |rest| > 0 {
      SplitDash(rest[1..]);
      assert rest == "-" + rest[1..];
    }
    assert Split(rest, '-')[0] == "";
    assert segment + "" == segment && collection + "" == collection;
    var parts := Split(result.packageId, '-');
    assert parts[1] == segment;
  }

  /** The last segment of `collection-segment`, when neither holds a `-`. */
  lemma LastSegmentOf(collection: string, segment: string)
    requires '-' !in collection && '-' !in segment
    ensures LastSegment(collection + "-" + segment) == segment
  {
    assert Join([collection, segment], '-') == collection + "-" + segment;
    SplitJoin([collection, segment], '-');
  }

  /** In a segment `<congress><type><number><version>` the run of digits
      after the type letters is `<number>`. */
  lemma IntendedNumberOfSegment(congress: string, letters: string, number: string, version: string)
    requires AllDigits(congress) && |letters| > 0 && NoDigits(letters)
    requires |number| > 0 && AllDigits(number)
    requires |version| > 0 ==> !IsDigit(version[0])
    ensures LeadingDigits(DropNonDigits(DropLeadingDigits(congress + letters + number + version))) == number
  {
    assert !IsDigit(letters[0]);
    assert congress + letters + number + version == congress + (letters + (number + version));
    DropLeadingDigitsOf(congress, letters + (number + version));
    DropNonDigitsOf(letters, number + version);
    LeadingDigitsOf(number, version);
  }

  /** In the same segment, keeping every digit gives the congress digits,
      then the number, then any digits of the version. */
  lemma AllDigitsOfSegment(congress: string, letters: string, number: string, version: string)
    requires AllDigits(congress) && NoDigits(letters) && AllDigits(number)
    ensures DigitsOnly(congress + letters + number + version) == congress + number + DigitsOnly(version)
  {
    var front, back := congress + letters, number + version;
    assert congress + letters + number + version == front + back;
    DigitsOnlyAppend(front, back);
    DigitsOnlyAppend(congress, letters);
    DigitsOnlyKeeps(congress);
    DigitsOnlyKeeps(letters);
    assert DigitsOnly(front) == congress;
    DigitsOnlyAppend(number, version);
    DigitsOnlyKeeps(number);
    assert DigitsOnly(back) == number + DigitsOnly(version);
  }

  /** For an id `collection-<congress><type><number><version>` — congress and
      number digits, type letters, a version that does not start with a
      digit — the intended number is `<number>`, while the handler's number
      has the congress digits in front of it. */
  lemma NumberOfPackageId(collection: string, congress: string, letters: string,
      number: string, version: string)
    requires '-' !in collection && '-' !in letters && '-' !in version
    requires AllDigits(congress) && |letters| > 0 && NoDigits(letters)
    requires |number| > 0 && AllDigits(number)
    requires |version| > 0 ==> !IsDigit(version[0])
    ensures var packageId := collection + "-" + (congress + letters + number + version);
      && Number(packageId) == number
      && AsWrittenNumber(packageId) == congress + number + DigitsOnly(version)
  {
    var segment := congress + letters + number + version;
    assert '-' !in congress && '-' !in number;
    assert '-' !in segment;
    LastSegmentOf(collection, segment);
    IntendedNumberOfSegment(congress, letters, number, version);
    AllDigitsOfSegment(congress, letters, number, version);
  }

  /** `NumberOfPackageId` for an id given by name, so that a caller with a
      literal id does not have to unfold the split of the literal. */
  lemma NumberOfPackageIdAt(collection: string, congress: string, letters: string,
      number: string, version: string, packageId: string)
    requires '-' !in collection && '-' !in letters && '-' !in version
    requires AllDigits(congress) && |letters| > 0 && NoDigits(letters)
    requires |number| > 0 && AllDigits(number)
    requires |version| > 0 ==> !IsDigit(version[0])
    requires packageId == collection + "-" + (congress + letters + number + version)
    ensures Number(packageId) == number
    ensures AsWrittenNumber(packageId) == congress + number + DigitsOnly(version)
  {
    NumberOfPackageId(collection, congress, letters, number, version);
  }

  /** The example id of the handler's own comment: the intended number is
      `9773`, but the handler produces the congress `118` followed by `9773`. */
  lemma AsWrittenNumberExample(packageId: string)
    requires packageId == "BILLS-118hr9773ih"
    ensures AsWrittenNumber(packageId) == "118" + "9773"
    ensures Number(packageId) == "9773"
    ensures AsWrittenNumber(packageId) != Number(packageId)
  {
    var congress, letters, number, version := "118", "hr", "9773", "ih";
    assert NoDigits(letters) && NoDigits(version);
    assert packageId == "BILLS" + "-" + (congress + letters + number + version);
    NumberOfPackageIdAt("BILLS", congress, letters, number, version, packageId);
    var tail := DigitsOnly(version);
    assert tail == "" by { DigitsOnlyKeeps(version); }
    assert congress + number + tail == congress + number;
  }

  /** The chamber label of a bill or law card: `"Senate"` for type `"S"`,
      `"House"` for anything else. */
  function OriginHouseLabel(billType: string): (shown: string)
    ensures shown == "Senate" <==> billType == "S"
    ensures shown == "House" <==> billType != "S"
  {
    if billType == "S" then "Senate" else "House"
  }

  /** A parsed result shows `"House"` exactly when its origin was `"House"`
      and `"Senate"` for every other origin. */
  lemma ParsedLabel(result: SearchResult)
    requires ParseResult(result).Success?
    ensures OriginHouseLabel(ParseResult(result).value.billType) == "House" <==> result.origin == "House"
    ensures OriginHouseLabel(ParseResult(result).value.billType) == "Senate" <==> result.origin != "House"
  {
    var parts := Split(result.packageId, '-');
    assert ParseResult(result).value.billType == BillType(result.origin);
  }
}
