/**
 * The property query engine of frontend/src/utils/searchUtils.js: the
 * order-preserving filter of the catalog against the search criteria and
 * its helpers (month lookup, postcode-area extraction, date formatting).
 */
module SearchUtils {
  import opened Wrappers
  import opened JsText
  import opened JsDate
  import opened Listing

  /**
   * The criteria object. A string criterion that is "" (falsy) and a date
   * criterion that is None (null) impose no constraint. Numeric bounds are
   * the raw strings of the form; dates are time values in milliseconds.
   */
  datatype SearchCriteria = SearchCriteria(
    propertyType: string,
    minPrice: string,
    maxPrice: string,
    minBedrooms: string,
    maxBedrooms: string,
    dateAfter: Option<int>,
    dateBefore: Option<int>,
    postcode: string)

  const NoCriteria := SearchCriteria("", "", "", "", "", None, None, "")

  // ------------------------------------------------------------ getMonthNumber

  /** The lookup object of getMonthNumber. */
  const Months: map<string, int> := map[
    "January" := 1, "February" := 2, "March" := 3, "April" := 4,
    "May" := 5, "June" := 6, "July" := 7, "August" := 8,
    "September" := 9, "October" := 10, "November" := 11, "December" := 12]

  /** The English month names in calendar order. */
  const MonthNames: seq<string> := [
    "January", "February", "March", "April", "May", "June", "July",
    "August", "September", "October", "November", "December"]

  /** `months[monthName] || 1`: the month's number, January for any other string. */
  function GetMonthNumber(monthName: string): (m: int)
    ensures 1 <= m <= 12
  {
    if monthName in Months then Months[monthName] else 1
  }

  /** Each month name maps to its position in the calendar; every other string to 1. */
  lemma MonthNumbersFollowCalendar(monthName: string)
    ensures forall k :: 0 <= k < 12 ==> GetMonthNumber(MonthNames[k]) == k + 1
    ensures monthName !in MonthNames ==> GetMonthNumber(monthName) == 1
    ensures monthName in MonthNames ==> MonthNames[GetMonthNumber(monthName) - 1] == monthName
  {
    forall k | 0 <= k < 12 ensures GetMonthNumber(MonthNames[k]) == k + 1 {
    }
    assert monthName in Months ==> monthName in MonthNames;
  }

  /**
   * Names a plain JavaScript object inherits from Object.prototype; looking
   * one up in the `months` object finds that member instead of undefined.
   */
  const ObjectPrototypeMembers: set<string> := {
    "constructor", "__proto__", "hasOwnProperty", "isPrototypeOf",
    "propertyIsEnumerable", "toLocaleString", "toString", "valueOf",
    "__defineGetter__", "__defineSetter__", "__lookupGetter__", "__lookupSetter__"}

  /** What `months[monthName] || 1` evaluates to in JavaScript. */
  datatype LookupResult = MonthNumber(n: int) | InheritedMember(name: string)

  /** getMonthNumber as written: inherited members are truthy and come back unchanged. */
  function GetMonthNumberAsWritten(monthName: string): (v: LookupResult)
    ensures monthName !in ObjectPrototypeMembers ==> v == MonthNumber(GetMonthNumber(monthName))
    ensures monthName in ObjectPrototypeMembers ==> v.InheritedMember?
  {
    if monthName in Months then MonthNumber(Months[monthName])
    else if monthName in ObjectPrototypeMembers then InheritedMember(monthName)
    else MonthNumber(1)
  }

  /**
   * As written, a record whose month is "toString" gets a function, not a
   * number: `getMonthNumber(...) - 1` is NaN and the Date is invalid, so
   * the date bounds can never exclude it; the intended fallback is January.
   */
  lemma InheritedMonthNameIsNotANumber()
    ensures GetMonthNumberAsWritten("toString") == InheritedMember("toString")
    ensures GetMonthNumber("toString") == 1
  {
  }

  // ------------------------------------------------------ extractPostcodeArea

  /** The word characters of JavaScript's `\b`. */
  predicate IsWordChar(c: char) { IsUpper(c) || IsLower(c) || IsDigit(c) || c == '_' }

  predicate WordAt(s: string, k: int) { 0 <= k < |s| && IsWordChar(s[k]) }

  /** `\b` holds at position k: exactly one of the characters around it is a word character. */
  predicate WordBoundary(s: string, k: int) { WordAt(s, k - 1) != WordAt(s, k) }

  /** From i on, s has a upper-case letters, then b digits, then c upper-case letters. */
  predicate Shaped(s: string, i: int, a: int, b: int, c: int) {
    && 1 <= a <= 2 && 1 <= b <= 2 && 0 <= c <= 1
    && 0 <= i && i + a + b + c <= |s|
    && (forall k :: i <= k < i + a ==> IsUpper(s[k]))
    && (forall k :: i + a <= k < i + a + b ==> IsDigit(s[k]))
    && (forall k :: i + a + b <= k < i + a + b + c ==> IsUpper(s[k]))
  }

  /** `\b([A-Z]{1,2}\d{1,2}[A-Z]?)\b` matches s[i..j]. */
  ghost predicate MatchesAt(s: string, i: int, j: int) {
    && WordBoundary(s, i) && WordBoundary(s, j)
    && exists a, b, c :: Shaped(s, i, a, b, c) && j == i + a + b + c
  }

  /** s[i..j] is the match `match` reports: no match starts further left. */
  ghost predicate LeftmostMatch(s: string, i: int, j: int) {
    MatchesAt(s, i, j) && forall i', j' :: 0 <= i' < i ==> !MatchesAt(s, i', j')
  }

  /**
   * The end of the match starting at i, if there is one. Each part of the
   * pattern takes as many characters as it can: giving one back never
   * leads to a match, so this is the regular expression's only match at i.
   */
  function MatchAt(s: string, i: nat): Option<nat>
  {
    if i >= |s| || !IsUpper(s[i]) || !WordBoundary(s, i) then None
    else
      var p := if i + 1 < |s| && IsUpper(s[i + 1]) then i + 2 else i + 1;
      if p >= |s| || !IsDigit(s[p]) then None
      else
        var q := if p + 1 < |s| && IsDigit(s[p + 1]) then p + 2 else p + 1;
        var e := if q < |s| && IsUpper(s[q]) then q + 1 else q;
        if WordBoundary(s, e) then Some(e) else None
  }

  /**
   * The scanner finds exactly the regular expression's matches, so a start
   * position has at most one match and the leftmost start decides.
   */
  lemma MatchAtIsRegexMatch(s: string, i: nat, j: int)
    ensures MatchAt(s, i) == Some(j) <==> MatchesAt(s, i, j)
  {
    if MatchAt(s, i) == Some(j) {
      ScannedIsMatch(s, i, j);
    }
    if MatchesAt(s, i, j) {
      var a, b, c :| Shaped(s, i, a, b, c) && j == i + a + b + c;
      MatchIsScanned(s, i, a, b, c);
    }
  }

  lemma ScannedIsMatch(s: string, i: nat, j: int)
    requires MatchAt(s, i) == Some(j)
    ensures MatchesAt(s, i, j)
  {
    var p := if i + 1 < |s| && IsUpper(s[i + 1]) then i + 2 else i + 1;
    var q := if p + 1 < |s| && IsDigit(s[p + 1]) then p + 2 else p + 1;
    assert Shaped(s, i, p - i, q - p, j - q);
  }

  lemma MatchIsScanned(s: string, i: nat, a: int, b: int, c: int)
    requires Shaped(s, i, a, b, c)
    requires WordBoundary(s, i) && WordBoundary(s, i + a + b + c)
    ensures MatchAt(s, i) == Some(i + a + b + c)
  {
    assert IsUpper(s[i]) && IsDigit(s[i + a]);
    assert a == 2 ==> IsUpper(s[i + 1]);
    assert b == 2 ==> IsDigit(s[i + a + 1]);
    assert c == 1 ==> IsUpper(s[i + a + b]);
    assert WordAt(s, i + a + b + c - 1);
  }

  /** At most one match starts at any position. */
  lemma MatchIsUniquePerStart(s: string, i: nat, j1: int, j2: int)
    requires MatchesAt(s, i, j1) && MatchesAt(s, i, j2)
    ensures j1 == j2
  {
    MatchAtIsRegexMatch(s, i, j1);
    MatchAtIsRegexMatch(s, i, j2);
  }

  lemma NoMatchAtOrBeyondEnd(s: string, i: int, j: int)
    requires i >= |s|
    ensures !MatchesAt(s, i, j)
  {
  }

  /** The leftmost match at or after position i. */
  function FirstMatchFrom(s: string, i: nat): (r: Option<(nat, nat)>)
    ensures r.Some? ==> i <= r.value.0 && MatchesAt(s, r.value.0, r.value.1)
                        && forall i', j' :: i <= i' < r.value.0 ==> !MatchesAt(s, i', j')
    ensures r.None? ==> forall i', j' :: i <= i' ==> !MatchesAt(s, i', j')
    decreases |s| - i
  {
    if i >= |s| then
      assert forall i', j' :: i <= i' ==> !MatchesAt(s, i', j') by {
        forall i', j' | i <= i' { NoMatchAtOrBeyondEnd(s, i', j'); }
      }
      None
    else
      match MatchAt(s, i)
      case Some(j) =>
        MatchAtIsRegexMatch(s, i, j);
        Some((i, j))
      case None =>
        assert forall j' :: !MatchesAt(s, i, j') by {
          forall j' { MatchAtIsRegexMatch(s, i, j'); }
        }
        FirstMatchFrom(s, i + 1)
  }

  /**
   * extractPostcodeArea: the first whole-word match of the postcode-area
   * pattern, or "" when the location has none.
   */
  function ExtractPostcodeArea(location: string): (r: string)
    ensures r == "" <==> forall i, j :: !MatchesAt(location, i, j)
    ensures r != "" ==> exists i, j :: LeftmostMatch(location, i, j) && r == location[i..j]
    ensures r != "" ==> 2 <= |r| <= 5
  {
    match FirstMatchFrom(location, 0)
    case Some((i, j)) =>
      assert LeftmostMatch(location, i, j);
      location[i..j]
    case None =>
      assert forall i, j :: !MatchesAt(location, i, j);
      ""
  }

  /** A non-empty postcode area is upper-case letters and digits, starting with a letter. */
  lemma PostcodeAreaShape(location: string)
    ensures var r := ExtractPostcodeArea(location);
            r != "" ==> IsUpper(r[0]) && forall k :: 0 <= k < |r| ==> IsUpper(r[k]) || IsDigit(r[k])
  {
    var r := ExtractPostcodeArea(location);
    if r != "" {
      var i, j :| LeftmostMatch(location, i, j) && r == location[i..j];
      var a, b, c :| Shaped(location, i, a, b, c) && j == i + a + b + c;
      ShapedChars(location, i, a, b, c);
    }
  }

  lemma ShapedChars(s: string, i: int, a: int, b: int, c: int)
    requires Shaped(s, i, a, b, c)
    ensures var r := s[i..i + a + b + c];
            IsUpper(r[0]) && forall k :: 0 <= k < |r| ==> IsUpper(r[k]) || IsDigit(r[k])
  {
    var r := s[i..i + a + b + c];
    forall k | 0 <= k < |r|
      ensures IsUpper(r[k]) || IsDigit(r[k])
    {
      assert r[k] == s[i + k];
    }
  }

  /**
   * An address whose text before a trailing postcode area has no digits,
   * and ends with a non-word character, yields that area.
   */
  lemma AreaAfterDigitFreeText(head: string, code: string)
    requires forall k :: 0 <= k < |head| ==> !IsDigit(head[k])
    requires head == [] || !IsWordChar(head[|head| - 1])
    requires MatchAt(code, 0) == Some(|code|)
    ensures ExtractPostcodeArea(head + code) == code
  {
    var s := head + code;
    var n := |head|;
    MatchAfterHead(head, code);
    forall k | 0 <= k < n ensures MatchAt(s, k) == None {
      NoMatchInHead(head, code, k);
    }
    FirstMatchSkipsTo(s, 0, n, |s|);
    assert s[n..|s|] == code;
  }

  /** The scan from i reports the first start at which the scanner matches. */
  lemma {:induction false} FirstMatchSkipsTo(s: string, i: nat, n: nat, e: nat)
    requires i <= n
    requires forall k :: i <= k < n ==> MatchAt(s, k) == None
    requires MatchAt(s, n) == Some(e)
    ensures FirstMatchFrom(s, i) == Some((n, e))
    decreases n - i
  {
    if i < n {
      FirstMatchSkipsTo(s, i + 1, n, e);
    }
  }

  lemma MatchAfterHead(head: string, code: string)
    requires head == [] || !IsWordChar(head[|head| - 1])
    requires MatchAt(code, 0) == Some(|code|)
    ensures MatchAt(head + code, |head|) == Some(|head| + |code|)
  {
    var s := head + code;
    var n := |head|;
    MatchAtIsRegexMatch(code, 0, |code|);
    var a, b, c :| Shaped(code, 0, a, b, c) && |code| == a + b + c;
    ShapedShifts(head, code, a, b, c);
    assert WordAt(s, n - 1) == WordAt(code, -1);
    assert WordAt(s, |s| - 1) == WordAt(code, |code| - 1);
    assert MatchesAt(s, n, |s|);
    MatchAtIsRegexMatch(s, n, |s|);
  }

  lemma ShapedShifts(head: string, code: string, a: int, b: int, c: int)
    requires Shaped(code, 0, a, b, c)
    ensures Shaped(head + code, |head|, a, b, c)
  {
    assert forall k :: 0 <= k < |code| ==> (head + code)[|head| + k] == code[k];
  }

  lemma NoMatchInHead(head: string, code: string, i: nat)
    requires forall k :: 0 <= k < |head| ==> !IsDigit(head[k])
    requires head == [] || !IsWordChar(head[|head| - 1])
    requires MatchAt(code, 0) == Some(|code|)
    requires i < |head|
    ensures MatchAt(head + code, i) == None
  {
    var s := head + code;
    var n := |head|;
    assert s[i] == head[i];
    assert i + 1 < n ==> s[i + 1] == head[i + 1];
    assert i + 2 < n ==> s[i + 2] == head[i + 2];
    assert IsUpper(code[0]);
    assert i + 1 == n ==> s[i + 1] == code[0];
    assert i + 2 == n ==> s[i + 2] == code[0];
  }

  // --------------------------------------------------------- filterProperties

  /** The time value of `new Date(added.year, getMonthNumber(added.month) - 1, added.day)`. */
  function AddedTime(added: AddedDate): int
  {
    LocalMidnight(added.year, GetMonthNumber(added.month), added.day)
  }

  /** The calendar day that the Date constructor reads the record's `added` field as. */
  function AddedDay(added: AddedDate): CalendarDate
  {
    CalendarDate(MakeFullYear(added.year), GetMonthNumber(added.month), added.day)
  }

  /** `x < parseInt(bound)`, which is false when the bound is NaN. */
  predicate BelowBound(x: int, bound: string) {
    match ParseInt(bound)
    case Some(n) => x < n
    case None => false
  }

  /** `x > parseInt(bound)`, which is false when the bound is NaN. */
  predicate AboveBound(x: int, bound: string) {
    match ParseInt(bound)
    case Some(n) => x > n
    case None => false
  }

  /**
   * The callback given to `properties.filter`: its guards in order, each an
   * early `return false`. A kept record meets every criterion that is set.
   */
  predicate Keep(p: Property, c: SearchCriteria)
    ensures Keep(p, c) && c.propertyType != "" ==> p.propertyType == c.propertyType
    ensures Keep(p, c) && c.minPrice != "" && ParseInt(c.minPrice).Some? ==> p.price >= ParseInt(c.minPrice).value
    ensures Keep(p, c) && c.maxPrice != "" && ParseInt(c.maxPrice).Some? ==> p.price <= ParseInt(c.maxPrice).value
    ensures Keep(p, c) && c.minBedrooms != "" && ParseInt(c.minBedrooms).Some? ==> p.bedrooms >= ParseInt(c.minBedrooms).value
    ensures Keep(p, c) && c.maxBedrooms != "" && ParseInt(c.maxBedrooms).Some? ==> p.bedrooms <= ParseInt(c.maxBedrooms).value
    ensures Keep(p, c) && c.dateAfter.Some? ==> AddedTime(p.added) >= c.dateAfter.value
    ensures Keep(p, c) && c.dateBefore.Some? ==> AddedTime(p.added) <= c.dateBefore.value
    ensures Keep(p, c) && c.postcode != "" ==> Includes(ExtractPostcodeArea(p.location), c.postcode)
  {
    if c.propertyType != "" && p.propertyType != c.propertyType then false
    else if c.minPrice != "" && BelowBound(p.price, c.minPrice) then false
    else if c.maxPrice != "" && AboveBound(p.price, c.maxPrice) then false
    else if c.minBedrooms != "" && BelowBound(p.bedrooms, c.minBedrooms) then false
    else if c.maxBedrooms != "" && AboveBound(p.bedrooms, c.maxBedrooms) then false
    else if c.dateAfter.Some? && AddedTime(p.added) < c.dateAfter.value then false
    else if c.dateBefore.Some? && AddedTime(p.added) > c.dateBefore.value then false
    else if c.postcode != "" && !Includes(ExtractPostcodeArea(p.location), c.postcode) then false
    else true
  }

  /**
   * The callback as written, with getMonthNumber's inherited members: the
   * Date of a record whose month names a member of Object.prototype is
   * invalid, every `<` and `>` against it is false, and neither date guard
   * fires; every other record fares as under Keep.
   */
  predicate KeepAsWritten(p: Property, c: SearchCriteria)
    ensures p.added.month !in ObjectPrototypeMembers ==> (KeepAsWritten(p, c) <==> Keep(p, c))
    ensures p.added.month in ObjectPrototypeMembers ==> (KeepAsWritten(p, c) <==> Keep(p, c.(dateAfter := None, dateBefore := None)))
  {
    match GetMonthNumberAsWritten(p.added.month)
    case InheritedMember(_) => Keep(p, c.(dateAfter := None, dateBefore := None))
    case MonthNumber(_) => Keep(p, c)
  }

  /**
   * A record added in month "toString" of 2024, searched with dateAfter at
   * midnight on 1 June 2024: as written the record is kept, while the
   * intended January fallback puts it before the bound and excludes it.
   */
  lemma InheritedMonthEscapesDateBounds(p: Property, c: SearchCriteria)
    requires p.added == AddedDate("toString", 1, 2024)
    requires c == NoCriteria.(dateAfter := Some(Midnight(CalendarDate(2024, 6, 1))))
    ensures KeepAsWritten(p, c)
    ensures !Keep(p, c)
  {
    assert AddedDay(p.added) == CalendarDate(2024, 1, 1);
    assert Ordinal(CalendarDate(2024, 1, 1)) < Ordinal(CalendarDate(2024, 6, 1));
    MidnightOrder(CalendarDate(2024, 1, 1), CalendarDate(2024, 6, 1), 0);
  }

  /** filterProperties: the records that pass every supplied criterion, in catalog order. */
  function FilterProperties(properties: seq<Property>, c: SearchCriteria): (r: seq<Property>)
    ensures |r| <= |properties|
    ensures forall x :: x in r ==> x in properties && Keep(x, c)
    ensures forall k :: 0 <= k < |properties| && Keep(properties[k], c) ==> properties[k] in r
  {
    if properties == [] then []
    else (if Keep(properties[0], c) then [properties[0]] else []) + FilterProperties(properties[1..], c)
  }

  /** r is s's elements at the strictly increasing positions idx. */
  ghost predicate SubsequenceAt<T>(r: seq<T>, s: seq<T>, idx: seq<int>) {
    && |idx| == |r|
    && (forall k :: 0 <= k < |idx| ==> 0 <= idx[k] < |s| && r[k] == s[idx[k]])
    && (forall k, l :: 0 <= k < l < |idx| ==> idx[k] < idx[l])
  }

  /** The positions of the kept records: the result is the catalog restricted to them, in order. */
  function KeptPositions(properties: seq<Property>, c: SearchCriteria): (idx: seq<int>)
    ensures SubsequenceAt(FilterProperties(properties, c), properties, idx)
    ensures forall i :: 0 <= i < |properties| ==> (i in idx <==> Keep(properties[i], c))
  {
    assert properties[0..] == properties;
    KeptFrom(properties, c, 0)
  }

  /** The positions at or after i of the records kept from properties[i..]. */
  function KeptFrom(properties: seq<Property>, c: SearchCriteria, i: nat): (idx: seq<int>)
    requires i <= |properties|
    ensures SubsequenceAt(FilterProperties(properties[i..], c), properties, idx)
    ensures forall k :: k in idx ==> i <= k
    ensures forall k :: i <= k < |properties| ==> (k in idx <==> Keep(properties[k], c))
    decreases |properties| - i
  {
    if i == |properties| then []
    else
      var rest := KeptFrom(properties, c, i + 1);
      var kept := Keep(properties[i], c);
      KeptStep(properties, c, i, rest, kept);
      if kept then [i] + rest else rest
  }

  lemma KeptStep(properties: seq<Property>, c: SearchCriteria, i: nat, rest: seq<int>, kept: bool)
    requires i < |properties| && kept == Keep(properties[i], c)
    requires SubsequenceAt(FilterProperties(properties[i + 1..], c), properties, rest)
    requires forall k :: k in rest ==> i + 1 <= k
    requires forall k :: i + 1 <= k < |properties| ==> (k in rest <==> Keep(properties[k], c))
    ensures var idx := if kept then [i] + rest else rest;
            && SubsequenceAt(FilterProperties(properties[i..], c), properties, idx)
            && (forall k :: k in idx ==> i <= k)
            && (forall k :: i <= k < |properties| ==> (k in idx <==> Keep(properties[k], c)))
  {
    KeptStepOrder(properties, c, i, rest, kept);
    KeptStepMembers(properties, c, i, rest, kept);
  }

  lemma KeptStepOrder(properties: seq<Property>, c: SearchCriteria, i: nat, rest: seq<int>, kept: bool)
    requires i < |properties| && kept == Keep(properties[i], c)
    requires SubsequenceAt(FilterProperties(properties[i + 1..], c), properties, rest)
    requires forall k :: k in rest ==> i + 1 <= k
    ensures SubsequenceAt(FilterProperties(properties[i..], c), properties, if kept then [i] + rest else rest)
  {
    FilterStep(properties, c, i);
    SubsequenceStep(properties, FilterProperties(properties[i..], c), FilterProperties(properties[i + 1..], c), rest, i, kept);
  }

  lemma SubsequenceStep<T>(s: seq<T>, f: seq<T>, g: seq<T>, rest: seq<int>, i: int, kept: bool)
    requires 0 <= i < |s| && f == (if kept then [s[i]] else []) + g
    requires SubsequenceAt(g, s, rest) && forall k :: k in rest ==> i < k
    ensures SubsequenceAt(f, s, if kept then [i] + rest else rest)
  {
    if kept {
      SubsequenceCons(s, g, rest, i);
    } else {
      assert f == g;
    }
  }

  lemma KeptStepMembers(properties: seq<Property>, c: SearchCriteria, i: nat, rest: seq<int>, kept: bool)
    requires i < |properties| && kept == Keep(properties[i], c)
    requires forall k :: k in rest ==> i + 1 <= k
    requires forall k :: i + 1 <= k < |properties| ==> (k in rest <==> Keep(properties[k], c))
    ensures var idx := if kept then [i] + rest else rest;
            && (forall k :: k in idx ==> i <= k)
            && (forall k :: i <= k < |properties| ==> (k in idx <==> Keep(properties[k], c)))
  {
  }

  lemma FilterStep(properties: seq<Property>, c: SearchCriteria, i: nat)
    requires i < |properties|
    ensures FilterProperties(properties[i..], c)
            == (if Keep(properties[i], c) then [properties[i]] else []) + FilterProperties(properties[i + 1..], c)
  {
    assert properties[i..][1..] == properties[i + 1..];
  }

  lemma SubsequenceCons<T>(s: seq<T>, r: seq<T>, idx: seq<int>, i: int)
    requires 0 <= i < |s| && SubsequenceAt(r, s, idx)
    requires forall k :: k in idx ==> i < k
    ensures SubsequenceAt([s[i]] + r, s, [i] + idx)
  {
    var r', idx' := [s[i]] + r, [i] + idx;
    forall k | 0 <= k < |idx'| ensures 0 <= idx'[k] < |s| && r'[k] == s[idx'[k]] {
      if k > 0 { assert idx'[k] == idx[k - 1] && r'[k] == r[k - 1]; }
    }
    forall k, l | 0 <= k < l < |idx'| ensures idx'[k] < idx'[l] {
      if k > 0 { assert idx'[k] == idx[k - 1]; }
      assert idx'[l] == idx[l - 1] && idx[l - 1] in idx;
    }
  }

  /** When every record passes, the filter returns its input unchanged. */
  lemma {:induction false} FilterKeepsAllWhenAllPass(properties: seq<Property>, c: SearchCriteria)
    requires forall k :: 0 <= k < |properties| ==> Keep(properties[k], c)
    ensures FilterProperties(properties, c) == properties
  {
    if properties != [] {
      FilterKeepsAllWhenAllPass(properties[1..], c);
    }
  }

  /** With every criterion empty or null the filter is the identity: same records, same order. */
  lemma FilterWithoutCriteriaIsIdentity(properties: seq<Property>)
    ensures FilterProperties(properties, NoCriteria) == properties
  {
    FilterKeepsAllWhenAllPass(properties, NoCriteria);
  }

  /** Filtering a concatenation filters each part: the order of the catalog carries over. */
  lemma {:induction false} FilterDistributes(a: seq<Property>, b: seq<Property>, c: SearchCriteria)
    ensures FilterProperties(a + b, c) == FilterProperties(a, c) + FilterProperties(b, c)
  {
    if a != [] {
      assert (a + b)[1..] == a[1..] + b;
      FilterDistributes(a[1..], b, c);
    } else {
      assert a + b == b;
    }
  }

  /** Filtering twice with the same criteria changes nothing more. */
  lemma FilterIsIdempotent(properties: seq<Property>, c: SearchCriteria)
    ensures FilterProperties(FilterProperties(properties, c), c) == FilterProperties(properties, c)
  {
    var r := FilterProperties(properties, c);
    FilterKeepsAllWhenAllPass(r, c);
  }

  /** The type criterion is exact equality; a matching type is as good as no type criterion. */
  lemma TypeCriterionIsExact(p: Property, c: SearchCriteria)
    ensures c.propertyType != "" && Keep(p, c) ==> p.propertyType == c.propertyType
    ensures p.propertyType == c.propertyType ==> Keep(p, c) == Keep(p, c.(propertyType := ""))
  {
  }

  /**
   * Price and bedroom bounds are inclusive, and a bound that parseInt reads
   * as NaN never excludes: a record inside a bound, or any record when the
   * bound does not parse, fares as if the bound were empty; a record
   * strictly outside a parsed bound is excluded.
   */
  lemma PriceBoundsAreInclusive(p: Property, c: SearchCriteria)
    ensures (ParseInt(c.minPrice).None? || p.price >= ParseInt(c.minPrice).value)
            ==> Keep(p, c) == Keep(p, c.(minPrice := ""))
    ensures c.minPrice != "" && ParseInt(c.minPrice).Some? && p.price < ParseInt(c.minPrice).value
            ==> !Keep(p, c)
    ensures (ParseInt(c.maxPrice).None? || p.price <= ParseInt(c.maxPrice).value)
            ==> Keep(p, c) == Keep(p, c.(maxPrice := ""))
    ensures c.maxPrice != "" && ParseInt(c.maxPrice).Some? && p.price > ParseInt(c.maxPrice).value
            ==> !Keep(p, c)
  {
  }

  /** The bedroom bounds, in the same way as the price bounds. */
  lemma BedroomBoundsAreInclusive(p: Property, c: SearchCriteria)
    ensures (ParseInt(c.minBedrooms).None? || p.bedrooms >= ParseInt(c.minBedrooms).value)
            ==> Keep(p, c) == Keep(p, c.(minBedrooms := ""))
    ensures c.minBedrooms != "" && ParseInt(c.minBedrooms).Some? && p.bedrooms < ParseInt(c.minBedrooms).value
            ==> !Keep(p, c)
    ensures (ParseInt(c.maxBedrooms).None? || p.bedrooms <= ParseInt(c.maxBedrooms).value)
            ==> Keep(p, c) == Keep(p, c.(maxBedrooms := ""))
    ensures c.maxBedrooms != "" && ParseInt(c.maxBedrooms).Some? && p.bedrooms > ParseInt(c.maxBedrooms).value
            ==> !Keep(p, c)
  {
  }

  /**
   * dateAfter at a day's midnight is inclusive: a record added on a valid
   * day is excluded by it exactly when its day comes before the bound day,
   * and a record added on the bound day or later fares as if dateAfter were
   * not set, whatever the other criteria are.
   */
  lemma DateAfterIsInclusive(p: Property, c: SearchCriteria, after: CalendarDate)
    requires ValidDate(AddedDay(p.added)) && ValidDate(after)
    requires c.dateAfter == Some(Midnight(after))
    ensures Before(AddedDay(p.added), after) ==> !Keep(p, c)
    ensures !Before(AddedDay(p.added), after) ==> Keep(p, c) == Keep(p, c.(dateAfter := None))
  {
    var d := AddedDay(p.added);
    MidnightOrderIsCalendarOrder(d, after);
    MidnightOrder(d, after, 0);
  }

  /**
   * dateBefore at a day's midnight is inclusive: a record added on a valid
   * day is excluded by it exactly when its day comes after the bound day,
   * and a record added on the bound day or earlier fares as if dateBefore
   * were not set, whatever the other criteria are.
   */
  lemma DateBeforeIsInclusive(p: Property, c: SearchCriteria, before: CalendarDate)
    requires ValidDate(AddedDay(p.added)) && ValidDate(before)
    requires c.dateBefore == Some(Midnight(before))
    ensures Before(before, AddedDay(p.added)) ==> !Keep(p, c)
    ensures !Before(before, AddedDay(p.added)) ==> Keep(p, c) == Keep(p, c.(dateBefore := None))
  {
    var d := AddedDay(p.added);
    MidnightOrderIsCalendarOrder(before, d);
    MidnightOrder(d, before, 0);
  }

  /**
   * A date bound later than midnight (a picker value that carries a time of
   * day) excludes a record added on that same day from dateAfter, while
   * dateBefore still keeps it.
   */
  lemma DateBoundTimeOfDay(p: Property, c: SearchCriteria, day: CalendarDate, t: int)
    requires AddedDay(p.added) == day && 1 <= day.month <= 12
    requires 0 < t < MsPerDay
    ensures c.dateAfter == Some(Midnight(day) + t) ==> !Keep(p, c)
    ensures c.dateBefore == Some(Midnight(day) + t) ==> Keep(p, c) == Keep(p, c.(dateBefore := None))
  {
    MidnightOrder(day, day, t);
  }

  /**
   * A non-empty postcode criterion keeps a record exactly when the
   * record's postcode area contains the criterion as a substring; a location
   * without a postcode area is then always excluded.
   */
  lemma PostcodeCriterionIsSubstring(p: Property, c: SearchCriteria)
    ensures c.postcode != "" && Keep(p, c) ==> Includes(ExtractPostcodeArea(p.location), c.postcode)
    ensures Includes(ExtractPostcodeArea(p.location), c.postcode) ==> Keep(p, c) == Keep(p, c.(postcode := ""))
    ensures c.postcode != "" && ExtractPostcodeArea(p.location) == "" ==> !Keep(p, c)
  {
  }

  // ------------------------------------------------------- formatPropertyDate

  /**
   * formatPropertyDate: "Month Day, Year". The text loses nothing: when the
   * month name has no space, reading it back gives the stored date.
   */
  function FormatPropertyDate(added: AddedDate): (r: string)
    ensures ' ' !in added.month ==> ParsePropertyDate(r) == Some(added)
  {
    var rest := IntToString(added.day) + ", " + IntToString(added.year);
    var r := added.month + " " + rest;
    assert ' ' !in added.month ==> ParsePropertyDate(r) == Some(added) by {
      if ' ' !in added.month {
        assert r == added.month + [' '] + rest;
        IndexOfAfter(added.month, ' ', rest);
        assert r[|added.month| + 1..] == rest;
        assert r[..|added.month|] == added.month;
        ParseDayAndYearRoundTrip(added.day, added.year);
      }
    }
    r
  }

  /** The position of the first occurrence of ch in s. */
  function IndexOf(s: string, ch: char): (r: Option<nat>)
    ensures r.Some? ==> r.value < |s| && s[r.value] == ch && ch !in s[..r.value]
    ensures r.None? ==> ch !in s
  {
    if s == [] then None
    else if s[0] == ch then Some(0)
    else match IndexOf(s[1..], ch)
      case Some(k) =>
        assert s[..k + 1] == [s[0]] + s[1..][..k];
        Some(k + 1)
      case None => None
  }

  lemma IndexOfAfter(a: string, ch: char, b: string)
    requires ch !in a
    ensures IndexOf(a + [ch] + b, ch) == Some(|a|)
  {
    var s := a + [ch] + b;
    assert s[|a|] == ch;
    assert s[..|a|] == a;
    var r := IndexOf(s, ch);
    assert r.Some?;
  }

  /**
   * Reads "Month Day, Year" back: the month is everything before the first
   * space, the day runs up to the first comma, the year follows ", ".
   */
  function ParsePropertyDate(s: string): Option<AddedDate>
  {
    match IndexOf(s, ' ')
    case None => None
    case Some(k) =>
      match ParseDayAndYear(s[k + 1..])
      case Some((day, year)) => Some(AddedDate(s[..k], day, year))
      case None => None
  }

  function ParseDayAndYear(rest: string): Option<(int, int)>
  {
    match IndexOf(rest, ',')
    case None => None
    case Some(m) =>
      if m + 1 >= |rest| || rest[m + 1] != ' ' then None
      else match (ParseInt(rest[..m]), ParseInt(rest[m + 2..]))
        case (Some(day), Some(year)) => Some((day, year))
        case _ => None
  }

  lemma ParseDayAndYearRoundTrip(day: int, year: int)
    ensures ParseDayAndYear(IntToString(day) + ", " + IntToString(year)) == Some((day, year))
  {
    var dayText, yearText := IntToString(day), IntToString(year);
    var rest := dayText + ", " + yearText;
    assert ',' !in dayText by {
      forall k | 0 <= k < |dayText| ensures dayText[k] != ',' { }
    }
    assert rest == dayText + [','] + (" " + yearText);
    IndexOfAfter(dayText, ',', " " + yearText);
    assert rest[..|dayText|] == dayText;
    assert rest[|dayText| + 2..] == yearText;
    assert rest[|dayText| + 1] == ' ';
    ParseIntOfIntToString(day);
    ParseIntOfIntToString(year);
  }
}
