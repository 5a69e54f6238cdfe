# Estate-Agent search and favourites, modelled in Dafny

This project models the logic of the Estate-Agent property-search front
end, a React application. The modelled parts are:

- the query engine of `frontend/src/utils/searchUtils.js`;
- the favourites store and view switch of `frontend/src/App.jsx`;
- the search form controller of `frontend/src/components/SearchPage.jsx`;
- the two ways a property reaches the favourites: the heart button of
  `frontend/src/components/PropertyCard.jsx` and a drag onto the drop
  zone of `frontend/src/components/FavouritesList.jsx`.

Modules, one per source file, plus models of the JavaScript built-ins the
code relies on:

- `Wrappers`, `Listing`: the option type and the property record.
- `JsText`: `parseInt` (white space, sign, `0x` prefix, longest digit
  prefix, NaN as `None`), `trim`, ASCII `toUpperCase`, `includes`, and
  integer-to-string in template literals.
- `JsDate`: `new Date(y, m - 1, d)` as a time value at local midnight,
  with the two-digit-year rule and day overflow carried into the next
  month (time zone taken as UTC).
- `SearchUtils`: `filterProperties`, `getMonthNumber`,
  `extractPostcodeArea` (a scanner proved equal to the regular
  expression), and `formatPropertyDate` with an inverse.
- `Favourites`, `Events`, `App`: the pure list updates, the callback props
  with DOM click bubbling, the state transition function, and the class
  `AppStore` whose methods update the three pieces of React state.
- `PropertyCard`, `FavouritesList`: the drag payload, the drop guard, the
  click handlers, the rendered count and the Clear All visibility.
- `SearchPage`: the option lists, building the criteria, the result cards,
  and the class `SearchController` over the form and result state.
- `SearchScenarios`: the three-record catalog of `searchUtils.test.js` and
  the exact result lists that file expects.

A handler that invokes a callback prop is modelled as a function that
returns the callbacks it invokes. `App.AppStore.InvokeAll` applies them to
the store, and it is proved equal to the transition function
`App.StepAll`.

Two behaviours of the code are easy to misread. First, the postcode
criterion is a substring test on the area, `postcodeArea.includes(criterion)`.
So the criterion "5" keeps a record in area "BR5", not only "BR5" or "BR"
(`SearchScenarios.SubstringLaw`). Second, the maximum-bedrooms option
labelled "5+" has the value '5'. It is therefore an upper bound of five,
not "five or more" (`SearchPage.FivePlusIsAtMostFive`).

## Model

| member | source | states |
|---|---|---|
| SearchUtils.Keep | frontend/src/utils/searchUtils.js:6-65 | a kept record meets every criterion that is set: the exact type, parsed price and bedroom bounds, both date bounds on its Date, and the postcode substring |
| SearchUtils.FilterProperties | frontend/src/utils/searchUtils.js:5-66 | the result is no longer than the input, holds only input records that pass every criterion, and holds every input record that passes |
| SearchUtils.KeptPositions | frontend/src/utils/searchUtils.js:6-65 | the result is the input restricted to increasing positions, and a position is among them exactly when its record passes |
| SearchUtils.FilterWithoutCriteriaIsIdentity | frontend/src/utils/searchUtils.js:5-66 | with every criterion empty or null the filter returns its input, same records in the same order |
| SearchUtils.FilterKeepsAllWhenAllPass | frontend/src/utils/searchUtils.js:6-65 | when every record passes, the output equals the input |
| SearchUtils.FilterDistributes | frontend/src/utils/searchUtils.js:6 | filtering a concatenation is concatenating the filtered parts, so catalog order is kept |
| SearchUtils.FilterIsIdempotent | frontend/src/utils/searchUtils.js:6-65 | filtering the result again with the same criteria changes nothing |
| SearchUtils.TypeCriterionIsExact | frontend/src/utils/searchUtils.js:8-10 | a kept record has exactly the requested type, and a record of that type fares as with no type criterion |
| SearchUtils.PriceBoundsAreInclusive | frontend/src/utils/searchUtils.js:12-20 | a record is excluded by a price bound only when strictly outside it; a record inside it, or any record when parseInt reads the bound as NaN, fares as without the bound |
| SearchUtils.BedroomBoundsAreInclusive | frontend/src/utils/searchUtils.js:22-30 | the same for the minimum and maximum bedroom bounds |
| SearchUtils.DateAfterIsInclusive | frontend/src/utils/searchUtils.js:32-42 | with dateAfter at a day's midnight, a record is excluded exactly when its day comes before that day; on that day or later it fares as without dateAfter, whatever the other criteria |
| SearchUtils.DateBeforeIsInclusive | frontend/src/utils/searchUtils.js:44-54 | with dateBefore at a day's midnight, a record is excluded exactly when its day comes after that day; on that day or earlier it fares as without dateBefore, whatever the other criteria |
| SearchUtils.DateBoundTimeOfDay | frontend/src/utils/searchUtils.js:39 | a dateAfter later than midnight excludes a record added that same day, while dateBefore at that time still keeps it |
| SearchUtils.PostcodeCriterionIsSubstring | frontend/src/utils/searchUtils.js:57-62 | a non-empty postcode criterion keeps a record exactly when its area contains the criterion; a location without an area is excluded |
| SearchUtils.GetMonthNumber | frontend/src/utils/searchUtils.js:71-78 | the month number is always between 1 and 12 |
| SearchUtils.MonthNumbersFollowCalendar | frontend/src/utils/searchUtils.js:72-77 | each of the twelve names maps to its calendar position, the number maps back to the name, and any other string maps to 1 |
| SearchUtils.GetMonthNumberAsWritten | frontend/src/utils/searchUtils.js:72-77 | as written, a name inherited from Object.prototype gives that member instead of a number; every other name gives the corrected number |
| SearchUtils.InheritedMonthNameIsNotANumber | frontend/src/utils/searchUtils.js:77 | "toString" yields an inherited member as written, where the intended fallback is 1 |
| SearchUtils.KeepAsWritten | frontend/src/utils/searchUtils.js:33-54 | as written, a record whose month names an Object.prototype member passes both date guards, since its Date is invalid; every other record fares as under Keep |
| SearchUtils.InheritedMonthEscapesDateBounds | frontend/src/utils/searchUtils.js:34-41 | a record added in month "toString" of 2024 is kept by dateAfter 1 June 2024 as written, and excluded under the January fallback |
| SearchUtils.MatchAtIsRegexMatch | frontend/src/utils/searchUtils.js:85 | the scanner reports an end j at position i exactly when `\b([A-Z]{1,2}\d{1,2}[A-Z]?)\b` matches s[i..j] |
| SearchUtils.MatchIsUniquePerStart | frontend/src/utils/searchUtils.js:85 | at most one match starts at any position, so the leftmost match is determined by its start |
| SearchUtils.FirstMatchFrom | frontend/src/utils/searchUtils.js:85 | the scan from i finds a match with no match starting between i and it, or reports that there is none from i on |
| SearchUtils.ExtractPostcodeArea | frontend/src/utils/searchUtils.js:84-87 | the area is "" exactly when the location has no match, and otherwise the text of the leftmost match, 2 to 5 characters long |
| SearchUtils.PostcodeAreaShape | frontend/src/utils/searchUtils.js:85 | a non-empty area starts with an upper-case letter and holds only upper-case letters and digits |
| SearchUtils.AreaAfterDigitFreeText | frontend/src/utils/searchUtils.js:80-87 | a location whose text before a trailing postcode area has no digits and ends in a non-word character yields that area |
| SearchUtils.FormatPropertyDate | frontend/src/utils/searchUtils.js:92-94 | the "Month Day, Year" text reads back as the stored date when the month name has no space |
| SearchUtils.ParseDayAndYearRoundTrip | frontend/src/utils/searchUtils.js:93 | the "Day, Year" part of the text reads back as the day and the year |
| JsText.ParseInt | frontend/src/utils/searchUtils.js:13 | text that starts with a decimal digit, and not with "0x", reads as its longest run of leading digits in base 10 |
| JsText.ParseIntOfIntToString | frontend/src/utils/searchUtils.js:13 | parseInt reads back every integer's template-literal text |
| JsText.ParseIntReadsDigitPrefix | frontend/src/utils/searchUtils.js:13 | parseInt reads the longest leading run of decimal digits and ignores what follows |
| JsText.ParseIntOfDecimal | frontend/src/utils/searchUtils.js:13 | the decimal text of a natural number, as the option values are written, reads back as that number |
| JsText.ParseIntOfNegative | frontend/src/utils/searchUtils.js:13 | a leading '-' negates the digits that follow |
| JsText.ParseIntWithoutDigits | frontend/src/utils/searchUtils.js:13-30 | text with no decimal digit reads as NaN, so such a bound never excludes |
| JsText.ParseIntSkipsWhiteSpace | frontend/src/utils/searchUtils.js:13 | leading white space does not change what parseInt reads |
| JsText.DecimalRoundTrip | frontend/src/utils/searchUtils.js:93 | the decimal digits of a natural number evaluate back to that number |
| JsText.Includes | frontend/src/utils/searchUtils.js:59 | `includes` holds exactly when the needle occurs at some position of the haystack |
| JsText.IncludesSameLength | frontend/src/utils/searchUtils.js:59 | for texts of equal length, `includes` is equality |
| JsText.IncludesChar | frontend/src/utils/searchUtils.js:59 | a one-character needle is included exactly when the character occurs |
| JsText.Trim | frontend/src/components/SearchPage.jsx:89 | the result neither starts nor ends with white space and is the input with only white space cut from each end |
| JsText.TrimIsIdempotent | frontend/src/components/SearchPage.jsx:89 | trimming twice is trimming once |
| JsText.TrimOfTrimmed | frontend/src/components/SearchPage.jsx:89 | text that neither starts nor ends with white space is its own trim |
| JsText.TrimAllWhiteSpace | frontend/src/components/SearchPage.jsx:89 | text of white space only trims to "" |
| JsText.ToUpperAscii | frontend/src/components/SearchPage.jsx:89 | same length, no lower-case letter left, other characters unchanged, lower-case letters moved to their capitals |
| JsText.UpperIdempotent | frontend/src/components/SearchPage.jsx:89 | upper-casing twice is upper-casing once |
| JsDate.LocalMidnightOrder | frontend/src/utils/searchUtils.js:34-51 | two Dates built from valid days compare as the days do: earlier day, smaller time value; equal time values, same day |
| JsDate.MidnightOrderIsCalendarOrder | frontend/src/utils/searchUtils.js:39 | for valid dates, day numbers are ordered as the calendar orders dates, and equal only for the same date |
| JsDate.MidnightOrder | frontend/src/utils/searchUtils.js:39-51 | comparing a midnight with another day's midnight plus a time of day is comparing the day numbers, with ties broken by the time |
| JsDate.DayOverflowCarries | frontend/src/utils/searchUtils.js:37 | the day after a month's last day is the first of the next month, and the day after 31 December is 1 January of the next year |
| JsDate.YearLength | frontend/src/utils/searchUtils.js:34-38 | a year has 366 days exactly when it is a leap year |
| JsDate.DaysInMonth | frontend/src/utils/searchUtils.js:37 | every month has 28 to 31 days |
| Favourites.IsFavourite | frontend/src/App.jsx:25 | true exactly when some entry has the id |
| Favourites.Removed | frontend/src/App.jsx:31 | no entry with the id is left, every entry left was in the list, and every entry with another id stays |
| Favourites.Added | frontend/src/App.jsx:23-28 | an absent property is appended itself at the end, and a present id leaves the list unchanged; so the id is present afterwards and the ids are the old ones plus the new one |
| Favourites.AddIsIdempotent | frontend/src/App.jsx:25 | adding the same property twice is adding it once |
| Favourites.RemoveKeepsIdsUnique | frontend/src/App.jsx:30-32 | removing keeps the ids distinct |
| Favourites.RemoveAbsentIsNoOp | frontend/src/App.jsx:31 | removing an id no entry has leaves the list as it was |
| Favourites.RemoveDistributes | frontend/src/App.jsx:31 | removing from a concatenation removes from each part, so the relative order of what stays is kept |
| Favourites.RemoveUndoesAdd | frontend/src/App.jsx:23-32 | removing a property right after adding it, when it was absent, restores the list |
| Favourites.RemoveSoleEntry | frontend/src/App.jsx:31 | removing an id held by one entry only drops exactly that entry |
| Favourites.RemoveEntry | frontend/src/App.jsx:31 | with distinct ids, removing entry k's id drops exactly entry k |
| App.Step | frontend/src/App.jsx:13-36 | opening a property selects it and shows its page, going back clears both, and neither touches the favourites; adding stores `Added` of the old list and removing stores `Removed`, clearing stores the empty list, and none of these three touches view or selection |
| App.StepKeepsConsistency | frontend/src/App.jsx:13-36 | every handler keeps the ids distinct and shows the detail view exactly when a property is selected |
| App.StepAllKeepsConsistency | frontend/src/App.jsx:13-36 | any sequence of handler calls keeps that invariant |
| App.Rendered | frontend/src/App.jsx:41-57 | the search page shows exactly in the search view; the property page shows the selected property, flagged favourite exactly when some favourite has its id; nothing shows in the property view without a selection |
| App.ConsistentStateRendersAPage | frontend/src/App.jsx:41-57 | in every reachable state App renders one of its two pages, the detail page flagged as favourite exactly when its id is listed |
| App.NavigationRenders | frontend/src/App.jsx:13-21 | opening a property shows its detail page, going back shows the search page, and the list is untouched |
| App.AppStore.constructor | frontend/src/App.jsx:9-11 | the search view, no selection, no favourites |
| App.AppStore.HandlePropertyClick | frontend/src/App.jsx:13-16 | selects the property and shows the detail view; the favourites are unchanged |
| App.AppStore.HandleBackToSearch | frontend/src/App.jsx:18-21 | shows the search view and clears the selection; the favourites are unchanged |
| App.AppStore.AddToFavourites | frontend/src/App.jsx:23-28 | stores the list `Added` computes and leaves the view alone |
| App.AppStore.RemoveFromFavourites | frontend/src/App.jsx:30-32 | stores the list `Removed` computes and leaves the view alone |
| App.AppStore.ClearFavourites | frontend/src/App.jsx:34-36 | stores the empty list and leaves the view alone |
| App.AppStore.Invoke | frontend/src/App.jsx:13-36 | invoking a callback prop moves the store to the state `Step` computes |
| App.AppStore.InvokeAll | frontend/src/App.jsx:13-36 | invoking callbacks in order moves the store to the state `StepAll` computes |
| PropertyCard.DragSource | frontend/src/components/PropertyCard.jsx:5-11 | a card is dragged under the type 'PROPERTY' and carries its own property; FavouritesList.AcceptsExactlyPropertyCards shows the panel accepts it |
| PropertyCard.CardClick | frontend/src/components/PropertyCard.jsx:32 | a click on the card calls onPropertyClick with its property and lets the click bubble; PropertyCard.Click builds on it |
| PropertyCard.HeartClick | frontend/src/components/PropertyCard.jsx:21-26 | the handler stops propagation, and calls addToFavourites with the card's property exactly when the card is not a favourite, and nothing else |
| PropertyCard.Click | frontend/src/components/PropertyCard.jsx:21-42 | a click on the card body calls onPropertyClick with the property and nothing else; a click on the heart never opens the property and adds it exactly when it is not a favourite |
| PropertyCard.HeartClass | frontend/src/components/PropertyCard.jsx:41 | the button's class list contains "active" exactly when the card is a favourite |
| PropertyCard.AddedLabel | frontend/src/components/PropertyCard.jsx:65 | the line is "Added: " followed by the text formatPropertyDate gives, which reads back as the stored date when the month name has no space |
| PropertyCard.ClickHeart | frontend/src/components/PropertyCard.jsx:21-26 | a heart click on a card rendered for the current list stores what addToFavourites computes and leaves the view alone |
| FavouritesList.Accepts | frontend/src/components/FavouritesList.jsx:12 | the panel takes exactly the items whose type is 'PROPERTY' |
| FavouritesList.DropHandler | frontend/src/components/FavouritesList.jsx:13-20 | the handler calls addToFavourites with the dragged property exactly when no favourite has its id, and nothing else |
| FavouritesList.Drop | frontend/src/components/FavouritesList.jsx:11-20 | a drop adds the dragged property exactly when its type is accepted and its id is not yet listed, and does nothing else |
| FavouritesList.AcceptsExactlyPropertyCards | frontend/src/components/FavouritesList.jsx:11-24 | the panel accepts a card's drag item, and an item of any other type triggers nothing |
| FavouritesList.DropAgreesWithHeart | frontend/src/components/FavouritesList.jsx:13-20 | a drop and a heart click on the same property end in the same state, the one addToFavourites produces |
| FavouritesList.SecondDropIsIgnored | frontend/src/components/FavouritesList.jsx:15 | dropping the same card again changes nothing |
| FavouritesList.RenderHeader | frontend/src/components/FavouritesList.jsx:39-58 | the title is exactly "Favourites (n)" with n the list length in decimal, which reads back as that length; Clear All shows exactly when the list is non-empty, and the empty hint shows otherwise |
| FavouritesList.ItemClick | frontend/src/components/FavouritesList.jsx:65 | a click on an entry calls onPropertyClick with that favourite and lets the click bubble |
| FavouritesList.RemoveClick | frontend/src/components/FavouritesList.jsx:79-82 | the remove button stops propagation and calls removeFromFavourites with the entry's id |
| FavouritesList.Click | frontend/src/components/FavouritesList.jsx:44-86 | a click on entry k opens it; a click on its remove button removes its id and, since propagation stops, does not open it; Clear All clears |
| FavouritesList.RemoveButtonDropsEntry | frontend/src/components/FavouritesList.jsx:77-86 | the remove button of entry k drops exactly that entry and does not open it |
| FavouritesList.ItemClickOpensEntry | frontend/src/components/FavouritesList.jsx:65 | a click on entry k opens that property and keeps the list |
| FavouritesList.ClearAllEmptiesPanel | frontend/src/components/FavouritesList.jsx:44-58 | after Clear All the list is empty, the hint shows, the button is gone and the view is unchanged |
| FavouritesList.DropOnPanel | frontend/src/components/FavouritesList.jsx:11-24 | a drop stores what addToFavourites computes for an accepted item, and nothing changes for any other item |
| FavouritesList.ClickRemove | frontend/src/components/FavouritesList.jsx:77-86 | a click on entry k's remove button stores the list without entry k |
| SearchPage.NormalizePostcode | frontend/src/components/SearchPage.jsx:89 | the criterion is the upper-cased trim of the input, so it is no longer than the input, has no lower-case letter and neither starts nor ends with white space |
| SearchPage.NormalizeIsIdempotent | frontend/src/components/SearchPage.jsx:89 | normalising twice is normalising once |
| SearchPage.BlankPostcodeIsNoConstraint | frontend/src/components/SearchPage.jsx:89 | empty or white-space-only input gives the empty criterion |
| SearchPage.BuildCriteria | frontend/src/components/SearchPage.jsx:78-90 | each select gives its chosen option's value, or "" when unset; the date pickers' values pass through; the postcode criterion is the normalised input, and blank input gives no constraint; the untouched form builds no criteria |
| SearchPage.InitialFormHasNoCriteria | frontend/src/components/SearchPage.jsx:20-27 | the untouched form builds the empty criteria, whose search returns every record |
| SearchPage.FirstOptionsMeanNoPreference | frontend/src/components/SearchPage.jsx:34-86 | choosing "Any", "No min" or "No max" builds the same criteria as choosing nothing |
| SearchPage.FivePlusIsAtMostFive | frontend/src/components/SearchPage.jsx:75 | the "5+" maximum keeps no record with more than five bedrooms |
| SearchPage.BedroomOptionsAreNumbers | frontend/src/components/SearchPage.jsx:60-76 | each non-empty bedroom option's value reads back as the count its position shows |
| SearchPage.ResultCards | frontend/src/components/SearchPage.jsx:278-285 | one card per result in order, marked favourite exactly when some favourite shares its id |
| SearchPage.RenderResults | frontend/src/components/SearchPage.jsx:269-294 | the count line is exactly "n results" and after a search the title is "Found n Properties", with n the number of results in decimal, which reads back from both; the title is "All Properties" before a search; the no-results panel shows exactly when there are none |
| SearchPage.SearchController.constructor | frontend/src/components/SearchPage.jsx:20-31 | an empty form, the whole catalog as results, and no search yet |
| SearchPage.SearchController.TypePostcode | frontend/src/components/SearchPage.jsx:239-242 | stores the typed text and nothing else |
| SearchPage.SearchController.ChooseType | frontend/src/components/SearchPage.jsx:147-148 | stores the chosen type and nothing else |
| SearchPage.SearchController.ChooseMinPrice | frontend/src/components/SearchPage.jsx:161-162 | stores the chosen minimum price and nothing else |
| SearchPage.SearchController.ChooseMaxPrice | frontend/src/components/SearchPage.jsx:172-173 | stores the chosen maximum price and nothing else |
| SearchPage.SearchController.ChooseMinBedrooms | frontend/src/components/SearchPage.jsx:186-187 | stores the chosen minimum bedrooms and nothing else |
| SearchPage.SearchController.ChooseMaxBedrooms | frontend/src/components/SearchPage.jsx:197-198 | stores the chosen maximum bedrooms and nothing else |
| SearchPage.SearchController.ChooseDateAfter | frontend/src/components/SearchPage.jsx:210-211 | stores the chosen earliest date and nothing else |
| SearchPage.SearchController.ChooseDateBefore | frontend/src/components/SearchPage.jsx:222-223 | stores the chosen latest date and nothing else |
| SearchPage.SearchController.HandleSearch | frontend/src/components/SearchPage.jsx:78-95 | the results become the catalog filtered by the criteria the form builds, and hasSearched is set; the form is unchanged |
| SearchPage.SearchController.HandleReset | frontend/src/components/SearchPage.jsx:97-108 | the form is back to its initial values, the results are the catalog, and hasSearched is cleared |
| SearchPage.ResetThenSearch | frontend/src/components/SearchPage.jsx:97-108 | a search right after a reset returns the whole catalog and its header says so |
| SearchScenarios.NoCriteriaKeepsAll | frontend/src/utils/searchUtils.test.js:37-50 | no criteria keeps all three records in order |
| SearchScenarios.TypeHouse | frontend/src/utils/searchUtils.test.js:52-66 | type House keeps prop1 and prop3 |
| SearchScenarios.MinPrice400000 | frontend/src/utils/searchUtils.test.js:68-82 | a minimum price of 400000 keeps prop1 and prop3 |
| SearchScenarios.MaxPrice800000 | frontend/src/utils/searchUtils.test.js:84-98 | a maximum price of 800000 keeps prop1 and prop2 |
| SearchScenarios.MinBedrooms3 | frontend/src/utils/searchUtils.test.js:100-114 | at least three bedrooms keeps prop1 and prop3 |
| SearchScenarios.PostcodeBR6 | frontend/src/utils/searchUtils.test.js:116-130 | postcode BR6 keeps only prop2 |
| SearchScenarios.MultipleCriteria | frontend/src/utils/searchUtils.test.js:132-146 | Flat, 300000 to 500000, two bedrooms, BR6 keeps only prop2 |
| SearchScenarios.MultipleCriteriaWrongType | frontend/src/utils/searchUtils.test.js:132-146 | the same bounds with type House keep nothing |
| SearchScenarios.MultipleCriteriaTooFewBedrooms | frontend/src/utils/searchUtils.test.js:132-146 | the same criteria with at least three bedrooms keep nothing |
| SearchScenarios.NoMatches | frontend/src/utils/searchUtils.test.js:148-161 | type House with a minimum price of 2000000 keeps nothing |
| SearchScenarios.FormatsOctober12 | frontend/src/utils/searchUtils.test.js:164-170 | October 12, 2024 is shown as "October 12, 2024" |
| SearchScenarios.SubstringLaw | frontend/src/utils/searchUtils.js:57-62 | "BR5" is found by "BR5", "BR" and "5" but not by "BR55", and the criterion "5" keeps prop1 only |
| SearchScenarios.Prop1Area | frontend/src/utils/searchUtils.js:80-87 | "Petts Wood Road, Petts Wood, Orpington BR5" yields "BR5" |

## Left out

- `getDaysSinceAdded` is not modelled. It reads the wall clock and uses
  floating-point division with `Math.ceil`.
- `formatPrice` is not modelled. It calls `Intl.NumberFormat`, a locale
  library.
- JSX layout, CSS classes and react-select styling are left out. The
  rendered facts a user sees are modelled: the favourites count, the
  Clear All button, the empty hint, the heart's "active" class, the
  results header and the result cards.
- react-dnd's `isOver` and `isDragging` are left out. They only drive
  visual feedback. The drag payload, the accepted type and the drop
  callback are modelled.
- The internals of react-select and the date picker are left out. A
  select's state is `Unset` or the chosen option. A picker's value is a
  time value in milliseconds, or none.
- `frontend/src/components/PropertyPage.jsx` and `frontend/src/main.jsx`
  are not part of this model. The detail page's favourite guard is the
  same as the card's heart guard.
- Time zones and daylight saving are not modelled. Local midnight is the
  UTC midnight of the same calendar day.
- `trim` uses the full ECMAScript white-space set. `toUpperCase` is
  modelled for ASCII letters only.
- JavaScript numbers are modelled as unbounded integers. Prices, counts
  and years stay far below 2^53 in the catalog, and the bound strings
  come from fixed option lists.
- The catalog JSON loader is not modelled. The catalog is any sequence
  of records.
- React's batching of `setState` calls and stale closures are not
  modelled. Each callback sees the state the previous one left. One
  event invokes at most one state-changing callback here, so this makes
  no difference.
- Record fields that are only displayed are not modelled: pictures,
  descriptions, floor plans and coordinates.
- SearchPage.BedroomOptionsAreNumbers: the price options get no
  read-back lemma. Their values are plain digit strings, read by
  `JsText.ParseIntReadsDigitPrefix` like any other digit string.
- SearchScenarios.MinPrice400000: like the other numeric scenarios, this
  takes the bound as any text that parseInt reads as the test's number,
  rather than the literal. `JsText.ParseIntOfDecimal` shows that the
  test's own digit strings are such texts.
- SearchUtils.DateAfterIsInclusive: stated for valid calendar days. Day
  overflow is modelled by `JsDate.DayNumber` and
  `JsDate.DayOverflowCarries`.
- SearchUtils.DateBeforeIsInclusive: stated for valid calendar days, as
  for dateAfter.
- SearchUtils.FilterProperties: filters with the corrected month lookup,
  under which an unknown month name means January. The callback as
  written, where an Object.prototype name makes the Date invalid, is
  `SearchUtils.KeepAsWritten`; see "## Findings".

## Findings

| source | as written | input that shows it | evidently intended | confidence | as-written member | corrected member |
|---|---|---|---|---|---|---|
| frontend/src/utils/searchUtils.js:72-77 | `months[monthName] \|\| 1` looks the name up in a plain object, so names inherited from Object.prototype find a function, which is truthy | a record whose `added.month` is "toString": the month becomes NaN, the Date is invalid, and neither date bound can exclude the record | every name that is not one of the twelve months gives 1 (January) | not executed | SearchUtils.GetMonthNumberAsWritten, SearchUtils.InheritedMonthNameIsNotANumber, SearchUtils.KeepAsWritten, SearchUtils.InheritedMonthEscapesDateBounds | SearchUtils.GetMonthNumber, SearchUtils.MonthNumbersFollowCalendar, SearchUtils.DateAfterIsInclusive |
