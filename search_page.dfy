/**
 * frontend/src/components/SearchPage.jsx: the search form, the criteria
 * object it builds on submit, the result list it keeps, and the
 * result cards it renders with their favourite flags.
 */
module SearchPage {
  import opened Wrappers
  import opened JsText
  import opened Listing
  import opened Favourites
  import opened SearchUtils

  /** One react-select option. */
  datatype SelectOption = SelectOption(value: string, text: string)

  /** A select's state: `null` or `''` before any choice, else the chosen option. */
  datatype Selection = Unset | Chosen(option: SelectOption)

  /** The option lists of lines 34-76. */
  const PropertyTypeOptions: seq<SelectOption> := [
    SelectOption("", "Any"), SelectOption("House", "House"), SelectOption("Flat", "Flat")]

  const PriceOptions: seq<SelectOption> := [
    SelectOption("", "No min"), SelectOption("200000", "£200,000"), SelectOption("300000", "£300,000"),
    SelectOption("400000", "£400,000"), SelectOption("500000", "£500,000"),
    SelectOption("750000", "£750,000"), SelectOption("1000000", "£1,000,000")]

  const MaxPriceOptions: seq<SelectOption> := [
    SelectOption("", "No max"), SelectOption("300000", "£300,000"), SelectOption("400000", "£400,000"),
    SelectOption("500000", "£500,000"), SelectOption("750000", "£750,000"),
    SelectOption("1000000", "£1,000,000"), SelectOption("1500000", "£1,500,000")]

  const BedroomOptions: seq<SelectOption> := [
    SelectOption("", "No min"), SelectOption("1", "1"), SelectOption("2", "2"),
    SelectOption("3", "3"), SelectOption("4", "4"), SelectOption("5", "5")]

  const MaxBedroomOptions: seq<SelectOption> := [
    SelectOption("", "No max"), SelectOption("1", "1"), SelectOption("2", "2"),
    SelectOption("3", "3"), SelectOption("4", "4"), SelectOption("5", "5+")]

  /** The postcode input's maxLength (line 242). */
  const PostcodeMaxLength := 10

  /** `sel?.value || ''` */
  function SelectedValue(sel: Selection): string {
    match sel
    case Unset => ""
    case Chosen(option) => option.value
  }

  /** `postcode.trim().toUpperCase()` (line 89). */
  function NormalizePostcode(postcode: string): (r: string)
    ensures r == ToUpperAscii(Trim(postcode))
    ensures |r| <= |postcode|
    ensures forall k :: 0 <= k < |r| ==> !IsLower(r[k])
    ensures r == [] || (!IsJsWhiteSpace(r[0]) && !IsJsWhiteSpace(r[|r| - 1]))
  {
    var t := Trim(postcode);
    var r := ToUpperAscii(t);
    UpperKeepsWhiteSpace();
    assert r != [] ==> r[0] == UpperChar(t[0]) && r[|r| - 1] == UpperChar(t[|t| - 1]);
    r
  }

  /** Upper-casing changes no character into or out of white space. */
  lemma UpperKeepsWhiteSpace()
    ensures forall c :: IsJsWhiteSpace(UpperChar(c)) == IsJsWhiteSpace(c)
  {
  }

  /** Normalising twice is normalising once. */
  lemma NormalizeIsIdempotent(postcode: string)
    ensures NormalizePostcode(NormalizePostcode(postcode)) == NormalizePostcode(postcode)
  {
    var u := NormalizePostcode(postcode);
    TrimOfTrimmed(u);
    UpperIdempotent(u);
  }

  /** Input that is empty or white space only puts no postcode constraint on the search. */
  lemma BlankPostcodeIsNoConstraint(postcode: string)
    requires forall k :: 0 <= k < |postcode| ==> IsJsWhiteSpace(postcode[k])
    ensures NormalizePostcode(postcode) == ""
  {
    TrimAllWhiteSpace(postcode);
  }

  /** The eight pieces of form state (lines 20-27). */
  datatype SearchForm = SearchForm(
    propertyType: Selection,
    minPrice: Selection,
    maxPrice: Selection,
    minBedrooms: Selection,
    maxBedrooms: Selection,
    dateAfter: Option<int>,
    dateBefore: Option<int>,
    postcode: string)

  /** The useState initial values, and what handleReset restores. */
  const InitialForm := SearchForm(Unset, Unset, Unset, Unset, Unset, None, None, "")

  /**
   * The criteria object handleSearch builds (lines 81-90). Each select
   * contributes its chosen option's value, or "" when nothing is chosen; the
   * date pickers' values pass through; the postcode criterion is the
   * normalised input, empty (no constraint) when the input is blank; the
   * untouched form asks for nothing.
   */
  function BuildCriteria(form: SearchForm): (c: SearchCriteria)
    ensures form.propertyType == Unset ==> c.propertyType == ""
    ensures form.propertyType.Chosen? ==> c.propertyType == form.propertyType.option.value
    ensures form.minPrice == Unset ==> c.minPrice == ""
    ensures form.minPrice.Chosen? ==> c.minPrice == form.minPrice.option.value
    ensures form.maxPrice == Unset ==> c.maxPrice == ""
    ensures form.maxPrice.Chosen? ==> c.maxPrice == form.maxPrice.option.value
    ensures form.minBedrooms == Unset ==> c.minBedrooms == ""
    ensures form.minBedrooms.Chosen? ==> c.minBedrooms == form.minBedrooms.option.value
    ensures form.maxBedrooms == Unset ==> c.maxBedrooms == ""
    ensures form.maxBedrooms.Chosen? ==> c.maxBedrooms == form.maxBedrooms.option.value
    ensures c.dateAfter == form.dateAfter && c.dateBefore == form.dateBefore
    ensures c.postcode == NormalizePostcode(form.postcode)
    ensures (forall k :: 0 <= k < |form.postcode| ==> IsJsWhiteSpace(form.postcode[k])) ==> c.postcode == ""
    ensures form == InitialForm ==> c == NoCriteria
  {
    assert (forall k :: 0 <= k < |form.postcode| ==> IsJsWhiteSpace(form.postcode[k]))
           ==> NormalizePostcode(form.postcode) == "" by {
      if forall k :: 0 <= k < |form.postcode| ==> IsJsWhiteSpace(form.postcode[k]) {
        BlankPostcodeIsNoConstraint(form.postcode);
      }
    }
    SearchCriteria(
      SelectedValue(form.propertyType),
      SelectedValue(form.minPrice),
      SelectedValue(form.maxPrice),
      SelectedValue(form.minBedrooms),
      SelectedValue(form.maxBedrooms),
      form.dateAfter,
      form.dateBefore,
      NormalizePostcode(form.postcode))
  }

  /** The untouched form asks for nothing: its search returns every record. */
  lemma InitialFormHasNoCriteria(properties: seq<Property>)
    ensures BuildCriteria(InitialForm) == NoCriteria
    ensures FilterProperties(properties, BuildCriteria(InitialForm)) == properties
  {
    FilterWithoutCriteriaIsIdentity(properties);
  }

  /**
   * Choosing the first option of a list ("Any", "No min", "No max") is the
   * same as choosing nothing: its value is the empty string.
   */
  lemma FirstOptionsMeanNoPreference(form: SearchForm)
    ensures BuildCriteria(form.(propertyType := Chosen(PropertyTypeOptions[0]))) == BuildCriteria(form.(propertyType := Unset))
    ensures BuildCriteria(form.(minPrice := Chosen(PriceOptions[0]))) == BuildCriteria(form.(minPrice := Unset))
    ensures BuildCriteria(form.(maxPrice := Chosen(MaxPriceOptions[0]))) == BuildCriteria(form.(maxPrice := Unset))
    ensures BuildCriteria(form.(minBedrooms := Chosen(BedroomOptions[0]))) == BuildCriteria(form.(minBedrooms := Unset))
    ensures BuildCriteria(form.(maxBedrooms := Chosen(MaxBedroomOptions[0]))) == BuildCriteria(form.(maxBedrooms := Unset))
  {
  }

  /**
   * The maximum-bedrooms option labelled "5+" carries the value '5', so it
   * is an upper bound of five: a six-bedroom record is not returned.
   */
  lemma FivePlusIsAtMostFive(p: Property, form: SearchForm)
    requires form.maxBedrooms == Chosen(MaxBedroomOptions[5])
    ensures MaxBedroomOptions[5].text == "5+"
    ensures p.bedrooms > 5 ==> !Keep(p, BuildCriteria(form))
    ensures Keep(p, BuildCriteria(form)) ==> p.bedrooms <= 5
  {
    assert IntToString(5) == "5";
    ParseIntOfIntToString(5);
  }

  /** Every non-empty bedroom option value reads back through parseInt as the count its text shows. */
  lemma BedroomOptionsAreNumbers()
    ensures forall k :: 1 <= k < |BedroomOptions| ==> ParseInt(BedroomOptions[k].value) == Some(k)
    ensures forall k :: 1 <= k < |MaxBedroomOptions| ==> ParseInt(MaxBedroomOptions[k].value) == Some(k)
  {
    forall k | 1 <= k < |BedroomOptions| ensures ParseInt(BedroomOptions[k].value) == Some(k) {
      ParseIntOfDecimal(k, BedroomOptions[k].value);
    }
    forall k | 1 <= k < |MaxBedroomOptions| ensures ParseInt(MaxBedroomOptions[k].value) == Some(k) {
      ParseIntOfDecimal(k, MaxBedroomOptions[k].value);
    }
  }

  /** A result card and the favourite flag SearchPage passes it (lines 278-285). */
  datatype CardView = CardView(property: Property, isFavourite: bool)

  function ResultCards(results: seq<Property>, favourites: seq<Property>): (cards: seq<CardView>)
    ensures |cards| == |results|
    ensures forall k :: 0 <= k < |cards| ==>
              && cards[k].property == results[k]
              && (cards[k].isFavourite <==> exists f :: 0 <= f < |favourites| && favourites[f].id == results[k].id)
  {
    seq(|results|, k requires 0 <= k < |results| => CardView(results[k], IsFavourite(favourites, results[k].id)))
  }

  /** The results header and body (lines 269-294). */
  datatype ResultsView = ResultsView(title: string, count: string, noResultsShown: bool)

  /**
   * The count line is "n results" and, after a search, the title is
   * "Found n Properties", with n the number of results in decimal, which
   * reads back from both; before any search the title is "All Properties"; the
   * no-results panel shows exactly when there are none.
   */
  function RenderResults(results: seq<Property>, hasSearched: bool): (v: ResultsView)
    ensures v.count == NatToDecimal(|results|) + " results"
    ensures hasSearched ==> v.title == "Found " + NatToDecimal(|results|) + " Properties"
    ensures ParseInt(v.count) == Some(|results|)
    ensures hasSearched ==> |v.title| > 6 && v.title[..6] == "Found " && ParseInt(v.title[6..]) == Some(|results|)
    ensures !hasSearched ==> v.title == "All Properties"
    ensures v.noResultsShown <==> results == []
  {
    var d := NatToDecimal(|results|);
    CountLineReadsBack(|results|);
    DecimalBetweenReadsBack("Found ", |results|, " Properties");
    ResultsView(if hasSearched then "Found " + d + " Properties" else "All Properties", d + " results", |results| == 0)
  }

  /** The decimal count reads back from the count line. */
  lemma CountLineReadsBack(n: nat)
    ensures ParseInt(NatToDecimal(n) + " results") == Some(n)
  {
    DecimalThenTextReadsBack(n, " results");
  }

  /** The component's state; `catalog` is the property list the JSON file supplies. */
  class SearchController {
    const catalog: seq<Property>
    var propertyType: Selection
    var minPrice: Selection
    var maxPrice: Selection
    var minBedrooms: Selection
    var maxBedrooms: Selection
    var dateAfter: Option<int>
    var dateBefore: Option<int>
    var postcode: string
    var searchResults: seq<Property>
    var hasSearched: bool

    function Form(): SearchForm
      reads this
    {
      SearchForm(propertyType, minPrice, maxPrice, minBedrooms, maxBedrooms, dateAfter, dateBefore, postcode)
    }

    /**
     * The results are always drawn from the catalog, the whole catalog until
     * a search has run, and the postcode never exceeds the input's maxLength.
     */
    ghost predicate Valid()
      reads this
    {
      && (forall p :: p in searchResults ==> p in catalog)
      && (!hasSearched ==> searchResults == catalog)
      && |postcode| <= PostcodeMaxLength
    }

    /** Lines 20-31. */
    constructor (catalog: seq<Property>)
      ensures this.catalog == catalog
      ensures Form() == InitialForm && searchResults == catalog && !hasSearched
      ensures Valid()
    {
      this.catalog := catalog;
      propertyType, minPrice, maxPrice, minBedrooms, maxBedrooms := Unset, Unset, Unset, Unset, Unset;
      dateAfter, dateBefore := None, None;
      postcode := "";
      searchResults := catalog;
      hasSearched := false;
    }

    /** The postcode input's onChange (line 239); the browser keeps the text within maxLength. */
    method TypePostcode(text: string)
      requires Valid() && |text| <= PostcodeMaxLength
      modifies this
      ensures Valid()
      ensures Form() == old(Form()).(postcode := text)
      ensures searchResults == old(searchResults) && hasSearched == old(hasSearched)
    {
      postcode := text;
    }

    /**
     * The onChange of a select or date picker (lines 148, 162, 173, 187,
     * 198, 211, 223) stores the new choice in its own piece of state and
     * touches nothing else; neither the results nor hasSearched change
     * until the form is submitted.
     */
    method ChooseType(sel: Selection)
      requires Valid()
      modifies this
      ensures Valid()
      ensures Form() == old(Form()).(propertyType := sel)
      ensures searchResults == old(searchResults) && hasSearched == old(hasSearched)
    {
      propertyType := sel;
    }

    method ChooseMinPrice(sel: Selection)
      requires Valid()
      modifies this
      ensures Valid()
      ensures Form() == old(Form()).(minPrice := sel)
      ensures searchResults == old(searchResults) && hasSearched == old(hasSearched)
    {
      minPrice := sel;
    }

    method ChooseMaxPrice(sel: Selection)
      requires Valid()
      modifies this
      ensures Valid()
      ensures Form() == old(Form()).(maxPrice := sel)
      ensures searchResults == old(searchResults) && hasSearched == old(hasSearched)
    {
      maxPrice := sel;
    }

    method ChooseMinBedrooms(sel: Selection)
      requires Valid()
      modifies this
      ensures Valid()
      ensures Form() == old(Form()).(minBedrooms := sel)
      ensures searchResults == old(searchResults) && hasSearched == old(hasSearched)
    {
      minBedrooms := sel;
    }

    method ChooseMaxBedrooms(sel: Selection)
      requires Valid()
      modifies this
      ensures Valid()
      ensures Form() == old(Form()).(maxBedrooms := sel)
      ensures searchResults == old(searchResults) && hasSearched == old(hasSearched)
    {
      maxBedrooms := sel;
    }

    /** A date picker's value as a time value; None is the cleared picker. */
    method ChooseDateAfter(date: Option<int>)
      requires Valid()
      modifies this
      ensures Valid()
      ensures Form() == old(Form()).(dateAfter := date)
      ensures searchResults == old(searchResults) && hasSearched == old(hasSearched)
    {
      dateAfter := date;
    }

    method ChooseDateBefore(date: Option<int>)
      requires Valid()
      modifies this
      ensures Valid()
      ensures Form() == old(Form()).(dateBefore := date)
      ensures searchResults == old(searchResults) && hasSearched == old(hasSearched)
    {
      dateBefore := date;
    }

    /** handleSearch (lines 78-95): filters the whole catalog by the criteria the form describes. */
    method HandleSearch()
      requires Valid()
      modifies this
      ensures Valid()
      ensures Form() == old(Form())
      ensures searchResults == FilterProperties(catalog, BuildCriteria(Form()))
      ensures hasSearched
    {
      var criteria := BuildCriteria(Form());
      searchResults := FilterProperties(catalog, criteria);
      hasSearched := true;
    }

    /** handleReset (lines 97-108): clears the form and shows the whole catalog again. */
    method HandleReset()
      requires Valid()
      modifies this
      ensures Valid()
      ensures Form() == InitialForm
      ensures searchResults == catalog && !hasSearched
    {
      propertyType, minPrice, maxPrice, minBedrooms, maxBedrooms := Unset, Unset, Unset, Unset, Unset;
      dateAfter, dateBefore := None, None;
      postcode := "";
      searchResults := catalog;
      hasSearched := false;
    }
  }

  /** Searching right after a reset finds every record, and says so in the header. */
  method ResetThenSearch(page: SearchController)
    requires page.Valid()
    modifies page
    ensures page.Valid()
    ensures page.searchResults == page.catalog && page.hasSearched
    ensures RenderResults(page.searchResults, page.hasSearched).title
            == "Found " + NatToDecimal(|page.catalog|) + " Properties"
  {
    page.HandleReset();
    page.HandleSearch();
    InitialFormHasNoCriteria(page.catalog);
  }

}
