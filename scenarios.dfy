/**
 * The three-record catalog of frontend/src/utils/searchUtils.test.js and
 * the results that file expects, stated exactly (the records kept and
 * their order, not only how many).
 */
module SearchScenarios {
  import opened Wrappers
  import opened JsText
  import opened Listing
  import opened SearchUtils

  const Prop1 := Property("prop1", "House", 750000, 3, "", "Petts Wood Road, Petts Wood, Orpington BR5", AddedDate("October", 12, 2024))
  const Prop2 := Property("prop2", "Flat", 399995, 2, "", "Crofton Road, Orpington BR6", AddedDate("September", 14, 2024))
  const Prop3 := Property("prop3", "House", 1250000, 5, "", "Bromley Common, Bromley BR2", AddedDate("November", 5, 2024))
  const Mock := [Prop1, Prop2, Prop3]

  lemma Prop1Area()
    ensures ExtractPostcodeArea(Prop1.location) == "BR5"
  {
    assert Prop1.location == "Petts Wood Road, Petts Wood, Orpington " + "BR5";
    AreaAfterDigitFreeText("Petts Wood Road, Petts Wood, Orpington ", "BR5");
  }

  lemma Prop2Area()
    ensures ExtractPostcodeArea(Prop2.location) == "BR6"
  {
    assert Prop2.location == "Crofton Road, Orpington " + "BR6";
    AreaAfterDigitFreeText("Crofton Road, Orpington ", "BR6");
  }

  lemma Prop3Area()
    ensures ExtractPostcodeArea(Prop3.location) == "BR2"
  {
    assert Prop3.location == "Bromley Common, Bromley " + "BR2";
    AreaAfterDigitFreeText("Bromley Common, Bromley ", "BR2");
  }

  /** The filter over a three-record catalog, record by record. */
  lemma FilterOfThree(p1: Property, p2: Property, p3: Property, c: SearchCriteria)
    ensures FilterProperties([p1, p2, p3], c)
            == (if Keep(p1, c) then [p1] else []) + (if Keep(p2, c) then [p2] else [])
               + (if Keep(p3, c) then [p3] else [])
  {
    assert [p1, p2, p3][1..] == [p2, p3];
    assert [p2, p3][1..] == [p3];
    assert [p3][1..] == [];
    var f3 := FilterProperties([p3], c);
    assert f3 == (if Keep(p3, c) then [p3] else []) + FilterProperties([], c);
    var f2 := FilterProperties([p2, p3], c);
    assert f2 == (if Keep(p2, c) then [p2] else []) + f3;
    assert FilterProperties([p1, p2, p3], c) == (if Keep(p1, c) then [p1] else []) + f2;
  }

  lemma FilterOfMock(c: SearchCriteria)
    ensures FilterProperties(Mock, c)
            == (if Keep(Prop1, c) then [Prop1] else []) + (if Keep(Prop2, c) then [Prop2] else [])
               + (if Keep(Prop3, c) then [Prop3] else [])
  {
    FilterOfThree(Prop1, Prop2, Prop3, c);
  }

  /** The substring tests on the three areas that the scenarios need. */
  lemma AreaTests()
    ensures Includes("BR6", "BR6") && !Includes("BR5", "BR6") && !Includes("BR2", "BR6")
    ensures Includes("BR5", "BR5") && Includes("BR5", "BR") && Includes("BR5", "5")
    ensures !Includes("BR5", "BR55") && !Includes("BR6", "5") && !Includes("BR2", "5")
  {
    IncludesSameLength("BR6", "BR6");
    IncludesSameLength("BR5", "BR6");
    assert "BR5"[2] != "BR6"[2];
    IncludesSameLength("BR2", "BR6");
    assert "BR2"[2] != "BR6"[2];
    IncludesSameLength("BR5", "BR5");
    assert OccursAt("BR5", "BR", 0);
    assert OccursAt("BR5", "5", 2);
    IncludesChar("BR6", '5');
    IncludesChar("BR2", '5');
    assert "5" == ['5'];
  }

  /** Lines 37-50: no criteria returns all three. */
  lemma NoCriteriaKeepsAll()
    ensures FilterProperties(Mock, NoCriteria) == Mock
  {
    FilterWithoutCriteriaIsIdentity(Mock);
  }

  /** Lines 52-66: type House keeps the two houses. */
  lemma TypeHouse()
    ensures FilterProperties(Mock, NoCriteria.(propertyType := "House")) == [Prop1, Prop3]
  {
    var c := NoCriteria.(propertyType := "House");
    FilterOfMock(c);
    assert Keep(Prop1, c) && !Keep(Prop2, c) && Keep(Prop3, c);
  }

  // The numeric scenarios take the bound as any text that parseInt reads as
  // the test's number; JsText.ParseIntOfDecimal shows the test's own text is such a text.

  /** Lines 68-82: a minimum price of 400000 keeps the two houses. */
  lemma MinPrice400000(bound: string)
    requires ParseInt(bound) == Some(400000)
    ensures FilterProperties(Mock, NoCriteria.(minPrice := bound)) == [Prop1, Prop3]
  {
    var c := NoCriteria.(minPrice := bound);
    FilterOfMock(c);
    assert Keep(Prop1, c) && !Keep(Prop2, c) && Keep(Prop3, c);
  }

  /** Lines 84-98: a maximum price of 800000 keeps the first two. */
  lemma MaxPrice800000(bound: string)
    requires ParseInt(bound) == Some(800000)
    ensures FilterProperties(Mock, NoCriteria.(maxPrice := bound)) == [Prop1, Prop2]
  {
    var c := NoCriteria.(maxPrice := bound);
    FilterOfMock(c);
    assert Keep(Prop1, c) && Keep(Prop2, c) && !Keep(Prop3, c);
  }

  /** Lines 100-114: at least three bedrooms. */
  lemma MinBedrooms3(bound: string)
    requires ParseInt(bound) == Some(3)
    ensures FilterProperties(Mock, NoCriteria.(minBedrooms := bound)) == [Prop1, Prop3]
  {
    var c := NoCriteria.(minBedrooms := bound);
    FilterOfMock(c);
    assert Keep(Prop1, c) && !Keep(Prop2, c) && Keep(Prop3, c);
  }

  /** Lines 116-130: postcode BR6 keeps only the flat. */
  lemma PostcodeBR6()
    ensures FilterProperties(Mock, NoCriteria.(postcode := "BR6")) == [Prop2]
  {
    var c := NoCriteria.(postcode := "BR6");
    Prop1Area(); Prop2Area(); Prop3Area();
    AreaTests();
    FilterOfMock(c);
    assert !Keep(Prop1, c) && Keep(Prop2, c) && !Keep(Prop3, c);
  }

  /** The criteria of lines 133-142, with the price and bedroom bounds as texts parseInt reads. */
  function FlatCriteria(minPrice: string, maxPrice: string, bedrooms: string): SearchCriteria {
    SearchCriteria("Flat", minPrice, maxPrice, bedrooms, bedrooms, None, None, "BR6")
  }

  /** Lines 132-146: every criterion at once keeps the flat. */
  lemma MultipleCriteria(minPrice: string, maxPrice: string, bedrooms: string)
    requires ParseInt(minPrice) == Some(300000) && ParseInt(maxPrice) == Some(500000) && ParseInt(bedrooms) == Some(2)
    ensures FilterProperties(Mock, FlatCriteria(minPrice, maxPrice, bedrooms)) == [Prop2]
  {
    var c := FlatCriteria(minPrice, maxPrice, bedrooms);
    Prop1Area(); Prop2Area(); Prop3Area();
    AreaTests();
    FilterOfMock(c);
    assert !Keep(Prop1, c) && Keep(Prop2, c) && !Keep(Prop3, c);
  }

  /** Asking for a house instead, with the other criteria kept, leaves nothing. */
  lemma MultipleCriteriaWrongType(minPrice: string, maxPrice: string, bedrooms: string)
    requires ParseInt(minPrice) == Some(300000) && ParseInt(maxPrice) == Some(500000) && ParseInt(bedrooms) == Some(2)
    ensures FilterProperties(Mock, FlatCriteria(minPrice, maxPrice, bedrooms).(propertyType := "House")) == []
  {
    var c := FlatCriteria(minPrice, maxPrice, bedrooms).(propertyType := "House");
    assert !Keep(Prop1, c) && !Keep(Prop3, c) by {
      PriceBoundsAreInclusive(Prop1, c);
      PriceBoundsAreInclusive(Prop3, c);
    }
    assert !Keep(Prop2, c) by {
      TypeCriterionIsExact(Prop2, c);
    }
    FilterOfMock(c);
  }

  /** Asking for at least three bedrooms instead, with the other criteria kept, leaves nothing. */
  lemma MultipleCriteriaTooFewBedrooms(minPrice: string, maxPrice: string, bedrooms: string, three: string)
    requires ParseInt(minPrice) == Some(300000) && ParseInt(maxPrice) == Some(500000) && ParseInt(bedrooms) == Some(2)
    requires ParseInt(three) == Some(3)
    ensures FilterProperties(Mock, FlatCriteria(minPrice, maxPrice, bedrooms).(minBedrooms := three)) == []
  {
    var c := FlatCriteria(minPrice, maxPrice, bedrooms).(minBedrooms := three);
    assert !Keep(Prop1, c) && !Keep(Prop3, c) by {
      TypeCriterionIsExact(Prop1, c);
      TypeCriterionIsExact(Prop3, c);
    }
    assert !Keep(Prop2, c) by {
      BedroomBoundsAreInclusive(Prop2, c);
    }
    FilterOfMock(c);
  }

  /** Lines 148-161: no house costs 2000000 or more. */
  lemma NoMatches(bound: string)
    requires ParseInt(bound) == Some(2000000)
    ensures FilterProperties(Mock, NoCriteria.(propertyType := "House", minPrice := bound)) == []
  {
    var c := NoCriteria.(propertyType := "House", minPrice := bound);
    FilterOfMock(c);
    assert !Keep(Prop1, c) && !Keep(Prop2, c) && !Keep(Prop3, c);
  }

  /** Lines 164-170. */
  lemma FormatsOctober12(added: AddedDate)
    requires added == AddedDate("October", 12, 2024)
    ensures FormatPropertyDate(added) == "October 12, 2024"
  {
    var day, year := IntToString(added.day), IntToString(added.year);
    assert day == "12" && year == "2024";
    var text := added.month + " " + day + ", " + year;
    assert text == "October 12, 2024" by {
      OctoberText();
    }
  }

  lemma OctoberText()
    ensures "October" + " " + "12" + ", " + "2024" == "October 12, 2024"
  {
  }

  /**
   * The postcode criterion is a substring test on the area: "BR5" is found
   * by "BR5", "BR" and also "5", but not by "BR55".
   */
  lemma SubstringLaw()
    ensures Includes("BR5", "BR5") && Includes("BR5", "BR") && Includes("BR5", "5")
    ensures !Includes("BR5", "BR55")
    ensures var c := NoCriteria.(postcode := "5"); FilterProperties(Mock, c) == [Prop1]
  {
    var c := NoCriteria.(postcode := "5");
    Prop1Area(); Prop2Area(); Prop3Area();
    AreaTests();
    FilterOfMock(c);
    assert Keep(Prop1, c) && !Keep(Prop2, c) && !Keep(Prop3, c);
  }
}
