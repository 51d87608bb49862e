/**
 * Worked scenarios for the formatter and the address value object, each
 * proved for the concrete inputs of the library's unit tests. Every step on
 * a literal is a lemma of its own: the verifier evaluates functions on
 * literals eagerly, and several such evaluations in one proof are costly.
 */
module AddressExamples {
  import opened Wrappers
  import opened Text
  import opened AddressFormatter
  import opened AddressValue

  // ----- postal code -----

  lemma HyphenatedZipSplits()
    ensures "01310-100" == "01310" + "-100"
    ensures "01310" + "100" == "01310100"
  {
  }

  lemma RemoveHyphenPieces()
    ensures Remove("01310", '-') == "01310"
    ensures Remove("-100", '-') == "100"
  {
    assert '-' !in "01310";
  }

  lemma RemoveHyphenExample()
    ensures Remove("01310-100", '-') == "01310100"
  {
    HyphenatedZipSplits();
    RemoveAppend("01310", "-100", '-');
    RemoveHyphenPieces();
  }

  lemma DigitsHaveNoDot()
    ensures Remove("01310100", '.') == "01310100"
  {
    assert '.' !in "01310100";
  }

  lemma DigitsHaveNoSpace()
    ensures Remove("01310100", ' ') == "01310100"
  {
    assert ' ' !in "01310100";
  }

  lemma DigitsAreClean()
    ensures IsCleanZip("01310100")
    ensures Trim("01310100") == "01310100"
  {
    TrimTrimmed("01310100");
  }

  lemma ZipInputsAreNotBlank()
    ensures !IsBlank("01310-100") && !IsBlank("01310100")
  {
    assert !IsWhite("01310-100"[0]) && !IsWhite("01310100"[0]);
  }

  /** `CleanZipCode("01310-100")` is `"01310100"`. */
  lemma CleanZipCodeExample()
    ensures CleanZipCode("01310-100") == "01310100"
  {
    ZipInputsAreNotBlank();
    RemoveHyphenExample();
    DigitsHaveNoDot();
    DigitsHaveNoSpace();
    DigitsAreClean();
  }

  lemma DigitsSplit()
    ensures "01310100"[..5] + "-" + "01310100"[5..] == "01310-100"
  {
  }

  /** `FormatBrazilianZipCode("01310100")` is `"01310-100"`. */
  lemma FormatBrazilianZipCodeExample()
    ensures FormatBrazilianZipCode("01310100") == "01310-100"
  {
    DigitsAreClean();
    FormatCleanZipCode("01310100");
    DigitsSplit();
  }

  // ----- country code -----

  lemma PaddedCountryCodeTrims()
    ensures Trim("  BR  ") == "BR"
  {
    assert IsBlank("  ");
    assert IsTrimmed("BR");
    TrimPadded("  ", "BR", "  ");
    assert "  BR  " == "  " + "BR" + "  ";
  }

  lemma PaddedCountryCodeUpperCases()
    ensures ToUpperInvariant("  br  ") == "  BR  "
  {
  }

  lemma PaddedCountryCodeIsNotBlank()
    ensures !IsBlank("  br  ")
  {
    assert !IsWhite("  br  "[2]);
  }

  /** `NormalizeCountryCode("  br  ")` is `"BR"`. */
  lemma NormalizeCountryCodeExample(countryCode: string)
    requires countryCode == "  br  "
    ensures NormalizeCountryCode(countryCode) == "BR"
  {
    PaddedCountryCodeIsNotBlank();
    PaddedCountryCodeUpperCases();
    PaddedCountryCodeTrims();
  }

  // ----- construction -----

  /** A null, empty or all-blank street is rejected with the street's own message and parameter name. */
  lemma CreateBlankStreetExample(street: Option<string>)
    requires street == None || street == Some("") || street == Some("  ")
    ensures Create(street, Some("Centro"), Some("São Paulo"), Some("SP"), Some("Brasil"), Some("BR"), Some("01310100"),
                   None, None, None, None, None)
         == Failure(InvalidAddress("Street cannot be empty.", "street"))
  {
    var required := [street, Some("Centro"), Some("São Paulo"), Some("SP"), Some("Brasil"), Some("BR"), Some("01310100")];
    assert IsBlank("  ");
    assert IsFirstBlank(required, 0);
  }

  // Facts about the literal inputs of the scenarios.

  lemma RequiredInputsAreTrimmed()
    ensures IsTrimmed("Flores") && IsTrimmed("Centro") && IsTrimmed("São Paulo")
    ensures IsTrimmed("SP") && IsTrimmed("Brasil") && IsTrimmed("BR")
  {
  }

  lemma RequiredInputsAreNotBlank()
    ensures !IsBlank("Flores") && !IsBlank("Centro") && !IsBlank("São Paulo")
    ensures !IsBlank("SP") && !IsBlank("Brasil") && !IsBlank("BR")
  {
    assert !IsWhite("Flores"[0]) && !IsWhite("Centro"[0]) && !IsWhite("São Paulo"[0]);
    assert !IsWhite("SP"[0]) && !IsWhite("Brasil"[0]) && !IsWhite("BR"[0]);
  }

  lemma OptionalInputsAreTrimmed()
    ensures IsTrimmed("Rua") && IsTrimmed("123") && IsTrimmed("3550308") && IsTrimmed("35") && IsTrimmed("Apto 45")
  {
  }

  lemma OptionalInputsAreNotBlank()
    ensures !IsBlank("Rua") && !IsBlank("123") && !IsBlank("3550308") && !IsBlank("35") && !IsBlank("Apto 45")
  {
    assert !IsWhite("Rua"[0]) && !IsWhite("123"[0]) && !IsWhite("3550308"[0]);
    assert !IsWhite("35"[0]) && !IsWhite("Apto 45"[0]);
  }

  /** An upper-case, unpadded country code is already normal: it is what normalising `"  br  "` gives. */
  lemma UpperCountryCodeIsNormal(countryCode: string)
    requires countryCode == "BR"
    ensures NormalizeCountryCode(countryCode) == "BR"
  {
    NormalizeCountryCodeIdempotent("  br  ");
    NormalizeCountryCodeExample("  br  ");
  }

  /** The constructor accepts the test suite's complete address. */
  lemma CreateAllFieldsSucceeds(
    street: Option<string>, district: Option<string>, city: Option<string>, state: Option<string>,
    country: Option<string>, countryCode: Option<string>, zipCode: Option<string>)
    requires street == Some("Flores") && district == Some("Centro") && city == Some("São Paulo")
    requires state == Some("SP") && country == Some("Brasil") && countryCode == Some("BR")
    requires zipCode == Some("01310-100") || zipCode == Some("01310100")
    ensures Validate(street, district, city, state, country, countryCode, zipCode).None?
  {
    RequiredInputsAreNotBlank();
    ZipInputsAreNotBlank();
  }

  lemma LowerCountryCodeUpperCases()
    ensures ToUpperInvariant("br") == "BR"
  {
  }

  lemma LowerCountryCodeIsNotBlank()
    ensures !IsBlank("br")
  {
    assert !IsWhite("br"[0]);
  }

  /** A lower-case country code is upper-cased. */
  lemma LowerCountryCodeNormalizes(countryCode: string)
    requires countryCode == "br"
    ensures !IsBlank(countryCode) && NormalizeCountryCode(countryCode) == "BR"
  {
    LowerCountryCodeIsNotBlank();
    LowerCountryCodeUpperCases();
    RequiredInputsAreTrimmed();
    TrimTrimmed("BR");
  }

  /** The constructor accepts the complete address with a lower-case country code. */
  lemma CreateLowerCountryCodeSucceeds(
    street: Option<string>, district: Option<string>, city: Option<string>, state: Option<string>,
    country: Option<string>, countryCode: Option<string>, zipCode: Option<string>)
    requires street == Some("Flores") && district == Some("Centro") && city == Some("São Paulo")
    requires state == Some("SP") && country == Some("Brasil") && countryCode == Some("br")
    requires zipCode == Some("01310100")
    ensures Validate(street, district, city, state, country, countryCode, zipCode).None?
  {
    RequiredInputsAreNotBlank();
    ZipInputsAreNotBlank();
    LowerCountryCodeIsNotBlank();
  }

  /** The constructor upper-cases a lower-case country code. */
  lemma CreateCountryCodeExample(
    street: Option<string>, district: Option<string>, city: Option<string>, state: Option<string>,
    country: Option<string>, countryCode: Option<string>, zipCode: Option<string>,
    streetType: Option<string>, number: Option<string>, municipalityIbge: Option<string>,
    stateIbge: Option<string>, complement: Option<string>)
    requires street == Some("Flores") && district == Some("Centro") && city == Some("São Paulo")
    requires state == Some("SP") && country == Some("Brasil") && countryCode == Some("br")
    requires zipCode == Some("01310100")
    ensures var r := Create(street, district, city, state, country, countryCode, zipCode,
                            streetType, number, municipalityIbge, stateIbge, complement);
      && r.Success?
      && r.value.CountryCode == "BR"
  {
    CreateLowerCountryCodeSucceeds(street, district, city, state, country, countryCode, zipCode);
    CreateStoresRequiredFields(street, district, city, state, country, countryCode, zipCode,
                               streetType, number, municipalityIbge, stateIbge, complement);
    LowerCountryCodeNormalizes(countryCode.value);
  }

  /** A postal code typed without its hyphen is stored as typed. */
  lemma CreatePlainZipCodeStored(
    street: Option<string>, district: Option<string>, city: Option<string>, state: Option<string>,
    country: Option<string>, countryCode: Option<string>, zipCode: Option<string>,
    streetType: Option<string>, number: Option<string>, municipalityIbge: Option<string>,
    stateIbge: Option<string>, complement: Option<string>)
    requires street == Some("Flores") && district == Some("Centro") && city == Some("São Paulo")
    requires state == Some("SP") && country == Some("Brasil") && countryCode == Some("BR")
    requires zipCode == Some("01310100")
    ensures var r := Create(street, district, city, state, country, countryCode, zipCode,
                            streetType, number, municipalityIbge, stateIbge, complement);
      && r.Success?
      && r.value.ZipCode == "01310100"
  {
    CreateAllFieldsSucceeds(street, district, city, state, country, countryCode, zipCode);
    CreateStoresRequiredFields(street, district, city, state, country, countryCode, zipCode,
                               streetType, number, municipalityIbge, stateIbge, complement);
    DigitsAreClean();
    CleanZipCodeFixpoint("01310100");
  }

  /** The five plain required fields of the complete address are stored unchanged. */
  lemma CreateAllFieldsTrimmed(
    street: Option<string>, district: Option<string>, city: Option<string>, state: Option<string>,
    country: Option<string>, countryCode: Option<string>, zipCode: Option<string>,
    streetType: Option<string>, number: Option<string>, municipalityIbge: Option<string>,
    stateIbge: Option<string>, complement: Option<string>)
    requires street == Some("Flores") && district == Some("Centro") && city == Some("São Paulo")
    requires state == Some("SP") && country == Some("Brasil") && countryCode == Some("BR")
    requires zipCode == Some("01310-100") || zipCode == Some("01310100")
    ensures var r := Create(street, district, city, state, country, countryCode, zipCode,
                            streetType, number, municipalityIbge, stateIbge, complement);
      && r.Success?
      && r.value.Street == "Flores" && r.value.District == "Centro" && r.value.City == "São Paulo"
      && r.value.State == "SP" && r.value.Country == "Brasil"
  {
    CreateAllFieldsSucceeds(street, district, city, state, country, countryCode, zipCode);
    CreateStoresRequiredFields(street, district, city, state, country, countryCode, zipCode,
                               streetType, number, municipalityIbge, stateIbge, complement);
    RequiredInputsAreTrimmed();
    TrimTrimmed("Flores"); TrimTrimmed("Centro"); TrimTrimmed("São Paulo");
    TrimTrimmed("SP"); TrimTrimmed("Brasil");
  }

  /** The country code of the complete address is stored unchanged. */
  lemma CreateAllFieldsCountryCode(
    street: Option<string>, district: Option<string>, city: Option<string>, state: Option<string>,
    country: Option<string>, countryCode: Option<string>, zipCode: Option<string>,
    streetType: Option<string>, number: Option<string>, municipalityIbge: Option<string>,
    stateIbge: Option<string>, complement: Option<string>)
    requires street == Some("Flores") && district == Some("Centro") && city == Some("São Paulo")
    requires state == Some("SP") && country == Some("Brasil") && countryCode == Some("BR")
    requires zipCode == Some("01310-100")
    ensures var r := Create(street, district, city, state, country, countryCode, zipCode,
                            streetType, number, municipalityIbge, stateIbge, complement);
      && r.Success?
      && r.value.CountryCode == "BR"
  {
    CreateAllFieldsSucceeds(street, district, city, state, country, countryCode, zipCode);
    CreateStoresRequiredFields(street, district, city, state, country, countryCode, zipCode,
                               streetType, number, municipalityIbge, stateIbge, complement);
    UpperCountryCodeIsNormal("BR");
  }

  /** The postal code of the complete address is stored without its hyphen. */
  lemma CreateAllFieldsZipCode(
    street: Option<string>, district: Option<string>, city: Option<string>, state: Option<string>,
    country: Option<string>, countryCode: Option<string>, zipCode: Option<string>,
    streetType: Option<string>, number: Option<string>, municipalityIbge: Option<string>,
    stateIbge: Option<string>, complement: Option<string>)
    requires street == Some("Flores") && district == Some("Centro") && city == Some("São Paulo")
    requires state == Some("SP") && country == Some("Brasil") && countryCode == Some("BR")
    requires zipCode == Some("01310-100")
    ensures var r := Create(street, district, city, state, country, countryCode, zipCode,
                            streetType, number, municipalityIbge, stateIbge, complement);
      && r.Success?
      && r.value.ZipCode == "01310100"
  {
    CreateAllFieldsSucceeds(street, district, city, state, country, countryCode, zipCode);
    CreateStoresRequiredFields(street, district, city, state, country, countryCode, zipCode,
                               streetType, number, municipalityIbge, stateIbge, complement);
    CleanZipCodeExample();
  }

  /** The required fields of the test suite's complete address are stored as given, the postal code without its hyphen. */
  lemma CreateAllFieldsRequired(
    street: Option<string>, district: Option<string>, city: Option<string>, state: Option<string>,
    country: Option<string>, countryCode: Option<string>, zipCode: Option<string>,
    streetType: Option<string>, number: Option<string>, municipalityIbge: Option<string>,
    stateIbge: Option<string>, complement: Option<string>)
    requires street == Some("Flores") && district == Some("Centro") && city == Some("São Paulo")
    requires state == Some("SP") && country == Some("Brasil") && countryCode == Some("BR")
    requires zipCode == Some("01310-100")
    ensures var r := Create(street, district, city, state, country, countryCode, zipCode,
                            streetType, number, municipalityIbge, stateIbge, complement);
      && r.Success?
      && r.value.Street == "Flores" && r.value.District == "Centro" && r.value.City == "São Paulo"
      && r.value.State == "SP" && r.value.Country == "Brasil" && r.value.CountryCode == "BR"
      && r.value.ZipCode == "01310100"
  {
    CreateAllFieldsTrimmed(street, district, city, state, country, countryCode, zipCode,
                     streetType, number, municipalityIbge, stateIbge, complement);
    CreateAllFieldsCountryCode(street, district, city, state, country, countryCode, zipCode,
                     streetType, number, municipalityIbge, stateIbge, complement);
    CreateAllFieldsZipCode(street, district, city, state, country, countryCode, zipCode,
                     streetType, number, municipalityIbge, stateIbge, complement);
  }

  /** A trimmed, non-blank optional input is kept as given. */
  lemma OptionalInputKept(s: string)
    requires IsTrimmed(s) && !IsBlank(s)
    ensures !IsNullOrBlank(Some(s)) && Trim(s) == s
  {
    TrimTrimmed(s);
  }

  /** The street type, number and complement of the complete address are stored as given. */
  lemma CreateAllFieldsDisplayed(
    street: Option<string>, district: Option<string>, city: Option<string>, state: Option<string>,
    country: Option<string>, countryCode: Option<string>, zipCode: Option<string>,
    streetType: Option<string>, number: Option<string>, municipalityIbge: Option<string>,
    stateIbge: Option<string>, complement: Option<string>)
    requires street == Some("Flores") && district == Some("Centro") && city == Some("São Paulo")
    requires state == Some("SP") && country == Some("Brasil") && countryCode == Some("BR")
    requires zipCode == Some("01310-100") || zipCode == Some("01310100")
    requires streetType == Some("Rua") && number == Some("123") && complement == Some("Apto 45")
    ensures var r := Create(street, district, city, state, country, countryCode, zipCode,
                            streetType, number, municipalityIbge, stateIbge, complement);
      && r.Success?
      && r.value.Type == Some("Rua") && r.value.Number == Some("123") && r.value.Complement == Some("Apto 45")
  {
    CreateAllFieldsSucceeds(street, district, city, state, country, countryCode, zipCode);
    CreateStoresOptionalFields(street, district, city, state, country, countryCode, zipCode,
                               streetType, number, municipalityIbge, stateIbge, complement);
    OptionalInputsAreTrimmed();
    OptionalInputsAreNotBlank();
    OptionalInputKept("Rua");
    OptionalInputKept("123");
    OptionalInputKept("Apto 45");
  }

  /** The IBGE codes of the complete address are stored as given. */
  lemma CreateAllFieldsIbge(
    street: Option<string>, district: Option<string>, city: Option<string>, state: Option<string>,
    country: Option<string>, countryCode: Option<string>, zipCode: Option<string>,
    streetType: Option<string>, number: Option<string>, municipalityIbge: Option<string>,
    stateIbge: Option<string>, complement: Option<string>)
    requires street == Some("Flores") && district == Some("Centro") && city == Some("São Paulo")
    requires state == Some("SP") && country == Some("Brasil") && countryCode == Some("BR")
    requires zipCode == Some("01310-100")
    requires streetType == Some("Rua") && number == Some("123") && municipalityIbge == Some("3550308")
    requires stateIbge == Some("35") && complement == Some("Apto 45")
    ensures var r := Create(street, district, city, state, country, countryCode, zipCode,
                            streetType, number, municipalityIbge, stateIbge, complement);
      && r.Success?
      && r.value.MunicipalityIbge == Some("3550308") && r.value.StateIbge == Some("35")
  {
    CreateAllFieldsSucceeds(street, district, city, state, country, countryCode, zipCode);
    CreateStoresOptionalFields(street, district, city, state, country, countryCode, zipCode,
                               streetType, number, municipalityIbge, stateIbge, complement);
    OptionalInputsAreTrimmed();
    OptionalInputsAreNotBlank();
    OptionalInputKept("3550308");
    OptionalInputKept("35");
  }

  /** The optional fields of the test suite's complete address are stored as given. */
  lemma CreateAllFieldsOptional(
    street: Option<string>, district: Option<string>, city: Option<string>, state: Option<string>,
    country: Option<string>, countryCode: Option<string>, zipCode: Option<string>,
    streetType: Option<string>, number: Option<string>, municipalityIbge: Option<string>,
    stateIbge: Option<string>, complement: Option<string>)
    requires street == Some("Flores") && district == Some("Centro") && city == Some("São Paulo")
    requires state == Some("SP") && country == Some("Brasil") && countryCode == Some("BR")
    requires zipCode == Some("01310-100")
    requires streetType == Some("Rua") && number == Some("123") && municipalityIbge == Some("3550308")
    requires stateIbge == Some("35") && complement == Some("Apto 45")
    ensures var r := Create(street, district, city, state, country, countryCode, zipCode,
                            streetType, number, municipalityIbge, stateIbge, complement);
      && r.Success?
      && r.value.Type == Some("Rua") && r.value.Number == Some("123") && r.value.Complement == Some("Apto 45")
      && r.value.MunicipalityIbge == Some("3550308") && r.value.StateIbge == Some("35")
  {
    CreateAllFieldsDisplayed(street, district, city, state, country, countryCode, zipCode,
                               streetType, number, municipalityIbge, stateIbge, complement);
    CreateAllFieldsIbge(street, district, city, state, country, countryCode, zipCode,
                               streetType, number, municipalityIbge, stateIbge, complement);
  }

  /** The test suite's complete address: every field stored as given, the postal code without its hyphen. */
  lemma CreateAllFieldsExample(
    street: Option<string>, district: Option<string>, city: Option<string>, state: Option<string>,
    country: Option<string>, countryCode: Option<string>, zipCode: Option<string>,
    streetType: Option<string>, number: Option<string>, municipalityIbge: Option<string>,
    stateIbge: Option<string>, complement: Option<string>)
    requires street == Some("Flores") && district == Some("Centro") && city == Some("São Paulo")
    requires state == Some("SP") && country == Some("Brasil") && countryCode == Some("BR")
    requires zipCode == Some("01310-100")
    requires streetType == Some("Rua") && number == Some("123") && municipalityIbge == Some("3550308")
    requires stateIbge == Some("35") && complement == Some("Apto 45")
    ensures Create(street, district, city, state, country, countryCode, zipCode,
                   streetType, number, municipalityIbge, stateIbge, complement)
         == Success(Address(Some("Rua"), "Flores", Some("123"), "Centro", Some("Apto 45"), "São Paulo", "SP",
                            "Brasil", "BR", "01310100", Some("3550308"), Some("35")))
  {
    CreateAllFieldsRequired(street, district, city, state, country, countryCode, zipCode,
                            streetType, number, municipalityIbge, stateIbge, complement);
    CreateAllFieldsOptional(street, district, city, state, country, countryCode, zipCode,
                            streetType, number, municipalityIbge, stateIbge, complement);
  }

  /** The postal code typed with or without its hyphen gives the same construction result. */
  lemma CreateZipCodeSpellings(
    street: Option<string>, district: Option<string>, city: Option<string>, state: Option<string>,
    country: Option<string>, countryCode: Option<string>,
    streetType: Option<string>, number: Option<string>, municipalityIbge: Option<string>,
    stateIbge: Option<string>, complement: Option<string>)
    ensures Create(street, district, city, state, country, countryCode, Some("01310-100"),
                   streetType, number, municipalityIbge, stateIbge, complement)
         == Create(street, district, city, state, country, countryCode, Some("01310100"),
                   streetType, number, municipalityIbge, stateIbge, complement)
  {
    ZipInputsAreNotBlank();
    CleanZipCodeExample();
    DigitsAreClean();
    CleanZipCodeFixpoint("01310100");
    CreateZipCodeFormattingIrrelevant(street, district, city, state, country, countryCode, "01310-100", "01310100",
                                      streetType, number, municipalityIbge, stateIbge, complement);
  }

  /** The hyphenated postal code is stored without its hyphen and displayed with it. */
  lemma CreateZipCodeStored(
    street: Option<string>, district: Option<string>, city: Option<string>, state: Option<string>,
    country: Option<string>, countryCode: Option<string>,
    streetType: Option<string>, number: Option<string>, municipalityIbge: Option<string>,
    stateIbge: Option<string>, complement: Option<string>)
    ensures var r := Create(street, district, city, state, country, countryCode, Some("01310-100"),
                            streetType, number, municipalityIbge, stateIbge, complement);
      r.Success? ==> r.value.ZipCode == "01310100" && FormatZipCode(r.value) == "01310-100"
  {
    var r := Create(street, district, city, state, country, countryCode, Some("01310-100"),
                    streetType, number, municipalityIbge, stateIbge, complement);
    if r.Success? {
      CreateStoresRequiredFields(street, district, city, state, country, countryCode, Some("01310-100"),
                                 streetType, number, municipalityIbge, stateIbge, complement);
      CleanZipCodeExample();
      StoredZipCodeDisplay(r.value);
    }
  }

  /**
   * The postal code typed with or without its hyphen builds the same address
   * (or fails with the same error), whose `FormatZipCode()` is `"01310-100"`.
   */
  lemma CreateZipCodeExample(
    street: Option<string>, district: Option<string>, city: Option<string>, state: Option<string>,
    country: Option<string>, countryCode: Option<string>,
    streetType: Option<string>, number: Option<string>, municipalityIbge: Option<string>,
    stateIbge: Option<string>, complement: Option<string>)
    ensures var r := Create(street, district, city, state, country, countryCode, Some("01310-100"),
                            streetType, number, municipalityIbge, stateIbge, complement);
      && r == Create(street, district, city, state, country, countryCode, Some("01310100"),
                     streetType, number, municipalityIbge, stateIbge, complement)
      && (r.Success? ==> r.value.ZipCode == "01310100" && FormatZipCode(r.value) == "01310-100")
  {
    CreateZipCodeSpellings(street, district, city, state, country, countryCode,
                           streetType, number, municipalityIbge, stateIbge, complement);
    CreateZipCodeStored(street, district, city, state, country, countryCode,
                        streetType, number, municipalityIbge, stateIbge, complement);
  }

  lemma StoredZipCodeDisplay(a: Address)
    requires a.ZipCode == "01310100"
    ensures FormatZipCode(a) == "01310-100"
  {
    FormatBrazilianZipCodeExample();
  }

  // ----- display -----

  lemma StreetDisplayExample()
    ensures FormatStreetDisplay(Some("Rua"), "Flores") == "Rua Flores"
    ensures FormatStreetDisplay(None, "Flores") == "Flores"
  {
    assert !IsWhite("Rua"[0]);
  }

  lemma SegmentsExample()
    ensures NumberSegment(Some("123")) == ", 123"
    ensures NumberSegment(None) == ", S/N"
    ensures ComplementSegment(Some("Apto 45")) == " - Apto 45"
    ensures ComplementSegment(None) == ""
  {
    assert !IsWhite("123"[0]);
    assert !IsWhite("Apto 45"[0]);
  }

  // The full address is assembled one short literal at a time.

  lemma FullAddressSteps1()
    ensures "Rua Flores" + ", 123" == "Rua Flores, 123"
    ensures "Rua Flores, 123" + " - Apto 45" == "Rua Flores, 123 - Apto 45"
    ensures "Rua Flores, 123 - Apto 45" + ", " == "Rua Flores, 123 - Apto 45, "
    ensures "Rua Flores, 123 - Apto 45, " + "Centro" == "Rua Flores, 123 - Apto 45, Centro"
  {
  }

  lemma FullAddressSteps2()
    ensures "Rua Flores, 123 - Apto 45, Centro" + ", " == "Rua Flores, 123 - Apto 45, Centro, "
    ensures "Rua Flores, 123 - Apto 45, Centro, " + "São Paulo" == "Rua Flores, 123 - Apto 45, Centro, São Paulo"
    ensures "Rua Flores, 123 - Apto 45, Centro, São Paulo" + " - " == "Rua Flores, 123 - Apto 45, Centro, São Paulo - "
  {
  }

  lemma FullAddressSteps3()
    ensures "Rua Flores, 123 - Apto 45, Centro, São Paulo - " + "SP" == "Rua Flores, 123 - Apto 45, Centro, São Paulo - SP"
    ensures "Rua Flores, 123 - Apto 45, Centro, São Paulo - SP" + ", " == "Rua Flores, 123 - Apto 45, Centro, São Paulo - SP, "
    ensures "Rua Flores, 123 - Apto 45, Centro, São Paulo - SP, " + "Brasil"
         == "Rua Flores, 123 - Apto 45, Centro, São Paulo - SP, Brasil"
  {
  }

  lemma FullAddressSteps4()
    ensures "Rua Flores, 123 - Apto 45, Centro, São Paulo - SP, Brasil" + ", CEP: "
         == "Rua Flores, 123 - Apto 45, Centro, São Paulo - SP, Brasil, CEP: "
    ensures "Rua Flores, 123 - Apto 45, Centro, São Paulo - SP, Brasil, CEP: " + "01310-100"
         == "Rua Flores, 123 - Apto 45, Centro, São Paulo - SP, Brasil, CEP: 01310-100"
  {
  }

  lemma FullAddressAssembled()
    ensures "Rua Flores" + ", 123" + " - Apto 45"
            + (", " + "Centro" + ", " + "São Paulo" + " - " + "SP" + ", " + "Brasil" + ", CEP: " + "01310-100")
         == "Rua Flores, 123 - Apto 45, Centro, São Paulo - SP, Brasil, CEP: 01310-100"
  {
    FullAddressSteps1();
    FullAddressSteps2();
    FullAddressSteps3();
    FullAddressSteps4();
  }

  lemma FullAddressPieces(a: Address)
    requires a.Type == Some("Rua") && a.Street == "Flores" && a.Number == Some("123") && a.Complement == Some("Apto 45")
    requires a.District == "Centro" && a.City == "São Paulo" && a.State == "SP" && a.Country == "Brasil"
    requires a.ZipCode == "01310100"
    ensures FullAddress(a) == "Rua Flores" + ", 123" + " - Apto 45"
            + (", " + "Centro" + ", " + "São Paulo" + " - " + "SP" + ", " + "Brasil" + ", CEP: " + "01310-100")
  {
    StreetDisplayExample();
    SegmentsExample();
    FormatBrazilianZipCodeExample();
  }

  /** The full address of the test suite's complete address. */
  lemma FullAddressExample(a: Address)
    requires a.Type == Some("Rua") && a.Street == "Flores" && a.Number == Some("123") && a.Complement == Some("Apto 45")
    requires a.District == "Centro" && a.City == "São Paulo" && a.State == "SP" && a.Country == "Brasil"
    requires a.ZipCode == "01310100"
    ensures FullAddress(a) == "Rua Flores, 123 - Apto 45, Centro, São Paulo - SP, Brasil, CEP: 01310-100"
  {
    FullAddressPieces(a);
    FullAddressAssembled();
  }

  lemma ShortAddressSteps1()
    ensures "Rua Flores" + ", S/N" == "Rua Flores, S/N"
    ensures "Rua Flores, S/N" + "" == "Rua Flores, S/N"
    ensures "Rua Flores, S/N" + ", " == "Rua Flores, S/N, "
    ensures "Rua Flores, S/N, " + "Centro" == "Rua Flores, S/N, Centro"
  {
  }

  lemma ShortAddressSteps2()
    ensures "Rua Flores, S/N, Centro" + ", " == "Rua Flores, S/N, Centro, "
    ensures "Rua Flores, S/N, Centro, " + "São Paulo" == "Rua Flores, S/N, Centro, São Paulo"
    ensures "Rua Flores, S/N, Centro, São Paulo" + " - " == "Rua Flores, S/N, Centro, São Paulo - "
  {
  }

  lemma ShortAddressSteps3()
    ensures "Rua Flores, S/N, Centro, São Paulo - " + "SP" == "Rua Flores, S/N, Centro, São Paulo - SP"
    ensures "Rua Flores, S/N, Centro, São Paulo - SP" + ", " == "Rua Flores, S/N, Centro, São Paulo - SP, "
    ensures "Rua Flores, S/N, Centro, São Paulo - SP, " + "Brasil" == "Rua Flores, S/N, Centro, São Paulo - SP, Brasil"
  {
  }

  lemma ShortAddressSteps4()
    ensures "Rua Flores, S/N, Centro, São Paulo - SP, Brasil" + ", CEP: "
         == "Rua Flores, S/N, Centro, São Paulo - SP, Brasil, CEP: "
    ensures "Rua Flores, S/N, Centro, São Paulo - SP, Brasil, CEP: " + "01310-100"
         == "Rua Flores, S/N, Centro, São Paulo - SP, Brasil, CEP: 01310-100"
  {
  }

  lemma ShortAddressAssembled()
    ensures "Rua Flores" + ", S/N" + ""
            + (", " + "Centro" + ", " + "São Paulo" + " - " + "SP" + ", " + "Brasil" + ", CEP: " + "01310-100")
         == "Rua Flores, S/N, Centro, São Paulo - SP, Brasil, CEP: 01310-100"
  {
    ShortAddressSteps1();
    ShortAddressSteps2();
    ShortAddressSteps3();
    ShortAddressSteps4();
  }

  lemma ShortAddressPieces(a: Address)
    requires a.Type == Some("Rua") && a.Street == "Flores" && a.Number == None && a.Complement == None
    requires a.District == "Centro" && a.City == "São Paulo" && a.State == "SP" && a.Country == "Brasil"
    requires a.ZipCode == "01310100"
    ensures FullAddress(a) == "Rua Flores" + ", S/N" + ""
            + (", " + "Centro" + ", " + "São Paulo" + " - " + "SP" + ", " + "Brasil" + ", CEP: " + "01310-100")
  {
    StreetDisplayExample();
    SegmentsExample();
    FormatBrazilianZipCodeExample();
  }

  /** Without a number the full address reads `S/N` in its place. */
  lemma FullAddressWithoutNumberExample(a: Address)
    requires a.Type == Some("Rua") && a.Street == "Flores" && a.Number == None && a.Complement == None
    requires a.District == "Centro" && a.City == "São Paulo" && a.State == "SP" && a.Country == "Brasil"
    requires a.ZipCode == "01310100"
    ensures FullAddress(a) == "Rua Flores, S/N, Centro, São Paulo - SP, Brasil, CEP: 01310-100"
  {
    ShortAddressPieces(a);
    ShortAddressAssembled();
  }

  /** The full address of the test suite's address with street type, number and complement, built by the constructor. */
  lemma CreateFullAddressExample(
    street: Option<string>, district: Option<string>, city: Option<string>, state: Option<string>,
    country: Option<string>, countryCode: Option<string>, zipCode: Option<string>,
    streetType: Option<string>, number: Option<string>, municipalityIbge: Option<string>,
    stateIbge: Option<string>, complement: Option<string>)
    requires street == Some("Flores") && district == Some("Centro") && city == Some("São Paulo")
    requires state == Some("SP") && country == Some("Brasil") && countryCode == Some("BR")
    requires zipCode == Some("01310100")
    requires streetType == Some("Rua") && number == Some("123") && complement == Some("Apto 45")
    ensures var r := Create(street, district, city, state, country, countryCode, zipCode,
                            streetType, number, municipalityIbge, stateIbge, complement);
      && r.Success?
      && FullAddress(r.value) == "Rua Flores, 123 - Apto 45, Centro, São Paulo - SP, Brasil, CEP: 01310-100"
  {
    CreateAllFieldsTrimmed(street, district, city, state, country, countryCode, zipCode,
                           streetType, number, municipalityIbge, stateIbge, complement);
    CreateAllFieldsDisplayed(street, district, city, state, country, countryCode, zipCode,
                             streetType, number, municipalityIbge, stateIbge, complement);
    CreatePlainZipCodeStored(street, district, city, state, country, countryCode, zipCode,
                             streetType, number, municipalityIbge, stateIbge, complement);
    var a := Create(street, district, city, state, country, countryCode, zipCode,
                    streetType, number, municipalityIbge, stateIbge, complement).value;
    FullAddressExample(a);
  }

  /** Only a street type is given: it is stored, and no number nor complement. */
  lemma CreateStreetTypeOnly(
    street: Option<string>, district: Option<string>, city: Option<string>, state: Option<string>,
    country: Option<string>, countryCode: Option<string>, zipCode: Option<string>,
    streetType: Option<string>, number: Option<string>, municipalityIbge: Option<string>,
    stateIbge: Option<string>, complement: Option<string>)
    requires street == Some("Flores") && district == Some("Centro") && city == Some("São Paulo")
    requires state == Some("SP") && country == Some("Brasil") && countryCode == Some("BR")
    requires zipCode == Some("01310100")
    requires streetType == Some("Rua") && number == None && complement == None
    ensures var r := Create(street, district, city, state, country, countryCode, zipCode,
                            streetType, number, municipalityIbge, stateIbge, complement);
      && r.Success?
      && r.value.Type == Some("Rua") && r.value.Number == None && r.value.Complement == None
  {
    CreateAllFieldsSucceeds(street, district, city, state, country, countryCode, zipCode);
    CreateStoresOptionalFields(street, district, city, state, country, countryCode, zipCode,
                               streetType, number, municipalityIbge, stateIbge, complement);
    OptionalInputsAreTrimmed();
    OptionalInputsAreNotBlank();
    OptionalInputKept("Rua");
  }

  /** The full address without a number, built by the constructor, reads `S/N` in its place. */
  lemma CreateFullAddressWithoutNumberExample(
    street: Option<string>, district: Option<string>, city: Option<string>, state: Option<string>,
    country: Option<string>, countryCode: Option<string>, zipCode: Option<string>,
    streetType: Option<string>, number: Option<string>, municipalityIbge: Option<string>,
    stateIbge: Option<string>, complement: Option<string>)
    requires street == Some("Flores") && district == Some("Centro") && city == Some("São Paulo")
    requires state == Some("SP") && country == Some("Brasil") && countryCode == Some("BR")
    requires zipCode == Some("01310100")
    requires streetType == Some("Rua") && number == None && complement == None
    ensures var r := Create(street, district, city, state, country, countryCode, zipCode,
                            streetType, number, municipalityIbge, stateIbge, complement);
      && r.Success?
      && FullAddress(r.value) == "Rua Flores, S/N, Centro, São Paulo - SP, Brasil, CEP: 01310-100"
  {
    CreateAllFieldsTrimmed(street, district, city, state, country, countryCode, zipCode,
                           streetType, number, municipalityIbge, stateIbge, complement);
    CreateStreetTypeOnly(street, district, city, state, country, countryCode, zipCode,
                         streetType, number, municipalityIbge, stateIbge, complement);
    CreatePlainZipCodeStored(street, district, city, state, country, countryCode, zipCode,
                             streetType, number, municipalityIbge, stateIbge, complement);
    var a := Create(street, district, city, state, country, countryCode, zipCode,
                    streetType, number, municipalityIbge, stateIbge, complement).value;
    FullAddressWithoutNumberExample(a);
  }

  /** The constructor stores street type and street so that the street display reads `"Rua Flores"`. */
  lemma CreateStreetDisplayExample(
    street: Option<string>, district: Option<string>, city: Option<string>, state: Option<string>,
    country: Option<string>, countryCode: Option<string>, zipCode: Option<string>,
    streetType: Option<string>, number: Option<string>, municipalityIbge: Option<string>,
    stateIbge: Option<string>, complement: Option<string>)
    requires street == Some("Flores") && district == Some("Centro") && city == Some("São Paulo")
    requires state == Some("SP") && country == Some("Brasil") && countryCode == Some("BR")
    requires zipCode == Some("01310100")
    requires streetType == Some("Rua")
    ensures var r := Create(street, district, city, state, country, countryCode, zipCode,
                            streetType, number, municipalityIbge, stateIbge, complement);
      && r.Success?
      && StreetDisplay(r.value) == "Rua Flores"
  {
    CreateAllFieldsTrimmed(street, district, city, state, country, countryCode, zipCode,
                           streetType, number, municipalityIbge, stateIbge, complement);
    CreateStoresOptionalFields(street, district, city, state, country, countryCode, zipCode,
                               streetType, number, municipalityIbge, stateIbge, complement);
    OptionalInputsAreTrimmed();
    OptionalInputsAreNotBlank();
    OptionalInputKept("Rua");
    StreetDisplayExample();
  }

  /** Without a street type, the street display of the constructed address is the street alone. */
  lemma CreateStreetDisplayWithoutTypeExample(
    street: Option<string>, district: Option<string>, city: Option<string>, state: Option<string>,
    country: Option<string>, countryCode: Option<string>, zipCode: Option<string>,
    streetType: Option<string>, number: Option<string>, municipalityIbge: Option<string>,
    stateIbge: Option<string>, complement: Option<string>)
    requires street == Some("Flores") && district == Some("Centro") && city == Some("São Paulo")
    requires state == Some("SP") && country == Some("Brasil") && countryCode == Some("BR")
    requires zipCode == Some("01310100")
    requires streetType == None
    ensures var r := Create(street, district, city, state, country, countryCode, zipCode,
                            streetType, number, municipalityIbge, stateIbge, complement);
      && r.Success?
      && StreetDisplay(r.value) == "Flores"
  {
    CreateAllFieldsTrimmed(street, district, city, state, country, countryCode, zipCode,
                           streetType, number, municipalityIbge, stateIbge, complement);
    CreateStoresOptionalFields(street, district, city, state, country, countryCode, zipCode,
                               streetType, number, municipalityIbge, stateIbge, complement);
    StreetDisplayExample();
  }
}
