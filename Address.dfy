/**
 * The postal-address value object: twelve fields, validated and normalised
 * once at construction, with structural equality, a hash over the same
 * fields, and display helpers that delegate to the formatter.
 */
module AddressValue {
  import opened Wrappers
  import opened Text
  import opened AddressFormatter

  /** An address as stored after construction. Optional fields are `None` when absent. */
  datatype Address = Address(
    Type: Option<string>,
    Street: string,
    Number: Option<string>,
    District: string,
    Complement: Option<string>,
    City: string,
    State: string,
    Country: string,
    CountryCode: string,
    ZipCode: string,
    MunicipalityIbge: Option<string>,
    StateIbge: Option<string>)

  /** The validation error: a human-readable message and the name of the offending parameter. */
  datatype InvalidAddress = InvalidAddress(message: string, propertyName: string)

  /** A stored required field: non-empty, with no white space at either end. */
  predicate IsStoredRequired(s: string) {
    s != "" && IsTrimmed(s)
  }

  /** A stored optional field: absent, or non-blank with no white space at either end (never `""`). */
  predicate IsStoredOptional(o: Option<string>) {
    o.None? || (!IsBlank(o.value) && IsTrimmed(o.value))
  }

  /**
   * What holds of every address that construction produces. The postal code
   * is clean but may be empty: a code made only of separators passes
   * validation and cleans to `""`.
   */
  predicate Valid(a: Address) {
    && IsStoredOptional(a.Type)
    && IsStoredRequired(a.Street)
    && IsStoredOptional(a.Number)
    && IsStoredRequired(a.District)
    && IsStoredOptional(a.Complement)
    && IsStoredRequired(a.City)
    && IsStoredRequired(a.State)
    && IsStoredRequired(a.Country)
    && IsStoredRequired(a.CountryCode) && IsUpperCase(a.CountryCode)
    && IsCleanZip(a.ZipCode)
    && IsStoredOptional(a.MunicipalityIbge)
    && IsStoredOptional(a.StateIbge)
  }

  /** The parameter names of the required fields, in the order they are validated. */
  const RequiredFieldNames: seq<string> := ["street", "district", "city", "state", "country", "countryCode", "zipCode"]

  /** The message reported for each required field, in the same order: `"<Label> cannot be empty."`. */
  const RequiredFieldMessages: seq<string> := [
    "Street cannot be empty.", "District cannot be empty.", "City cannot be empty.", "State cannot be empty.",
    "Country cannot be empty.", "Country code cannot be empty.", "ZipCode cannot be empty."]

  /** The error reported when the `i`-th required field is blank. */
  function EmptyFieldError(i: nat): InvalidAddress
    requires i < |RequiredFieldNames|
  {
    InvalidAddress(RequiredFieldMessages[i], RequiredFieldNames[i])
  }

  /** `required[i]` is blank and every field before it is not. */
  predicate IsFirstBlank(required: seq<Option<string>>, i: int) {
    && 0 <= i < |required|
    && IsNullOrBlank(required[i])
    && forall j :: 0 <= j < i ==> !IsNullOrBlank(required[j])
  }

  /** Collapses a null, empty or all-white-space optional input to absent. */
  function NullIfBlank(o: Option<string>): (r: Option<string>)
    ensures r.None? <==> IsNullOrBlank(o)
    ensures r.Some? ==> r == o
  {
    if IsNullOrBlank(o) then None else o
  }

  /** `o?.Trim()`: trims a present value, keeps an absent one absent. */
  function TrimNullable(o: Option<string>): (r: Option<string>)
    ensures r.None? <==> o.None?
    ensures o.Some? ==> r == Some(Trim(o.value))
  {
    match o
    case None => None
    case Some(s) => Some(Trim(s))
  }

  /**
   * The validation step of the constructor: the seven required fields are
   * checked in order and the first null or blank one is reported; `None`
   * when all of them are filled in.
   */
  function Validate(
    street: Option<string>,
    district: Option<string>,
    city: Option<string>,
    state: Option<string>,
    country: Option<string>,
    countryCode: Option<string>,
    zipCode: Option<string>): (r: Option<InvalidAddress>)
    ensures var required := [street, district, city, state, country, countryCode, zipCode];
      && (r.None? <==> forall i :: 0 <= i < |required| ==> !IsNullOrBlank(required[i]))
      && (forall i :: IsFirstBlank(required, i) ==> r == Some(EmptyFieldError(i)))
  {
    var required := [street, district, city, state, country, countryCode, zipCode];
    assert required[0] == street && required[1] == district && required[2] == city && required[3] == state;
    assert required[4] == country && required[5] == countryCode && required[6] == zipCode;
    if IsNullOrBlank(street) then
      Some(InvalidAddress("Street cannot be empty.", "street"))
    else if IsNullOrBlank(district) then
      Some(InvalidAddress("District cannot be empty.", "district"))
    else if IsNullOrBlank(city) then
      Some(InvalidAddress("City cannot be empty.", "city"))
    else if IsNullOrBlank(state) then
      Some(InvalidAddress("State cannot be empty.", "state"))
    else if IsNullOrBlank(country) then
      Some(InvalidAddress("Country cannot be empty.", "country"))
    else if IsNullOrBlank(countryCode) then
      Some(InvalidAddress("Country code cannot be empty.", "countryCode"))
    else if IsNullOrBlank(zipCode) then
      Some(InvalidAddress("ZipCode cannot be empty.", "zipCode"))
    else None
  }

  /**
   * The storing step of the constructor, on inputs that passed validation:
   * every field trimmed, the country code normalised, the postal code
   * cleaned, optional fields kept absent when absent.
   */
  function Store(
    street: string,
    district: string,
    city: string,
    state: string,
    country: string,
    countryCode: string,
    zipCode: string,
    streetType: Option<string>,
    number: Option<string>,
    municipalityIbge: Option<string>,
    stateIbge: Option<string>,
    complement: Option<string>): (a: Address)
    requires !IsBlank(street) && !IsBlank(district) && !IsBlank(city) && !IsBlank(state)
    requires !IsBlank(country) && !IsBlank(countryCode)
    requires IsNullOrBlank(streetType) ==> streetType.None?
    requires IsNullOrBlank(number) ==> number.None?
    requires IsNullOrBlank(municipalityIbge) ==> municipalityIbge.None?
    requires IsNullOrBlank(stateIbge) ==> stateIbge.None?
    requires IsNullOrBlank(complement) ==> complement.None?
    ensures Valid(a)
  {
    TrimmedRequiredIsStored(street);
    TrimmedRequiredIsStored(district);
    TrimmedRequiredIsStored(city);
    TrimmedRequiredIsStored(state);
    TrimmedRequiredIsStored(country);
    TrimmedOptionalIsStored(streetType);
    TrimmedOptionalIsStored(number);
    TrimmedOptionalIsStored(municipalityIbge);
    TrimmedOptionalIsStored(stateIbge);
    TrimmedOptionalIsStored(complement);
    Address(
      Type := TrimNullable(streetType),
      Street := Trim(street),
      Number := TrimNullable(number),
      District := Trim(district),
      City := Trim(city),
      State := Trim(state),
      Country := Trim(country),
      CountryCode := NormalizeCountryCode(countryCode),
      ZipCode := CleanZipCode(zipCode),
      MunicipalityIbge := TrimNullable(municipalityIbge),
      StateIbge := TrimNullable(stateIbge),
      Complement := TrimNullable(complement))
  }

  /**
   * The constructor: blank optional inputs collapsed to absent, then
   * validation, then storing. Construction fails exactly when validation
   * does, with its error; an address it builds satisfies `Valid`.
   */
  function Create(
    street: Option<string>,
    district: Option<string>,
    city: Option<string>,
    state: Option<string>,
    country: Option<string>,
    countryCode: Option<string>,
    zipCode: Option<string>,
    streetType: Option<string>,
    number: Option<string>,
    municipalityIbge: Option<string>,
    stateIbge: Option<string>,
    complement: Option<string>): (r: Result<Address, InvalidAddress>)
    ensures var v := Validate(street, district, city, state, country, countryCode, zipCode);
      && (r.Failure? <==> v.Some?)
      && (r.Failure? ==> r.error == v.value)
    ensures r.Success? ==> Valid(r.value)
  {
    var streetType' := NullIfBlank(streetType);
    var number' := NullIfBlank(number);
    var municipalityIbge' := NullIfBlank(municipalityIbge);
    var stateIbge' := NullIfBlank(stateIbge);
    var complement' := NullIfBlank(complement);
    match Validate(street, district, city, state, country, countryCode, zipCode)
    case Some(error) => Failure(error)
    case None =>
      Success(Store(street.value, district.value, city.value, state.value, country.value, countryCode.value,
                    zipCode.value, streetType', number', municipalityIbge', stateIbge', complement'))
  }

  /**
   * A constructed address keeps each required input trimmed, the country
   * code normalised and the postal code cleaned.
   */
  lemma CreateStoresRequiredFields(
    street: Option<string>, district: Option<string>, city: Option<string>, state: Option<string>,
    country: Option<string>, countryCode: Option<string>, zipCode: Option<string>,
    streetType: Option<string>, number: Option<string>, municipalityIbge: Option<string>,
    stateIbge: Option<string>, complement: Option<string>)
    requires Create(street, district, city, state, country, countryCode, zipCode,
                    streetType, number, municipalityIbge, stateIbge, complement).Success?
    ensures var a := Create(street, district, city, state, country, countryCode, zipCode,
                            streetType, number, municipalityIbge, stateIbge, complement).value;
      && street.Some? && district.Some? && city.Some? && state.Some?
      && country.Some? && countryCode.Some? && zipCode.Some?
      && a.Street == Trim(street.value)
      && a.District == Trim(district.value)
      && a.City == Trim(city.value)
      && a.State == Trim(state.value)
      && a.Country == Trim(country.value)
      && a.CountryCode == NormalizeCountryCode(countryCode.value)
      && a.ZipCode == CleanZipCode(zipCode.value)
      && !IsBlank(zipCode.value)
  {
    var v := Validate(street, district, city, state, country, countryCode, zipCode);
    assert v.None?;
    assert !IsNullOrBlank(street) && !IsNullOrBlank(district) && !IsNullOrBlank(city) && !IsNullOrBlank(state);
    assert !IsNullOrBlank(country) && !IsNullOrBlank(countryCode) && !IsNullOrBlank(zipCode);
  }

  /**
   * A constructed address stores an optional input as absent when it is null
   * or blank, and trimmed otherwise.
   */
  lemma CreateStoresOptionalFields(
    street: Option<string>, district: Option<string>, city: Option<string>, state: Option<string>,
    country: Option<string>, countryCode: Option<string>, zipCode: Option<string>,
    streetType: Option<string>, number: Option<string>, municipalityIbge: Option<string>,
    stateIbge: Option<string>, complement: Option<string>)
    requires Create(street, district, city, state, country, countryCode, zipCode,
                    streetType, number, municipalityIbge, stateIbge, complement).Success?
    ensures var a := Create(street, district, city, state, country, countryCode, zipCode,
                            streetType, number, municipalityIbge, stateIbge, complement).value;
      && (a.Type.None? <==> IsNullOrBlank(streetType))
      && (a.Type.Some? ==> a.Type.value == Trim(streetType.value))
      && (a.Number.None? <==> IsNullOrBlank(number))
      && (a.Number.Some? ==> a.Number.value == Trim(number.value))
      && (a.Complement.None? <==> IsNullOrBlank(complement))
      && (a.Complement.Some? ==> a.Complement.value == Trim(complement.value))
      && (a.MunicipalityIbge.None? <==> IsNullOrBlank(municipalityIbge))
      && (a.MunicipalityIbge.Some? ==> a.MunicipalityIbge.value == Trim(municipalityIbge.value))
      && (a.StateIbge.None? <==> IsNullOrBlank(stateIbge))
      && (a.StateIbge.Some? ==> a.StateIbge.value == Trim(stateIbge.value))
  {
  }

  /** Trimming a non-blank required value leaves a non-empty trimmed value. */
  lemma TrimmedRequiredIsStored(s: string)
    requires !IsBlank(s)
    ensures IsStoredRequired(Trim(s))
  {
  }

  /** Trimming a non-blank optional value leaves a non-blank trimmed value. */
  lemma TrimmedOptionalIsStored(o: Option<string>)
    requires !IsNullOrBlank(o) || o.None?
    ensures IsStoredOptional(TrimNullable(o))
  {
    if o.Some? {
      var t := Trim(o.value);
      assert !IsWhite(t[0]);
    }
  }

  /** `StreetDisplay`: the formatter's street display over the stored type and street. */
  function StreetDisplay(a: Address): (r: string)
    ensures (r == a.Street) <==> IsNullOrBlank(a.Type)
    ensures |a.Street| <= |r| && r[|r| - |a.Street|..] == a.Street
  {
    FormatStreetDisplay(a.Type, a.Street)
  }

  /**
   * `FormatZipCode()`: the stored postal code in `NNNNN-NNN` form. Cleaning
   * the display gives back the cleaned stored code, and formatting it again
   * changes nothing.
   */
  function FormatZipCode(a: Address): (r: string)
    ensures CleanZipCode(r) == CleanZipCode(a.ZipCode)
    ensures FormatBrazilianZipCode(r) == r
  {
    FormatBrazilianZipCodeRoundTrip(a.ZipCode);
    FormatBrazilianZipCodeIdempotent(a.ZipCode);
    FormatBrazilianZipCode(a.ZipCode)
  }

  /** `FullAddress()`: the one-line address, which opens with the street display and closes with the formatted CEP. */
  function FullAddress(a: Address): (r: string)
    ensures StartsWith(r, StreetDisplay(a))
    ensures EndsWith(r, ", CEP: " + FormatZipCode(a))
  {
    var r := BuildFullAddress(a.Type, a.Street, a.Number, a.Complement, a.District, a.City, a.State, a.Country, a.ZipCode);
    FullAddressEnds(a, r);
    r
  }

  /** The opening and closing segments of the full address, stated on the formatter's result. */
  lemma FullAddressEnds(a: Address, r: string)
    requires r == BuildFullAddress(a.Type, a.Street, a.Number, a.Complement, a.District, a.City, a.State, a.Country, a.ZipCode)
    ensures StartsWith(r, StreetDisplay(a))
    ensures EndsWith(r, ", CEP: " + FormatZipCode(a))
  {
    var head := StreetDisplay(a);
    var n := NumberSegment(a.Number);
    var c := ComplementSegment(a.Complement);
    var x := ", " + a.District + ", " + a.City + " - " + a.State + ", " + a.Country;
    var f := FormatZipCode(a);
    assert r == head + n + c + (x + ", CEP: " + f);
    StartsWithAppend(head, n);
    StartsWithExtend(head + n, head, c);
    StartsWithExtend(head + n + c, head, x + ", CEP: " + f);
    EndsWithPair(x, ", CEP: ", f);
    EndsWithExtend(head + n + c, x + ", CEP: " + f, ", CEP: " + f);
  }

  /** `ToString()`: the full address. */
  function ToString(a: Address): (r: string)
    ensures r == FullAddress(a)
  {
    FullAddress(a)
  }

  /** On a constructed address the street display is the street alone exactly when there is no street type. */
  lemma StreetDisplayShape(a: Address)
    requires Valid(a)
    ensures a.Type.None? ==> StreetDisplay(a) == a.Street
    ensures a.Type.Some? ==> StreetDisplay(a) == a.Type.value + " " + a.Street
  {
  }

  /**
   * On a constructed address the stored postal code is clean, so
   * `FormatZipCode()` inserts the hyphen into an 8-character code and
   * returns any other code unchanged.
   */
  lemma FormatZipCodeShape(a: Address)
    requires Valid(a)
    ensures |a.ZipCode| == 8 ==> FormatZipCode(a) == a.ZipCode[..5] + "-" + a.ZipCode[5..]
    ensures |a.ZipCode| != 8 ==> FormatZipCode(a) == a.ZipCode
  {
    CleanZipCodeFixpoint(a.ZipCode);
    if IsBlank(a.ZipCode) {
      BlankTrimmedIsEmpty(a.ZipCode);
    }
  }

  /**
   * On a constructed address, presence alone decides the number and
   * complement parts of the full address: an absent number reads `S/N`, an
   * absent complement leaves no trace.
   */
  lemma FullAddressShape(a: Address)
    requires Valid(a)
    ensures FullAddress(a) ==
      StreetDisplay(a)
      + (if a.Number.Some? then ", " + a.Number.value else ", S/N")
      + (if a.Complement.Some? then " - " + a.Complement.value else "")
      + (", " + a.District + ", " + a.City + " - " + a.State + ", " + a.Country + ", CEP: " + FormatZipCode(a))
  {
  }

  /** `Equals(Address?)`: false against null, otherwise all twelve stored fields compared pairwise. */
  function Equals(a: Address, other: Option<Address>): (r: bool)
    ensures r <==> other == Some(a)
  {
    && other.Some?
    && a.Type == other.value.Type
    && a.Street == other.value.Street
    && a.Number == other.value.Number
    && a.District == other.value.District
    && a.Complement == other.value.Complement
    && a.City == other.value.City
    && a.State == other.value.State
    && a.Country == other.value.Country
    && a.CountryCode == other.value.CountryCode
    && a.ZipCode == other.value.ZipCode
    && a.MunicipalityIbge == other.value.MunicipalityIbge
    && a.StateIbge == other.value.StateIbge
  }

  /** `Equals` is reflexive and symmetric, and false against null. */
  lemma EqualsReflexiveSymmetric(a: Address, b: Address)
    ensures Equals(a, Some(a))
    ensures Equals(a, Some(b)) <==> Equals(b, Some(a))
    ensures !Equals(a, None)
  {
  }

  /** `operator ==`: two nulls are equal, a null and an address are not, two addresses are compared with `Equals`. */
  function OperatorEquals(left: Option<Address>, right: Option<Address>): (r: bool)
    ensures r <==> left == right
  {
    if left.None? && right.None? then true
    else if left.None? || right.None? then false
    else Equals(left.value, right)
  }

  /** `operator !=`: the negation of `==`. */
  function OperatorNotEquals(left: Option<Address>, right: Option<Address>): (r: bool)
    ensures r <==> left != right
  {
    !OperatorEquals(left, right)
  }

  /** A 32-bit signed hash code. */
  newtype int32 = x: int | -0x8000_0000 <= x < 0x8000_0000

  /** The values fed to the hash, in the order `GetHashCode` adds them. */
  function HashComponents(a: Address): (fs: seq<Option<string>>)
    ensures |fs| == 12
  {
    [a.Type, Some(a.Street), a.Number, Some(a.District), a.Complement, Some(a.City), Some(a.State),
     Some(a.Country), Some(a.CountryCode), Some(a.ZipCode), a.MunicipalityIbge, a.StateIbge]
  }

  /** Two addresses with the same hash components are the same address: the hash sees every field. */
  lemma HashComponentsInjective(a: Address, b: Address)
    requires HashComponents(a) == HashComponents(b)
    ensures a == b
  {
    assert HashComponents(a)[1] == HashComponents(b)[1];
    assert HashComponents(a)[3] == HashComponents(b)[3];
    assert HashComponents(a)[5] == HashComponents(b)[5];
    assert HashComponents(a)[6] == HashComponents(b)[6];
    assert HashComponents(a)[7] == HashComponents(b)[7];
    assert HashComponents(a)[8] == HashComponents(b)[8];
    assert HashComponents(a)[9] == HashComponents(b)[9];
  }

  /**
   * Feeds the values to the hash combiner one after another, as repeated
   * `HashCode.Add` calls do: the last value is added last, on top of the
   * state left by all the others.
   */
  function AddAll(state: int, add: (int, Option<string>) -> int, values: seq<Option<string>>): (r: int)
    ensures values == [] ==> r == state
    ensures values != [] ==> r == add(AddAll(state, add, values[..|values| - 1]), values[|values| - 1])
    decreases |values|
  {
    if values == [] then state
    else
      var rest := values[1..];
      assert rest != [] ==> values[..|values| - 1][1..] == rest[..|rest| - 1];
      AddAll(add(state, values[0]), add, rest)
  }

  /**
   * `GetHashCode()`: a fresh combiner state `seed`, the twelve fields added in
   * order with `add`, and `finish` for `ToHashCode()`. The combiner itself is
   * a parameter: its mixing is seeded per process.
   */
  function GetHashCode(a: Address, seed: int, add: (int, Option<string>) -> int, finish: int -> int32): (r: int32)
    ensures r == finish(
      add(add(add(add(add(add(add(add(add(add(add(add(seed,
        a.Type), Some(a.Street)), a.Number), Some(a.District)), a.Complement), Some(a.City)), Some(a.State)),
        Some(a.Country)), Some(a.CountryCode)), Some(a.ZipCode)), a.MunicipalityIbge), a.StateIbge))
  {
    AddAllFields(a, seed, add);
    finish(AddAll(seed, add, HashComponents(a)))
  }

  /** Adding one more value is one more `add` on top of the state reached so far. */
  lemma AddAllSnoc(state: int, add: (int, Option<string>) -> int, values: seq<Option<string>>, x: Option<string>)
    ensures AddAll(state, add, values + [x]) == add(AddAll(state, add, values), x)
  {
    assert (values + [x])[..|values|] == values;
  }

  /** The twelve `HashCode.Add` calls of `GetHashCode`, one field after another in declaration order. */
  lemma AddAllFields(a: Address, seed: int, add: (int, Option<string>) -> int)
    ensures AddAll(seed, add, HashComponents(a)) ==
      add(add(add(add(add(add(add(add(add(add(add(add(seed,
        a.Type), Some(a.Street)), a.Number), Some(a.District)), a.Complement), Some(a.City)), Some(a.State)),
        Some(a.Country)), Some(a.CountryCode)), Some(a.ZipCode)), a.MunicipalityIbge), a.StateIbge)
  {
    var p0: seq<Option<string>> := [];
    var p1 := p0 + [a.Type];
    var p2 := p1 + [Some(a.Street)];
    var p3 := p2 + [a.Number];
    var p4 := p3 + [Some(a.District)];
    var p5 := p4 + [a.Complement];
    var p6 := p5 + [Some(a.City)];
    var p7 := p6 + [Some(a.State)];
    var p8 := p7 + [Some(a.Country)];
    var p9 := p8 + [Some(a.CountryCode)];
    var p10 := p9 + [Some(a.ZipCode)];
    var p11 := p10 + [a.MunicipalityIbge];
    var p12 := p11 + [a.StateIbge];
    assert HashComponents(a) == p12;
    AddAllSnoc(seed, add, p0, a.Type);
    AddAllSnoc(seed, add, p1, Some(a.Street));
    AddAllSnoc(seed, add, p2, a.Number);
    AddAllSnoc(seed, add, p3, Some(a.District));
    AddAllSnoc(seed, add, p4, a.Complement);
    AddAllSnoc(seed, add, p5, Some(a.City));
    AddAllSnoc(seed, add, p6, Some(a.State));
    AddAllSnoc(seed, add, p7, Some(a.Country));
    AddAllSnoc(seed, add, p8, Some(a.CountryCode));
    AddAllSnoc(seed, add, p9, Some(a.ZipCode));
    AddAllSnoc(seed, add, p10, a.MunicipalityIbge);
    AddAllSnoc(seed, add, p11, a.StateIbge);
  }

  /** Equal addresses have equal hash codes, whatever the combiner. */
  lemma EqualsImpliesEqualHash(a: Address, b: Address, seed: int, add: (int, Option<string>) -> int, finish: int -> int32)
    requires Equals(a, Some(b))
    ensures GetHashCode(a, seed, add, finish) == GetHashCode(b, seed, add, finish)
  {
  }

  /** A blank optional input is indistinguishable from a null one: both are stored as absent. */
  lemma CreateBlankOptionalsAsNull(
    street: Option<string>, district: Option<string>, city: Option<string>, state: Option<string>,
    country: Option<string>, countryCode: Option<string>, zipCode: Option<string>,
    streetType: Option<string>, number: Option<string>, municipalityIbge: Option<string>,
    stateIbge: Option<string>, complement: Option<string>)
    ensures Create(street, district, city, state, country, countryCode, zipCode,
                   streetType, number, municipalityIbge, stateIbge, complement)
         == Create(street, district, city, state, country, countryCode, zipCode,
                   NullIfBlank(streetType), NullIfBlank(number), NullIfBlank(municipalityIbge),
                   NullIfBlank(stateIbge), NullIfBlank(complement))
  {
  }

  /** `Validate` looks only at whether the postal code is blank, never at its content. */
  lemma ValidateIgnoresZipContent(
    street: Option<string>, district: Option<string>, city: Option<string>, state: Option<string>,
    country: Option<string>, countryCode: Option<string>, zip1: string, zip2: string)
    requires !IsBlank(zip1) && !IsBlank(zip2)
    ensures Validate(street, district, city, state, country, countryCode, Some(zip1))
         == Validate(street, district, city, state, country, countryCode, Some(zip2))
  {
    assert !IsNullOrBlank(Some(zip1)) && !IsNullOrBlank(Some(zip2));
  }

  /** `Store` sees the postal code only through `CleanZipCode`. */
  lemma StoreSeesCleanZipOnly(
    street: string, district: string, city: string, state: string, country: string, countryCode: string,
    zip1: string, zip2: string,
    streetType: Option<string>, number: Option<string>, municipalityIbge: Option<string>,
    stateIbge: Option<string>, complement: Option<string>)
    requires !IsBlank(street) && !IsBlank(district) && !IsBlank(city) && !IsBlank(state)
    requires !IsBlank(country) && !IsBlank(countryCode)
    requires IsNullOrBlank(streetType) ==> streetType.None?
    requires IsNullOrBlank(number) ==> number.None?
    requires IsNullOrBlank(municipalityIbge) ==> municipalityIbge.None?
    requires IsNullOrBlank(stateIbge) ==> stateIbge.None?
    requires IsNullOrBlank(complement) ==> complement.None?
    requires CleanZipCode(zip1) == CleanZipCode(zip2)
    ensures Store(street, district, city, state, country, countryCode, zip1,
                  streetType, number, municipalityIbge, stateIbge, complement)
         == Store(street, district, city, state, country, countryCode, zip2,
                  streetType, number, municipalityIbge, stateIbge, complement)
  {
  }

  /**
   * Two postal-code inputs that clean to the same value build the same
   * address (or fail with the same error).
   */
  lemma CreateZipCodeFormattingIrrelevant(
    street: Option<string>, district: Option<string>, city: Option<string>, state: Option<string>,
    country: Option<string>, countryCode: Option<string>, zip1: string, zip2: string,
    streetType: Option<string>, number: Option<string>, municipalityIbge: Option<string>,
    stateIbge: Option<string>, complement: Option<string>)
    requires !IsBlank(zip1) && !IsBlank(zip2) && CleanZipCode(zip1) == CleanZipCode(zip2)
    ensures Create(street, district, city, state, country, countryCode, Some(zip1),
                   streetType, number, municipalityIbge, stateIbge, complement)
         == Create(street, district, city, state, country, countryCode, Some(zip2),
                   streetType, number, municipalityIbge, stateIbge, complement)
  {
    ValidateIgnoresZipContent(street, district, city, state, country, countryCode, zip1, zip2);
    var v := Validate(street, district, city, state, country, countryCode, Some(zip1));
    if v.None? {
      assert !IsNullOrBlank(street) && !IsNullOrBlank(district) && !IsNullOrBlank(city);
      assert !IsNullOrBlank(state) && !IsNullOrBlank(country) && !IsNullOrBlank(countryCode);
      StoreSeesCleanZipOnly(street.value, district.value, city.value, state.value, country.value, countryCode.value,
                            zip1, zip2, NullIfBlank(streetType), NullIfBlank(number), NullIfBlank(municipalityIbge),
                            NullIfBlank(stateIbge), NullIfBlank(complement));
    }
  }

  /**
   * `FormatZipCode()` of a constructed address is the formatter's display of
   * the raw postal-code input: cleaning on construction loses nothing the
   * display needs.
   */
  lemma CreateFormatZipCode(
    street: Option<string>, district: Option<string>, city: Option<string>, state: Option<string>,
    country: Option<string>, countryCode: Option<string>, zipCode: Option<string>,
    streetType: Option<string>, number: Option<string>, municipalityIbge: Option<string>,
    stateIbge: Option<string>, complement: Option<string>)
    requires Create(street, district, city, state, country, countryCode, zipCode,
                    streetType, number, municipalityIbge, stateIbge, complement).Success?
    ensures zipCode.Some?
    ensures FormatZipCode(Create(street, district, city, state, country, countryCode, zipCode,
                                 streetType, number, municipalityIbge, stateIbge, complement).value)
         == FormatBrazilianZipCode(zipCode.value)
  {
    CreateStoresRequiredFields(street, district, city, state, country, countryCode, zipCode,
                               streetType, number, municipalityIbge, stateIbge, complement);
    var a := Create(street, district, city, state, country, countryCode, zipCode,
                    streetType, number, municipalityIbge, stateIbge, complement).value;
    FormatBrazilianZipCodeOfClean(zipCode.value);
    assert FormatZipCode(a) == FormatBrazilianZipCode(CleanZipCode(zipCode.value));
  }
}
