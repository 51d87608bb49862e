# Tssas.Addresses — a verified model of the Brazilian postal-address value object

The library holds one immutable value object, `Address`, and a static helper
class, `AddressFormatter`.

`Address` has twelve fields. Its constructor works in three steps:

1. It collapses blank optional inputs (type, number, IBGE codes, complement) to null.
2. It checks the seven required inputs in a fixed order (street, district, city,
   state, country, country code, postal code). It rejects the first that is null or
   white space, with a fixed message and the parameter's name.
3. It stores trimmed values. The country code is upper-cased and the postal code
   (CEP) is stripped of `-`, `.` and spaces.

After construction the value only answers questions: the street display, the
formatted CEP, the one-line full address, structural equality and a hash.

The model is written in Dafny and has these modules:

- `Wrappers` — `Option` (C# nullable strings) and `Result` (the constructor's
  outcome).
- `Text` — the .NET string primitives the code relies on:
  - `string.IsNullOrWhiteSpace` (`IsBlank`, `IsNullOrBlank`), over exactly the
    characters `char.IsWhiteSpace` accepts;
  - `Trim`, defined through its two halves `TrimStart` and `TrimEnd` (the source
    itself calls only `Trim`);
  - `string.Replace(x, "")` (`Remove`);
  - `ToUpperInvariant`;
  - `StartsWith` and `EndsWith`, predicates of the model's own (not calls the
    source makes), used to state how the full address opens and closes.
- `AddressFormatter` — the five formatter functions, as pure functions.
- `AddressValue` — the `Address` datatype and the error `InvalidAddress(message, propertyName)`:
  - the constructor, written as the factory function `Create`. `Create` returns
    `Result<Address, InvalidAddress>` and is split into its three steps: `NullIfBlank`,
    `Validate` and `Store`;
  - the display members;
  - `Equals`, `==`, `!=`, and `GetHashCode` over an abstract combiner.
- `AddressExamples` — the scenarios of the library's unit tests, proved for their
  concrete inputs.

No source member has a loop or updates an object after construction, so the model
has no methods and no classes. `BuildFullAddress` appends to a local string step by
step; its model is one concatenation of the same segments in the same order.

A postal code made only of separators (for example `"--."`) passes validation,
because validation rejects only null and white space, and is then stored as `""`.
The invariant `AddressValue.Valid` therefore requires the stored postal code to be
clean, not non-empty.

## Model

| member | source | states |
|---|---|---|
| Text.IsWhite | Tssas.Addresses/Formatting/AddressFormatter.cs:15 | `char.IsWhiteSpace`: the Unicode White_Space characters; `AsciiWhiteSpace` states that among ASCII characters these are exactly the space and tab through carriage return. |
| Text.AsciiWhiteSpace | Tssas.Addresses/Formatting/AddressFormatter.cs:15 | An ASCII character is white space exactly when it is the space or a control from tab to carriage return. |
| Text.IsBlank | Tssas.Addresses/Formatting/AddressFormatter.cs:15 | `string.IsNullOrWhiteSpace` on a non-null string: every character is white space. `Trim` is empty exactly on these strings. |
| Text.IsNullOrBlank | Tssas.Addresses/ValueObject/Address.cs:102-121 | `string.IsNullOrWhiteSpace` on a nullable string: null, or blank. `NullIfBlank` and `Validate` state how construction uses it. |
| Text.TrimStart | Tssas.Addresses/Formatting/AddressFormatter.cs:36 | The result is a suffix of the input, only white space was removed, and it does not start with white space. |
| Text.TrimEnd | Tssas.Addresses/Formatting/AddressFormatter.cs:36 | The result is a prefix of the input, only white space was removed, and it does not end with white space. |
| Text.Trim | Tssas.Addresses/Formatting/AddressFormatter.cs:36 | The result has white space at neither end, and it is empty exactly when the input is all white space. |
| Text.TrimKeepsCharacters | Tssas.Addresses/Formatting/AddressFormatter.cs:36 | Every character of a trimmed string occurs in the original. |
| Text.TrimPadded | Tssas.Addresses/ValueObject/Address.cs:125-136 | Trimming white-space padding on both sides of a trimmed string gives that string back. |
| Text.TrimStartPadded | Tssas.Addresses/ValueObject/Address.cs:125-136 | Leading white space does not change the result of `TrimStart`. |
| Text.TrimEndPadded | Tssas.Addresses/ValueObject/Address.cs:125-136 | `TrimEnd` removes exactly the trailing white space after a string that does not end in white space. |
| Text.BlankTrimmedIsEmpty | Tssas.Addresses/Formatting/AddressFormatter.cs:36 | A blank string with white space at neither end is empty. |
| Text.TrimTrimmed | Tssas.Addresses/Formatting/AddressFormatter.cs:36 | `Trim` leaves a string with no white space at its ends unchanged. |
| Text.TrimIdempotent | Tssas.Addresses/Formatting/AddressFormatter.cs:36 | Trimming twice is trimming once. |
| Text.Remove | Tssas.Addresses/Formatting/AddressFormatter.cs:36 | `Replace(c, "")`: the result holds exactly the characters of the input other than `c`, and it is unchanged when `c` does not occur. |
| Text.RemoveAppend | Tssas.Addresses/Formatting/AddressFormatter.cs:36 | Removing a character distributes over concatenation. |
| Text.ToUpperChar | Tssas.Addresses/Formatting/AddressFormatter.cs:102 | A lower-case ASCII letter becomes its own capital (same offset from `A` as from `a`), every other character is unchanged, the result is never lower case, and white space is preserved. |
| Text.ToUpperInvariant | Tssas.Addresses/Formatting/AddressFormatter.cs:102 | Same length as the input, and each character is upper-cased in place. |
| Text.ToUpperInvariantFacts | Tssas.Addresses/Formatting/AddressFormatter.cs:102 | The upper-cased string is upper case, is unchanged when already upper case, is blank exactly when the input is, and is trimmed exactly when the input is. |
| Text.ToUpperInvariantKeepsWhite | Tssas.Addresses/Formatting/AddressFormatter.cs:102 | Each position of the upper-cased string holds white space exactly when the same position of the input does. |
| AddressFormatter.CleanZipCode | Tssas.Addresses/Formatting/AddressFormatter.cs:31-37 | A blank input gives `""`. Any result has no `-`, `.` or space and no white space at either end. |
| AddressFormatter.CleanZipCodeKeepsCharacters | Tssas.Addresses/Formatting/AddressFormatter.cs:36 | Every character of the result occurs in the input (a membership fact; order is fixed by `CleanZipCodeIgnoresSeparator` and `CleanZipCodeOfSeparatorFree`). |
| AddressFormatter.StripSeparators | Tssas.Addresses/Formatting/AddressFormatter.cs:36 | The three `Replace` calls: the result holds no `-`, `.` or space, every character in it comes from the input, and an input without separators is returned unchanged. With `StripSeparatorsAppend` and `StripSeparatorOfSeparator` this fixes its value on every input. |
| AddressFormatter.StripSeparatorOfSeparator | Tssas.Addresses/Formatting/AddressFormatter.cs:36 | A lone `-`, `.` or space is stripped to the empty string. |
| AddressFormatter.StripSeparatorsAppend | Tssas.Addresses/Formatting/AddressFormatter.cs:36 | Removing `-`, `.` and spaces distributes over concatenation. |
| AddressFormatter.StripSeparatorsDropsSeparator | Tssas.Addresses/Formatting/AddressFormatter.cs:36 | A separator between two strings is removed and nothing else changes. |
| AddressFormatter.CleanZipCodeIsTrimOfStripped | Tssas.Addresses/Formatting/AddressFormatter.cs:31-37 | For every input, blank ones included, the cleaned code is the input without `-`, `.` and spaces, then trimmed. |
| AddressFormatter.CleanZipCodeIgnoresSeparator | Tssas.Addresses/Formatting/AddressFormatter.cs:36 | Inserting a `-`, `.` or space anywhere in the input does not change the cleaned code. |
| AddressFormatter.CleanZipCodeOfSeparatorFree | Tssas.Addresses/Formatting/AddressFormatter.cs:31-37 | An input without `-`, `.` or spaces is only trimmed; with `CleanZipCodeIgnoresSeparator` this fixes the cleaned code of every input. |
| AddressFormatter.CleanZipCodeFixpoint | Tssas.Addresses/Formatting/AddressFormatter.cs:33-36 | A code that is already clean is returned unchanged. |
| AddressFormatter.CleanZipCodeIdempotent | Tssas.Addresses/Formatting/AddressFormatter.cs:33-36 | Cleaning twice is cleaning once. |
| AddressFormatter.FormatBrazilianZipCode | Tssas.Addresses/Formatting/AddressFormatter.cs:13-24 | A blank input is returned unchanged. A cleaned value of length 8 is returned as 9 characters with `-` at index 5 and the cleaned value around it. Any other cleaned value is returned as is, without a hyphen. |
| AddressFormatter.HyphenSplits | Tssas.Addresses/Formatting/AddressFormatter.cs:20-21 | `c[0..5] + "-" + c[5..8]` has 9 characters, `-` at index 5, and the original 8 around it. |
| AddressFormatter.FormatCleanZipCode | Tssas.Addresses/Formatting/AddressFormatter.cs:18-21 | A clean 8-character code `c` is displayed as `c[..5] + "-" + c[5..]`. |
| AddressFormatter.RemoveInsertedHyphen | Tssas.Addresses/Formatting/AddressFormatter.cs:21 | Removing the inserted hyphen from `c[..5] + "-" + c[5..]` gives back a hyphen-free `c`. |
| AddressFormatter.FormatBrazilianZipCodeRoundTrip | Tssas.Addresses/Formatting/AddressFormatter.cs:13-37 | For every input, cleaning a formatted code gives the same value as cleaning the raw input. |
| AddressFormatter.HyphenatedRoundTrip | Tssas.Addresses/Formatting/AddressFormatter.cs:13-37 | When the cleaned value has 8 characters, cleaning the hyphenated display gives it back. |
| AddressFormatter.FormatBrazilianZipCodeOfClean | Tssas.Addresses/Formatting/AddressFormatter.cs:13-37 | Formatting the cleaned code gives the same display as formatting the raw, non-blank input. |
| AddressFormatter.FormatBrazilianZipCodeIdempotent | Tssas.Addresses/Formatting/AddressFormatter.cs:13-24 | Formatting a formatted code changes nothing. |
| AddressFormatter.FormatStreetDisplay | Tssas.Addresses/Formatting/AddressFormatter.cs:45-51 | The result is the street alone exactly when the type is null or blank. Otherwise it is the type, a space, then the street. |
| AddressFormatter.NumberSegment | Tssas.Addresses/Formatting/AddressFormatter.cs:79-82 | `", " + number` when the number is filled in, `", S/N"` when it is null or blank. |
| AddressFormatter.ComplementSegment | Tssas.Addresses/Formatting/AddressFormatter.cs:84-85 | The complement segment is empty exactly when the complement is null or blank. |
| AddressFormatter.BuildFullAddress | Tssas.Addresses/Formatting/AddressFormatter.cs:66-90 | The full address is, in order: the street display; `", " + number` or `", S/N"`; `" - " + complement` or nothing; then `", district, city - state, country, CEP: "` followed by the formatted CEP. |
| AddressFormatter.NormalizeCountryCode | Tssas.Addresses/Formatting/AddressFormatter.cs:97-103 | The result is `""` exactly when the input is blank; otherwise it is the upper-cased input with surrounding white space trimmed. Any result is upper case with white space at neither end. |
| AddressFormatter.NormalizeCountryCodeIdempotent | Tssas.Addresses/Formatting/AddressFormatter.cs:97-103 | Normalising twice is normalising once. |
| AddressValue.NullIfBlank | Tssas.Addresses/ValueObject/Address.cs:102-106 | An optional input becomes absent exactly when it is null or blank, and is otherwise kept as given. |
| AddressValue.TrimNullable | Tssas.Addresses/ValueObject/Address.cs:125 | `x?.Trim()`: absent stays absent, and a present value is trimmed. |
| AddressValue.Validate | Tssas.Addresses/ValueObject/Address.cs:109-122 | No error exactly when all seven required inputs are filled in. If the i-th is the first null or blank one, the error is the i-th message with the i-th parameter name. |
| AddressValue.Store | Tssas.Addresses/ValueObject/Address.cs:124-136 | Storing filled-in inputs produces an address satisfying `Valid`: required fields non-empty and trimmed, optional fields absent or non-blank and trimmed, country code upper case, postal code clean. |
| AddressValue.Create | Tssas.Addresses/ValueObject/Address.cs:87-137 | Construction fails exactly when validation reports an error, and with that error. A constructed address satisfies `Valid`. |
| AddressValue.CreateStoresRequiredFields | Tssas.Addresses/ValueObject/Address.cs:126-133 | After success, each required text field equals its trimmed input, the country code is `NormalizeCountryCode` of its input, the postal code is `CleanZipCode` of its non-blank input. |
| AddressValue.CreateStoresOptionalFields | Tssas.Addresses/ValueObject/Address.cs:102-106 | After success, each optional field is absent exactly when its input was null or blank, and otherwise equals the trimmed input. |
| AddressValue.TrimmedRequiredIsStored | Tssas.Addresses/ValueObject/Address.cs:126-131 | A trimmed non-blank input is non-empty and has white space at neither end. |
| AddressValue.TrimmedOptionalIsStored | Tssas.Addresses/ValueObject/Address.cs:125-136 | A trimmed present input that was not blank stays non-blank, and `x?.Trim()` of it is a valid optional field. |
| AddressValue.CreateBlankOptionalsAsNull | Tssas.Addresses/ValueObject/Address.cs:102-106 | Construction gives the same result whether a blank optional input is passed as is or as null. |
| AddressValue.ValidateIgnoresZipContent | Tssas.Addresses/ValueObject/Address.cs:121-122 | Validation looks only at whether the postal code is blank. |
| AddressValue.StoreSeesCleanZipOnly | Tssas.Addresses/ValueObject/Address.cs:133 | Two postal codes that clean to the same value are stored identically. |
| AddressValue.CreateZipCodeFormattingIrrelevant | Tssas.Addresses/ValueObject/Address.cs:121-133 | Two non-blank postal-code inputs that clean to the same value give the same construction result. |
| AddressValue.CreateFormatZipCode | Tssas.Addresses/ValueObject/Address.cs:148-151 | `FormatZipCode()` of a constructed address equals the formatter's display of the raw postal-code input. |
| AddressValue.StreetDisplay | Tssas.Addresses/ValueObject/Address.cs:142 | The display ends with the stored street, and is the street alone exactly when the stored type is null or blank. |
| AddressValue.FormatZipCode | Tssas.Addresses/ValueObject/Address.cs:148-151 | Cleaning the display gives back the cleaned stored code, and formatting the display again changes nothing. |
| AddressValue.FullAddress | Tssas.Addresses/ValueObject/Address.cs:157-161 | The full address starts with `StreetDisplay` and ends with `", CEP: "` followed by `FormatZipCode()`. |
| AddressValue.FullAddressEnds | Tssas.Addresses/Formatting/AddressFormatter.cs:77-87 | The formatter's full address opens with the street display and closes with `", CEP: "` and the formatted CEP. |
| AddressValue.StreetDisplayShape | Tssas.Addresses/ValueObject/Address.cs:142 | On a constructed address the street display is the street when there is no type, and `type + " " + street` otherwise. |
| AddressValue.FormatZipCodeShape | Tssas.Addresses/ValueObject/Address.cs:148-151 | On a constructed address an 8-character stored code is shown with a hyphen after the fifth character, and any other is shown as stored. |
| AddressValue.FullAddressShape | Tssas.Addresses/ValueObject/Address.cs:157-161 | On a constructed address the number segment is `S/N` exactly when there is no number, and the complement segment is present exactly when there is a complement. |
| AddressValue.ToString | Tssas.Addresses/ValueObject/Address.cs:245-248 | `ToString()` is `FullAddress()`. |
| AddressValue.Equals | Tssas.Addresses/ValueObject/Address.cs:168-185 | True exactly when the other address is present and equal in all twelve fields. |
| AddressValue.EqualsReflexiveSymmetric | Tssas.Addresses/ValueObject/Address.cs:168-185 | `Equals` is reflexive and symmetric, and false against null. |
| AddressValue.OperatorEquals | Tssas.Addresses/ValueObject/Address.cs:225-228 | `==` holds exactly when both sides are null or both are equal addresses. |
| AddressValue.OperatorNotEquals | Tssas.Addresses/ValueObject/Address.cs:236-239 | `!=` is the negation of `==`. |
| AddressValue.HashComponents | Tssas.Addresses/ValueObject/Address.cs:203-215 | The hash is fed twelve values. |
| AddressValue.HashComponentsInjective | Tssas.Addresses/ValueObject/Address.cs:203-215 | The twelve hashed values determine the address, so the hash sees every field. |
| AddressValue.AddAll | Tssas.Addresses/ValueObject/Address.cs:203-215 | Feeding no value leaves the state; feeding a sequence is feeding all but the last, then adding the last on top. |
| AddressValue.AddAllSnoc | Tssas.Addresses/ValueObject/Address.cs:203-215 | One more `Add` is one more application of the combiner to the state reached so far. |
| AddressValue.AddAllFields | Tssas.Addresses/ValueObject/Address.cs:203-215 | Feeding the hash components is the twelve `Add` calls on the fields, in declaration order. |
| AddressValue.GetHashCode | Tssas.Addresses/ValueObject/Address.cs:201-217 | The hash code is `ToHashCode()` of a fresh state with `Type`, `Street`, `Number`, `District`, `Complement`, `City`, `State`, `Country`, `CountryCode`, `ZipCode`, `MunicipalityIbge`, `StateIbge` added in that order. |
| AddressValue.EqualsImpliesEqualHash | Tssas.Addresses/ValueObject/Address.cs:201-217 | Equal addresses have equal hash codes, whatever the combiner. |
| AddressExamples.CleanZipCodeExample | Tsaas.Addresses.Tests/AddressValidationTests.cs:299-314 | `CleanZipCode("01310-100")` is `"01310100"`. |
| AddressExamples.FormatBrazilianZipCodeExample | Tsaas.Addresses.Tests/AddressValidationTests.cs:317-335 | `FormatBrazilianZipCode("01310100")` is `"01310-100"`. |
| AddressExamples.NormalizeCountryCodeExample | Tssas.Addresses/Formatting/AddressFormatter.cs:97-103 | `NormalizeCountryCode("  br  ")` is `"BR"`. |
| AddressExamples.CreateCountryCodeExample | Tsaas.Addresses.Tests/AddressValidationTests.cs:280-296 | The test's address with country code `"br"` is accepted and stored with country code `"BR"`. |
| AddressExamples.CreateBlankStreetExample | Tsaas.Addresses.Tests/AddressValidationTests.cs:68-88 | A null, empty or two-space street fails with `"Street cannot be empty."` for `street`. |
| AddressExamples.CreateAllFieldsExample | Tsaas.Addresses.Tests/AddressValidationTests.cs:34-66 | The complete test address is stored field by field as given, with the postal code `"01310100"`. |
| AddressExamples.CreateZipCodeExample | Tsaas.Addresses.Tests/AddressValidationTests.cs:299-335 | `"01310-100"` and `"01310100"` build the same address, stored as `"01310100"` and displayed as `"01310-100"`. |
| AddressExamples.FullAddressExample | Tsaas.Addresses.Tests/AddressValidationTests.cs:381-402 | The full address of any address holding the test's displayed fields is `"Rua Flores, 123 - Apto 45, Centro, São Paulo - SP, Brasil, CEP: 01310-100"`. |
| AddressExamples.FullAddressWithoutNumberExample | Tsaas.Addresses.Tests/AddressValidationTests.cs:405-425 | Without a number the full address reads `"Rua Flores, S/N, Centro, São Paulo - SP, Brasil, CEP: 01310-100"`. |
| AddressExamples.CreateFullAddressExample | Tsaas.Addresses.Tests/AddressValidationTests.cs:381-402 | The constructor accepts the test's inputs, and the full address of the result is the string asserted at line 401. |
| AddressExamples.CreateFullAddressWithoutNumberExample | Tsaas.Addresses.Tests/AddressValidationTests.cs:405-425 | The constructor accepts the test's inputs without number or complement, and the full address of the result is the string asserted at line 424. |
| AddressExamples.StreetDisplayExample | Tssas.Addresses/Formatting/AddressFormatter.cs:45-51 | `FormatStreetDisplay` gives `"Rua Flores"` for type `"Rua"` and street `"Flores"`, and `"Flores"` without a type. |
| AddressExamples.CreateStreetDisplayExample | Tsaas.Addresses.Tests/AddressValidationTests.cs:337-357 | The constructor accepts the test's inputs with type `"Rua"`, and the street display of the result is `"Rua Flores"`. |
| AddressExamples.CreateStreetDisplayWithoutTypeExample | Tsaas.Addresses.Tests/AddressValidationTests.cs:359-378 | The constructor accepts the test's inputs without a type, and the street display of the result is `"Flores"`. |

## Left out

- `System.HashCode` mixing (`Address.cs:203-216`) is seeded per process and not
  visible. `GetHashCode` takes the combiner as parameters: a start state, an add
  step and a finishing step. What is proved is the order of the twelve `Add`
  calls and that equal addresses hash equally; nothing about collisions.
- Culture and Unicode: `ToUpperInvariant` is modelled for ASCII letters only;
  other letters are left unchanged.
- The length test `cleanZipCode.Length == 8` counts UTF-16 code units. The model
  counts Unicode scalar values, which agree for every character in the Basic
  Multilingual Plane.
- The formatter's non-nullable parameters (`zipCode`, `street`, `countryCode`,
  `district`, …) are modelled as always present. Passing null to them, against
  their annotations, is not modelled. The constructor's required inputs are
  nullable in the model, because the tests pass null to them.
- `Equals` skips the reference-equality short-circuit (`Address.cs:171`) and the
  type test of `Equals(object)` (`Address.cs:192-195`): Dafny values have no
  identity, and the field comparison gives the same answer.
- The exception machinery of `InvalidAddressException` is not modelled: the
  `Exception` base class, the message-only and inner-exception constructors, and
  the throwing itself. The error is the `Failure` value carrying the
  (message, property name) pair of `InvalidAddressException.cs:35-39`.
- AddressValue.FullAddress: its own contract states only how the full address
  opens and closes. The segments in between are stated by
  `AddressFormatter.BuildFullAddress` and, on constructed addresses, by
  `AddressValue.FullAddressShape`.
- The library does no I/O, keeps no clock and draws no random numbers. The hash
  seed is the only hidden input, and it is a parameter.
