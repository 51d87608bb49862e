/**
 * The stateless formatting helpers of the address library: cleaning and
 * formatting a Brazilian postal code (CEP), composing the street display and
 * the full one-line address, and normalising a country code.
 */
module AddressFormatter {
  import opened Wrappers
  import opened Text

  /** The characters `CleanZipCode` strips out of a postal code. */
  predicate IsZipSeparator(c: char) {
    c == '-' || c == '.' || c == ' '
  }

  /** What `CleanZipCode` produces: no separator anywhere and no white space at either end. */
  predicate IsCleanZip(z: string) {
    && (forall i :: 0 <= i < |z| ==> !IsZipSeparator(z[i]))
    && IsTrimmed(z)
  }

  /** `Replace("-", "").Replace(".", "").Replace(" ", "")`: the input without its separators. */
  function StripSeparators(s: string): (r: string)
    ensures forall i :: 0 <= i < |r| ==> !IsZipSeparator(r[i]) && r[i] in s
    ensures (forall i :: 0 <= i < |s| ==> !IsZipSeparator(s[i])) ==> r == s
  {
    var r := Remove(Remove(Remove(s, '-'), '.'), ' ');
    assert forall i :: 0 <= i < |r| ==> r[i] in r;
    assert (forall i :: 0 <= i < |s| ==> !IsZipSeparator(s[i])) ==> '-' !in s && '.' !in s && ' ' !in s;
    r
  }

  /** Stripping separators distributes over concatenation. */
  lemma StripSeparatorsAppend(a: string, b: string)
    ensures StripSeparators(a + b) == StripSeparators(a) + StripSeparators(b)
  {
    RemoveAppend(a, b, '-');
    RemoveAppend(Remove(a, '-'), Remove(b, '-'), '.');
    RemoveAppend(Remove(Remove(a, '-'), '.'), Remove(Remove(b, '-'), '.'), ' ');
  }

  /**
   * Removes hyphens, dots and spaces, then trims. A blank input gives the
   * empty string. Every character of the result comes from the input.
   */
  function CleanZipCode(zipCode: string): (r: string)
    ensures IsBlank(zipCode) ==> r == ""
    ensures IsCleanZip(r)
  {
    if IsBlank(zipCode) then ""
    else
      var stripped := StripSeparators(zipCode);
      var r := Trim(stripped);
      TrimKeepsCharacters(stripped);
      assert forall i :: 0 <= i < |r| ==> r[i] in stripped;
      r
  }

  /** On every input, blank or not, cleaning is trimming the input stripped of its separators. */
  lemma CleanZipCodeIsTrimOfStripped(zipCode: string)
    ensures CleanZipCode(zipCode) == Trim(StripSeparators(zipCode))
  {
    if IsBlank(zipCode) {
      var stripped := StripSeparators(zipCode);
      assert IsBlank(stripped) by {
        forall i | 0 <= i < |stripped| ensures IsWhite(stripped[i]) {
          assert stripped[i] in zipCode;
        }
      }
    }
  }

  /** A separator anywhere in the input makes no difference to the cleaned value. */
  lemma CleanZipCodeIgnoresSeparator(p: string, q: string, c: char)
    requires IsZipSeparator(c)
    ensures CleanZipCode(p + [c] + q) == CleanZipCode(p + q)
  {
    StripSeparatorsDropsSeparator(p, q, c);
    CleanZipCodeIsTrimOfStripped(p + [c] + q);
    CleanZipCodeIsTrimOfStripped(p + q);
  }

  lemma StripSeparatorsDropsSeparator(p: string, q: string, c: char)
    requires IsZipSeparator(c)
    ensures StripSeparators(p + [c] + q) == StripSeparators(p + q)
  {
    calc {
      StripSeparators(p + [c] + q);
      { StripSeparatorsAppend(p + [c], q); }
      StripSeparators(p + [c]) + StripSeparators(q);
      { StripSeparatorsAppend(p, [c]); }
      StripSeparators(p) + StripSeparators([c]) + StripSeparators(q);
      { StripSeparatorOfSeparator(c); assert StripSeparators(p) + [] == StripSeparators(p); }
      StripSeparators(p) + StripSeparators(q);
      { StripSeparatorsAppend(p, q); }
      StripSeparators(p + q);
    }
  }

  lemma StripSeparatorOfSeparator(c: char)
    requires IsZipSeparator(c)
    ensures StripSeparators([c]) == []
  {
    var s1 := Remove([c], '-');
    assert s1 == (if c == '-' then [] else [c]) by { assert [c][1..] == []; }
    var s2 := Remove(s1, '.');
    assert s2 == (if c == '-' || c == '.' then [] else [c]) by { assert [c][1..] == []; }
    assert Remove(s2, ' ') == [] by { assert [c][1..] == []; }
  }

  /** An input with no separator in it is only trimmed. */
  lemma CleanZipCodeOfSeparatorFree(z: string)
    requires forall i :: 0 <= i < |z| ==> !IsZipSeparator(z[i])
    ensures CleanZipCode(z) == Trim(z)
  {
    assert '-' !in z && '.' !in z && ' ' !in z by {
      forall i | 0 <= i < |z| ensures !IsZipSeparator(z[i]) {
      }
    }
    CleanZipCodeIsTrimOfStripped(z);
  }

  /** Every character of a cleaned postal code comes from the raw input. */
  lemma CleanZipCodeKeepsCharacters(zipCode: string)
    ensures forall x :: x in CleanZipCode(zipCode) ==> x in zipCode
  {
    if !IsBlank(zipCode) {
      TrimKeepsCharacters(StripSeparators(zipCode));
    }
  }

  /** A postal code that is already clean is a fixed point of `CleanZipCode`. */
  lemma CleanZipCodeFixpoint(z: string)
    requires IsCleanZip(z)
    ensures CleanZipCode(z) == z
  {
    CleanZipCodeOfSeparatorFree(z);
    TrimTrimmed(z);
  }

  /** Cleaning is idempotent. */
  lemma CleanZipCodeIdempotent(z: string)
    ensures CleanZipCode(CleanZipCode(z)) == CleanZipCode(z)
  {
    CleanZipCodeFixpoint(CleanZipCode(z));
  }

  /**
   * Formats a CEP as `NNNNN-NNN`. A blank input is returned unchanged; a
   * cleaned value of exactly 8 characters gets a hyphen after the fifth one,
   * and deleting that hyphen gives back the cleaned value; any other cleaned
   * value is returned as it is, with no hyphen in it.
   */
  function FormatBrazilianZipCode(zipCode: string): (r: string)
    ensures IsBlank(zipCode) ==> r == zipCode
    ensures !IsBlank(zipCode) && |CleanZipCode(zipCode)| == 8 ==>
      |r| == 9 && r[5] == '-' && r[..5] + r[6..] == CleanZipCode(zipCode)
    ensures !IsBlank(zipCode) && |CleanZipCode(zipCode)| != 8 ==>
      r == CleanZipCode(zipCode) && '-' !in r
  {
    if IsBlank(zipCode) then zipCode
    else
      var cleanZipCode := CleanZipCode(zipCode);
      if |cleanZipCode| == 8 then
        HyphenSplits(cleanZipCode);
        cleanZipCode[0..5] + "-" + cleanZipCode[5..8]
      else
        cleanZipCode
  }

  /** The hyphen goes in at index 5, and the characters around it are the original eight. */
  lemma HyphenSplits(c: string)
    requires |c| == 8
    ensures var f := c[0..5] + "-" + c[5..8];
      |f| == 9 && f[5] == '-' && f[..5] + f[6..] == c
  {
    var f := c[0..5] + "-" + c[5..8];
    assert f[..5] == c[..5];
    assert f[6..] == c[5..];
    assert c[..5] + c[5..] == c;
  }

  /** A clean eight-character postal code is displayed with a hyphen after its fifth character. */
  lemma FormatCleanZipCode(z: string)
    requires IsCleanZip(z) && |z| == 8
    ensures FormatBrazilianZipCode(z) == z[..5] + "-" + z[5..]
  {
    CleanZipCodeFixpoint(z);
    assert !IsWhite(z[0]);
  }

  /** Deleting the hyphen that formatting inserts gives back a hyphen-free value. */
  lemma {:induction false} RemoveInsertedHyphen(c: string)
    requires |c| == 8 && '-' !in c
    ensures Remove(c[..5] + "-" + c[5..], '-') == c
  {
    RemoveAppend(c[..5] + "-", c[5..], '-');
    RemoveAppend(c[..5], "-", '-');
    assert Remove("-", '-') == "";
    assert c[..5] + c[5..] == c;
  }

  /** Cleaning a formatted postal code gives back the cleaned input: the hyphen is the only thing formatting adds. */
  lemma FormatBrazilianZipCodeRoundTrip(z: string)
    ensures CleanZipCode(FormatBrazilianZipCode(z)) == CleanZipCode(z)
  {
    if !IsBlank(z) {
      if |CleanZipCode(z)| == 8 {
        HyphenatedRoundTrip(z);
      } else {
        CleanZipCodeIdempotent(z);
      }
    }
  }

  /** The round trip for an input whose cleaned value gets the hyphen. */
  lemma HyphenatedRoundTrip(z: string)
    requires !IsBlank(z) && |CleanZipCode(z)| == 8
    ensures CleanZipCode(FormatBrazilianZipCode(z)) == CleanZipCode(z)
  {
    var c := CleanZipCode(z);
    var f := FormatBrazilianZipCode(z);
    assert f == c[..5] + "-" + c[5..];
    assert !IsBlank(f) by {
      assert f[5] == '-';
    }
    assert IsCleanZip(c);
    assert '-' !in c && '.' !in c && ' ' !in c by {
      forall i | 0 <= i < |c| ensures !IsZipSeparator(c[i]) {
      }
    }
    RemoveInsertedHyphen(c);
    TrimTrimmed(c);
    assert CleanZipCode(f) == Trim(Remove(Remove(c, '.'), ' '));
  }

  /** Formatting the cleaned value gives the same display as formatting the raw input. */
  lemma FormatBrazilianZipCodeOfClean(z: string)
    requires !IsBlank(z)
    ensures FormatBrazilianZipCode(CleanZipCode(z)) == FormatBrazilianZipCode(z)
  {
    var c := CleanZipCode(z);
    if IsBlank(c) {
      BlankTrimmedIsEmpty(c);
      assert FormatBrazilianZipCode(z) == c;
    } else {
      CleanZipCodeFixpoint(c);
      if |c| == 8 {
        assert FormatBrazilianZipCode(c) == c[0..5] + "-" + c[5..8];
      } else {
        assert FormatBrazilianZipCode(c) == c;
      }
    }
  }

  /** Formatting is idempotent. */
  lemma FormatBrazilianZipCodeIdempotent(z: string)
    ensures FormatBrazilianZipCode(FormatBrazilianZipCode(z)) == FormatBrazilianZipCode(z)
  {
    if !IsBlank(z) {
      var f := FormatBrazilianZipCode(z);
      if IsBlank(f) {
        // f is the cleaned value and it is blank, so it is empty
        var c := CleanZipCode(z);
        assert |c| != 8;
      } else {
        FormatBrazilianZipCodeRoundTrip(z);
      }
    }
  }

  /**
   * The street display: the street alone when the street type is null or
   * blank, otherwise the type, one space and the street.
   */
  function FormatStreetDisplay(streetType: Option<string>, street: string): (r: string)
    ensures (r == street) <==> IsNullOrBlank(streetType)
    ensures |street| <= |r| && r[|r| - |street|..] == street
    ensures !IsNullOrBlank(streetType) ==>
      |r| == |streetType.value| + 1 + |street| && r[..|streetType.value| + 1] == streetType.value + " "
  {
    if IsNullOrBlank(streetType) then street
    else streetType.value + " " + street
  }

  /** The number part of the full address: the number, or `S/N` ("sem número") when there is none. */
  function NumberSegment(number: Option<string>): (r: string)
    ensures IsNullOrBlank(number) ==> r == ", S/N"
    ensures !IsNullOrBlank(number) ==> r == ", " + number.value
  {
    if !IsNullOrBlank(number) then ", " + number.value else ", S/N"
  }

  /** The complement part of the full address: empty when there is no complement. */
  function ComplementSegment(complement: Option<string>): (r: string)
    ensures (r == "") <==> IsNullOrBlank(complement)
    ensures !IsNullOrBlank(complement) ==> r == " - " + complement.value
  {
    if !IsNullOrBlank(complement) then " - " + complement.value else ""
  }

  /**
   * The one-line address, built by successive appends: street display,
   * number (or `S/N`), optional complement, then district, city, state,
   * country and the formatted CEP. No field is validated here.
   */
  function BuildFullAddress(
    streetType: Option<string>,
    street: string,
    number: Option<string>,
    complement: Option<string>,
    district: string,
    city: string,
    state: string,
    country: string,
    zipCode: string): (r: string)
    ensures r == FormatStreetDisplay(streetType, street) + NumberSegment(number) + ComplementSegment(complement)
      + (", " + district + ", " + city + " - " + state + ", " + country + ", CEP: " + FormatBrazilianZipCode(zipCode))
  {
    var address := FormatStreetDisplay(streetType, street);
    var address := address + NumberSegment(number);
    var address := address + ComplementSegment(complement);
    address + (", " + district + ", " + city + " - " + state + ", " + country + ", CEP: " + FormatBrazilianZipCode(zipCode))
  }

  /**
   * Normalises a country code: the empty string for a blank input, otherwise
   * the upper-cased input with surrounding white space removed.
   */
  function NormalizeCountryCode(countryCode: string): (r: string)
    ensures (r == "") <==> IsBlank(countryCode)
    ensures !IsBlank(countryCode) ==> r == Trim(ToUpperInvariant(countryCode))
    ensures IsUpperCase(r) && IsTrimmed(r)
  {
    if IsBlank(countryCode) then ""
    else
      ToUpperInvariantFacts(countryCode);
      var upper := ToUpperInvariant(countryCode);
      var r := Trim(upper);
      TrimKeepsCharacters(upper);
      assert IsUpperCase(r) by {
        forall i | 0 <= i < |r| ensures !IsLowerAscii(r[i]) {
          assert r[i] in upper;
        }
      }
      r
  }

  /** Normalising an already-normalised country code changes nothing. */
  lemma NormalizeCountryCodeIdempotent(s: string)
    ensures NormalizeCountryCode(NormalizeCountryCode(s)) == NormalizeCountryCode(s)
  {
    var r := NormalizeCountryCode(s);
    if !IsBlank(r) {
      ToUpperInvariantFacts(r);
      TrimTrimmed(r);
    }
  }
}
