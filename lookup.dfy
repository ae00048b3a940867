/**
  The language policy `get_language`: the language mapped to the guest's country, falling back
  to the language of "GB" when the country is unknown (or null). The fallback itself is a plain
  dictionary access, so a table without "GB" makes it raise; that case is `None` here.
 */
module Lookup {
  import opened Wrappers

  const DEFAULT_COUNTRY: string := "GB"

  function GetLanguage(countryLanguage: map<string, string>, country: Option<string>): (r: Option<string>)
    ensures DEFAULT_COUNTRY in countryLanguage ==> r.Some?
    ensures r.Some? ==> r.value in countryLanguage.Values
    ensures country.Some? && country.value in countryLanguage ==> r == Some(countryLanguage[country.value])
    ensures (country.None? || country.value !in countryLanguage) ==>
              (r.Some? <==> DEFAULT_COUNTRY in countryLanguage) &&
              (r.Some? ==> r.value == countryLanguage[DEFAULT_COUNTRY])
  {
    if country.Some? && country.value in countryLanguage then Some(countryLanguage[country.value])
    else if DEFAULT_COUNTRY in countryLanguage then Some(countryLanguage[DEFAULT_COUNTRY])
    else None
  }
}
