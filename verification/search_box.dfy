/**
 The start/end search form of `src/components/SearchBox.jsx`. Each field is set by
 typing into it or by its address autocomplete; an autocomplete selection changes
 its field only when it carries a non-empty formatted address. "Find Chargers"
 hands both addresses to the caller only when both are non-empty.
 */
module SearchBox {
  import opened Common

  /** The two controlled text fields. */
  datatype SearchForm = SearchForm(start: string, end: string)

  /** The form as it first renders: both fields empty. */
  const EmptySearchForm: SearchForm := SearchForm("", "")

  /** What `getPlace()` returns on a `place_changed` event: possibly no place, and a
      place possibly without a formatted address. */
  datatype AutocompletePlace = AutocompletePlace(formattedAddress: Option<string>)

  /** The address an autocomplete event supplies: present only when the place and a
      non-empty formatted address both are. */
  function SuppliedAddress(place: Option<AutocompletePlace>): (a: Option<string>)
    ensures a.Some? ==> Truthy(a.value) && place.Some? && place.value.formattedAddress == a
    ensures a.None? ==> place.None? || place.value.formattedAddress.None? || place.value.formattedAddress == Some("")
  {
    if place.Some? && place.value.formattedAddress.Some? && Truthy(place.value.formattedAddress.value)
    then place.value.formattedAddress
    else None
  }

  /** `place_changed` on the start autocomplete: the start takes the supplied address
      when there is one and is kept otherwise; the end is never touched. */
  function OnStartPlaceChanged(f: SearchForm, place: Option<AutocompletePlace>): (r: SearchForm)
    ensures r.end == f.end
    ensures SuppliedAddress(place).Some? ==> r.start == SuppliedAddress(place).value
    ensures SuppliedAddress(place).None? ==> r == f
  {
    match SuppliedAddress(place)
    case Some(address) => f.(start := address)
    case None => f
  }

  /** `place_changed` on the end autocomplete: the mirror image, never touching the start. */
  function OnEndPlaceChanged(f: SearchForm, place: Option<AutocompletePlace>): (r: SearchForm)
    ensures r.start == f.start
    ensures SuppliedAddress(place).Some? ==> r.end == SuppliedAddress(place).value
    ensures SuppliedAddress(place).None? ==> r == f
  {
    match SuppliedAddress(place)
    case Some(address) => f.(end := address)
    case None => f
  }

  /** Typing into the start input: the start becomes the typed text, the end is kept. */
  function TypeStart(f: SearchForm, text: string): (r: SearchForm)
    ensures r.start == text && r.end == f.end
  {
    f.(start := text)
  }

  /** Typing into the end input: the end becomes the typed text, the start is kept. */
  function TypeEnd(f: SearchForm, text: string): (r: SearchForm)
    ensures r.end == text && r.start == f.start
  {
    f.(end := text)
  }

  /** `handleSearchInternal`: `onSearch(start, end)` is called, with the two fields
      in that order, exactly when both are non-empty. */
  function HandleSearch(f: SearchForm): (call: Option<(string, string)>)
    ensures call.Some? <==> Truthy(f.start) && Truthy(f.end)
    ensures call.Some? ==> call.value.0 == f.start && call.value.1 == f.end
  {
    if Truthy(f.start) && Truthy(f.end) then Some((f.start, f.end)) else None
  }

  /** The two autocompletes are independent: their events commute. */
  lemma AutocompletesCommute(f: SearchForm, p: Option<AutocompletePlace>, q: Option<AutocompletePlace>)
    ensures OnEndPlaceChanged(OnStartPlaceChanged(f, p), q) == OnStartPlaceChanged(OnEndPlaceChanged(f, q), p)
  {
  }

  /** Once both autocompletes have supplied an address, searching hands exactly those
      two addresses to the caller, whatever the fields held before. */
  lemma SearchAfterBothAutocompletes(f: SearchForm, p: Option<AutocompletePlace>, q: Option<AutocompletePlace>)
    requires SuppliedAddress(p).Some? && SuppliedAddress(q).Some?
    ensures HandleSearch(OnEndPlaceChanged(OnStartPlaceChanged(f, p), q))
              == Some((SuppliedAddress(p).value, SuppliedAddress(q).value))
  {
  }

  /** An autocomplete event without a usable address leaves a search that would not
      fire still not firing, and one that would fire firing with the same addresses. */
  lemma UnusableAutocompleteKeepsSearch(f: SearchForm, place: Option<AutocompletePlace>)
    requires SuppliedAddress(place).None?
    ensures HandleSearch(OnStartPlaceChanged(f, place)) == HandleSearch(f)
    ensures HandleSearch(OnEndPlaceChanged(f, place)) == HandleSearch(f)
  {
  }

  /** From the form's first render, one field alone never starts a search: the caller
      is reached only once both the start and the end have been supplied. */
  lemma OneFieldFromEmptyFormSearchesNothing(p: Option<AutocompletePlace>, text: string)
    ensures HandleSearch(EmptySearchForm).None?
    ensures HandleSearch(OnStartPlaceChanged(EmptySearchForm, p)).None?
    ensures HandleSearch(OnEndPlaceChanged(EmptySearchForm, p)).None?
    ensures HandleSearch(TypeStart(EmptySearchForm, text)).None?
    ensures HandleSearch(TypeEnd(EmptySearchForm, text)).None?
  {
  }
}
