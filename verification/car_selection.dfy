/**
 The car selection form of `src/components/CarSelection.jsx`: a brand select, a
 model select whose options depend on the brand, and a free range field. Changing
 the brand clears the model; saving hands the three values to the caller only when
 all three are non-empty.
 */
module CarSelection {
  import opened Common

  /** The brands offered and each brand's models (`carData`). */
  const CarData: map<string, seq<string>> := map[
    "Tesla" := ["Model S", "Model 3", "Model X", "Model Y"],
    "Nissan" := ["Leaf", "Ariya"],
    "BMW" := ["i3", "i4", "iX", "iX3"],
    "Hyundai" := ["Kona Electric", "Ioniq 5"],
    "Ford" := ["Mustang Mach-E", "F-150 Lightning"]
  ]

  /** The brand options in the order the select lists them (`Object.keys(carData)`). */
  const BrandOptions: seq<string> := ["Tesla", "Nissan", "BMW", "Hyundai", "Ford"]

  /** The three controlled fields of the form, as the strings the inputs hold. */
  datatype CarForm = CarForm(brand: string, model: string, range: string)

  /** What a successful save hands to `onCarSelect`. */
  datatype CarProfile = CarProfile(brand: string, model: string, range: string)

  /** The form as it first renders: all three fields empty. */
  const EmptyCarForm: CarForm := CarForm("", "", "")

  /** The brand select lists each brand once, and exactly the brands of `carData`. */
  lemma BrandOptionsAreCarDataKeys()
    ensures forall b :: b in BrandOptions <==> b in CarData
    ensures forall i, j :: 0 <= i < j < |BrandOptions| ==> BrandOptions[i] != BrandOptions[j]
  {
  }

  /** The model select is disabled while no brand is chosen. */
  predicate ModelSelectDisabled(f: CarForm) {
    !Truthy(f.brand)
  }

  /** The model options: none while no brand is chosen, otherwise that brand's models. */
  function ModelOptions(brand: string): (options: seq<string>)
    requires brand == "" || brand in CarData
    ensures forall m :: m in options <==> brand in CarData && m in CarData[brand]
    ensures brand == "" <==> |options| == 0
    ensures Truthy(brand) ==> options == CarData[brand]
  {
    if Truthy(brand) then CarData[brand] else []
  }

  /** No model name is offered under two brands, so a model option determines its brand. */
  lemma ModelDeterminesBrand(b1: string, b2: string, model: string)
    requires b1 in CarData && b2 in CarData
    requires model in ModelOptions(b1) && model in ModelOptions(b2)
    ensures b1 == b2
  {
  }

  /** A form whose brand is one of the brands (or unset) and whose model is one of
      that brand's models (or unset). */
  predicate Consistent(f: CarForm) {
    && (f.brand == "" || f.brand in CarData)
    && (f.model == "" || (f.brand in CarData && f.model in CarData[f.brand]))
  }

  /** A value the brand select can deliver: its "Select Brand" placeholder or a brand. */
  predicate BrandSelectable(value: string) {
    value == "" || value in CarData
  }

  /** A value the model select can deliver: nothing while it is disabled, otherwise
      its "Select Model" placeholder or one of the brand's models. */
  predicate ModelSelectable(f: CarForm, value: string) {
    && !ModelSelectDisabled(f)
    && f.brand in CarData
    && (value == "" || value in ModelOptions(f.brand))
  }

  /** The model select is disabled exactly while the brand is empty; a disabled
      select delivers no value (that is how `ModelSelectable` models `disabled`),
      and a chosen brand always offers at least one model. */
  lemma ModelSelectEnabledOnlyWithBrand(f: CarForm, value: string)
    requires f.brand == "" || f.brand in CarData
    ensures ModelSelectDisabled(f) <==> f.brand == ""
    ensures f.brand == "" ==> !ModelSelectable(f, value)
    ensures f.brand != "" ==> ModelSelectable(f, "") && |ModelOptions(f.brand)| > 0
  {
  }

  /** `handleBrandChange`: the brand becomes the selected value and the model is always cleared. */
  function HandleBrandChange(f: CarForm, value: string): (r: CarForm)
    requires BrandSelectable(value)
    ensures r.brand == value && r.model == "" && r.range == f.range
    ensures Consistent(r)
  {
    f.(brand := value, model := "")
  }

  /** The model select's change handler: only the model changes. */
  function HandleModelChange(f: CarForm, value: string): (r: CarForm)
    requires ModelSelectable(f, value)
    ensures r.brand == f.brand && r.model == value && r.range == f.range
    ensures Consistent(f) ==> Consistent(r)
  {
    f.(model := value)
  }

  /** The range input's change handler: only the range changes, with no numeric check. */
  function HandleRangeChange(f: CarForm, value: string): (r: CarForm)
    ensures r.brand == f.brand && r.model == f.model && r.range == value
    ensures Consistent(f) ==> Consistent(r)
  {
    f.(range := value)
  }

  /** `handleSubmit`: a profile carrying exactly the current brand, model and range
      when all three are non-empty, and nothing otherwise. */
  function HandleSubmit(f: CarForm): (p: Option<CarProfile>)
    ensures p.Some? <==> Truthy(f.brand) && Truthy(f.model) && Truthy(f.range)
    ensures p.Some? ==> p.value.brand == f.brand && p.value.model == f.model && p.value.range == f.range
  {
    if Truthy(f.brand) && Truthy(f.model) && Truthy(f.range) then Some(CarProfile(f.brand, f.model, f.range))
    else None
  }

  /** Right after any brand change, saving does nothing: the model has just been cleared. */
  lemma SubmitAfterBrandChangeIsNoOp(f: CarForm, value: string)
    requires BrandSelectable(value)
    ensures HandleSubmit(HandleBrandChange(f, value)).None?
  {
  }

  /** The range is not checked as a number: "0" is saved like any other non-empty text. */
  lemma ZeroRangeIsSaved()
    ensures HandleSubmit(CarForm("Tesla", "Model 3", "0")) == Some(CarProfile("Tesla", "Model 3", "0"))
  {
  }

  /** A user action on the form. */
  datatype CarFormEvent =
    | BrandChanged(value: string)
    | ModelChanged(value: string)
    | RangeChanged(value: string)

  /** The form's controls can deliver this event in this state. */
  predicate Offered(f: CarForm, e: CarFormEvent) {
    match e
    case BrandChanged(v) => BrandSelectable(v)
    case ModelChanged(v) => ModelSelectable(f, v)
    case RangeChanged(_) => true
  }

  function Step(f: CarForm, e: CarFormEvent): CarForm
    requires Offered(f, e)
  {
    match e
    case BrandChanged(v) => HandleBrandChange(f, v)
    case ModelChanged(v) => HandleModelChange(f, v)
    case RangeChanged(v) => HandleRangeChange(f, v)
  }

  /** Every event of the series is one the controls can deliver at that point. */
  predicate Deliverable(f: CarForm, events: seq<CarFormEvent>)
    decreases |events|
  {
    |events| == 0 || (Offered(f, events[0]) && Deliverable(Step(f, events[0]), events[1..]))
  }

  function Run(f: CarForm, events: seq<CarFormEvent>): CarForm
    requires Deliverable(f, events)
    decreases |events|
  {
    if |events| == 0 then f else Run(Step(f, events[0]), events[1..])
  }

  /** Whatever the user does, the form stays consistent, so every saved profile names
      a brand of `carData` and one of that brand's models. */
  lemma {:induction false} SavedProfilesAreConsistent(f: CarForm, events: seq<CarFormEvent>)
    requires Consistent(f) && Deliverable(f, events)
    ensures Consistent(Run(f, events))
    ensures HandleSubmit(Run(f, events)).Some? ==>
              && HandleSubmit(Run(f, events)).value.brand in CarData
              && HandleSubmit(Run(f, events)).value.model in CarData[HandleSubmit(Run(f, events)).value.brand]
    decreases |events|
  {
    if |events| > 0 {
      SavedProfilesAreConsistent(Step(f, events[0]), events[1..]);
    }
  }

  /** From the form's first render, saving does nothing until something is chosen, and
      after any series of user actions a saved profile names a brand of `carData` and
      one of that brand's models. */
  lemma SavedProfilesFromEmptyForm(events: seq<CarFormEvent>)
    requires Deliverable(EmptyCarForm, events)
    ensures HandleSubmit(EmptyCarForm).None?
    ensures Consistent(Run(EmptyCarForm, events))
    ensures HandleSubmit(Run(EmptyCarForm, events)).Some? ==>
              && HandleSubmit(Run(EmptyCarForm, events)).value.brand in CarData
              && HandleSubmit(Run(EmptyCarForm, events)).value.model in CarData[HandleSubmit(Run(EmptyCarForm, events)).value.brand]
  {
    SavedProfilesAreConsistent(EmptyCarForm, events);
  }
}
