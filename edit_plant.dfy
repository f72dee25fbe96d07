/** The edit-plant page: the fields it loads from the stored plant, and the
    body its submit sends back. A date input holds a day ("YYYY-MM-DD"); the
    server reads that day back as its midnight in UTC. */
module EditPlantPage {
  import opened JsValues
  import opened PlantModel
  import opened PlantForms

  const MS_PER_DAY: int := 86400000

  /** The UTC day of an instant: the date part of `toISOString()`. */
  function DayOf(t: Date): int {
    t / MS_PER_DAY
  }

  /** The instant the string of a day is read back as: its midnight in UTC. */
  function Midnight(day: int): Date {
    day * MS_PER_DAY
  }

  /** A stored instant comes back as the midnight that starts its day; a
      midnight comes back unchanged. */
  lemma MidnightOfDay(t: Date)
    ensures Midnight(DayOf(t)) <= t < Midnight(DayOf(t)) + MS_PER_DAY
    ensures DayOf(Midnight(DayOf(t))) == DayOf(t)
    ensures Midnight(DayOf(t)) % MS_PER_DAY == 0
  {
    var d := DayOf(t);
    assert t == d * MS_PER_DAY + t % MS_PER_DAY;
    assert (d * MS_PER_DAY) / MS_PER_DAY == d;
    assert (d * MS_PER_DAY) % MS_PER_DAY == 0;
  }

  /** A stored instant after the page has shown it as a day and sent that
      day back: the midnight that starts the day. */
  function AtMidnight(t: Option<Date>): (r: Option<Date>)
    ensures r.Some? <==> t.Some?
    ensures r.Some? ==> r.value % MS_PER_DAY == 0 && r.value <= t.value < r.value + MS_PER_DAY
  {
    if t.Some? then MidnightOfDay(t.value); Some(Midnight(DayOf(t.value))) else None
  }

  /** Showing a midnight as its day and sending it back gives the same midnight. */
  lemma AtMidnightTwice(t: Option<Date>)
    ensures AtMidnight(AtMidnight(t)) == AtMidnight(t)
  {
    if t.Some? {
      MidnightOfDay(t.value);
    }
  }

  /** The seven form fields. A blank date input is `None`; `species` is
      `None` when the stored species was `null`. */
  datatype EditFields = EditFields(
    name: string,
    species: Option<string>,
    watering: NumInput,
    lastWatered: Option<int>,
    fertilizing: NumInput,
    lastFertilized: Option<int>,
    notes: string)

  /** A number shown in a numeric input: `0` and a missing value are falsy,
      so the input counts as blank. */
  function NumberInput(v: Option<int>): (r: NumInput)
    ensures r.Blank? <==> v.None? || v.value == 0
    ensures !r.Blank? ==> r == Numeral(v.value)
  {
    if v.Some? && v.value != 0 then Numeral(v.value) else Blank
  }

  function DateInput(v: Option<Date>): (r: Option<int>)
    ensures r.Some? <==> v.Some?
    ensures r.Some? ==> Midnight(r.value) <= v.value < Midnight(r.value) + MS_PER_DAY
  {
    if v.Some? then MidnightOfDay(v.value); Some(DayOf(v.value)) else None
  }

  /** `fetchPlant`'s seven assignments: a fertilizing frequency of 0 shows
      as blank, missing notes as the empty string, dates as their day. */
  function Loaded(p: Plant): (f: EditFields)
    ensures p.fertilizingFrequencyDays == Some(0) || p.fertilizingFrequencyDays.None? ==> f.fertilizing == Blank
    ensures p.notes.None? ==> f.notes == ""
    ensures p.notes.Some? ==> f.notes == p.notes.value
  {
    EditFields(
      p.name.GetOr(""),
      p.species,
      NumberInput(p.wateringFrequencyDays),
      DateInput(p.lastWatered),
      NumberInput(p.fertilizingFrequencyDays),
      DateInput(p.lastFertilized),
      p.notes.GetOr(""))
  }

  /** `value || null` for a date input. */
  function DateField(day: Option<int>): (r: Field<Date>)
    ensures r.Null? <==> day.None?
    ensures r.Given? ==> r.value == Midnight(day.value)
  {
    if day.Some? then Given(Midnight(day.value)) else Null
  }

  /** The edit page's submit: the same checks as the add page; blank dates
      are sent as `null` and the acquisition date is not sent. */
  function EditSubmission(token: Option<string>, f: EditFields): (r: Submission)
    ensures r.Refused? <==> CheckSubmit(token, f.name, f.watering, f.fertilizing).Some?
    ensures r.Refused? ==> r.reason == CheckSubmit(token, f.name, f.watering, f.fertilizing).value
    ensures r.Sent? ==>
      && r.body.name == Given(f.name)
      && r.body.wateringFrequencyDays == Given(f.watering.n) && f.watering.n >= MIN_WATERING_DAYS
      && r.body.fertilizingFrequencyDays == Given(if f.fertilizing.Blank? then 0 else f.fertilizing.n)
      && r.body.notes == Given(f.notes)
      && r.body.species == (if f.species.Some? then Given(f.species.value) else Null)
      && r.body.acquisitionDate.Undefined?
      && r.body.lastWatered == DateField(f.lastWatered)
      && r.body.lastFertilized == DateField(f.lastFertilized)
  {
    match CheckSubmit(token, f.name, f.watering, f.fertilizing)
    case Some(reason) => Refused(reason)
    case None =>
      Sent(PlantBody(
        Given(f.name),
        if f.species.Some? then Given(f.species.value) else Null,
        Undefined,
        Given(f.watering.n),
        DateField(f.lastWatered),
        Given(FertilizingDays(f.fertilizing)),
        DateField(f.lastFertilized),
        Given(f.notes)))
  }

  /** Loading a valid plant and saving it untouched sends every field back:
      the dates as the midnight of their day, a fertilizing frequency of 0 or
      none as 0, missing notes as "", and a `null` species as `null`. */
  lemma LoadThenSubmit(token: Option<string>, p: Plant)
    requires HasToken(token) && SchemaValid(p)
    ensures EditSubmission(token, Loaded(p)).Sent?
    ensures var body := EditSubmission(token, Loaded(p)).body;
      && body.name == Given(p.name.value)
      && body.species == (if p.species.Some? then Given(p.species.value) else Null)
      && body.acquisitionDate.Undefined?
      && body.wateringFrequencyDays == Given(p.wateringFrequencyDays.value)
      && !body.lastWatered.Undefined? && body.lastWatered.AsStored() == AtMidnight(p.lastWatered)
      && body.fertilizingFrequencyDays == Given(p.fertilizingFrequencyDays.GetOr(DEFAULT_FERTILIZING_DAYS))
      && !body.lastFertilized.Undefined? && body.lastFertilized.AsStored() == AtMidnight(p.lastFertilized)
      && body.notes == Given(p.notes.GetOr(""))
  {
  }

  /** The edit form. */
  class EditPlantForm {
    var name: string
    var species: Option<string>
    var wateringFrequencyDays: NumInput
    var lastWatered: Option<int>
    var fertilizingFrequencyDays: NumInput
    var lastFertilized: Option<int>
    var notes: string

    function Fields(): EditFields
      reads this
    {
      EditFields(name, species, wateringFrequencyDays, lastWatered, fertilizingFrequencyDays, lastFertilized, notes)
    }

    constructor ()
      ensures Fields() == EditFields("", Some(""), Blank, None, Blank, None, "")
    {
      name := "";
      species := Some("");
      wateringFrequencyDays := Blank;
      lastWatered := None;
      fertilizingFrequencyDays := Blank;
      lastFertilized := None;
      notes := "";
    }

    /** `fetchPlant`, given the stored token and the plant the request
        returned (`None` when it failed): without a token or a plant no
        field changes. */
    method FetchPlant(token: Option<string>, fetched: Option<Plant>)
      modifies this
      ensures !HasToken(token) || fetched.None? ==> Fields() == old(Fields())
      ensures HasToken(token) && fetched.Some? ==> Fields() == Loaded(fetched.value)
    {
      if !HasToken(token) || fetched.None? {
        return;
      }
      var plantData := fetched.value;
      name := plantData.name.GetOr("");
      species := plantData.species;
      wateringFrequencyDays := NumberInput(plantData.wateringFrequencyDays);
      lastWatered := DateInput(plantData.lastWatered);
      fertilizingFrequencyDays := NumberInput(plantData.fertilizingFrequencyDays);
      lastFertilized := DateInput(plantData.lastFertilized);
      notes := plantData.notes.GetOr("");
    }

    /** `handleSubmit`, given the stored token: the checks return early in
        their order; otherwise the body carries the seven fields, a blank
        date as `null`. It changes no field. */
    method HandleSubmit(token: Option<string>) returns (r: Submission)
      ensures r == EditSubmission(token, Fields())
    {
      var watering := wateringFrequencyDays;
      var fertilizing := fertilizingFrequencyDays;
      if !HasToken(token) {
        return Refused(NotLoggedIn);
      }
      if name == "" || watering.Blank? {
        return Refused(MissingRequired);
      }
      if watering.NotNumeric? || watering.n < 1 {
        return Refused(BadWatering);
      }
      if fertilizing.NotNumeric? {
        return Refused(BadFertilizing);
      }
      var fertilizingDays := if fertilizing.Numeral? then fertilizing.n else 0;
      var sentSpecies := if species.Some? then Given(species.value) else Null;
      var sentWatered := if lastWatered.Some? then Given(Midnight(lastWatered.value)) else Null;
      var sentFertilized := if lastFertilized.Some? then Given(Midnight(lastFertilized.value)) else Null;
      r := Sent(PlantBody(Given(name), sentSpecies, Undefined, Given(watering.n), sentWatered,
                          Given(fertilizingDays), sentFertilized, Given(notes)));
    }
  }
}
