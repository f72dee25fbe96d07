/** The Plant schema: the stored document, its defaults, the `trim` setters and
    the validators that `save()` runs. */
module PlantModel {
  import opened JsValues
  import opened JsString
  import opened ObjectIds

  /** A point in time, in milliseconds since the epoch. */
  type Date = int

  const DEFAULT_SPECIES: string := "Desconhecida"
  const DEFAULT_FERTILIZING_DAYS: int := 0
  const MIN_WATERING_DAYS: int := 1
  const MAX_NOTES_LENGTH: nat := 500

  /** A Plant document. `None` is a path that is `null` or was never set. */
  datatype Plant = Plant(
    owner: ObjectId,
    name: Option<string>,
    species: Option<string>,
    acquisitionDate: Option<Date>,
    wateringFrequencyDays: Option<int>,
    lastWatered: Option<Date>,
    fertilizingFrequencyDays: Option<int>,
    lastFertilized: Option<Date>,
    notes: Option<string>)

  /** The plant fields of a request body. */
  datatype PlantBody = PlantBody(
    name: Field<string>,
    species: Field<string>,
    acquisitionDate: Field<Date>,
    wateringFrequencyDays: Field<int>,
    lastWatered: Field<Date>,
    fertilizingFrequencyDays: Field<int>,
    lastFertilized: Field<Date>,
    notes: Field<string>)

  /** A string path with `trim: true`: the setter trims every string assigned to it. */
  function SetText(f: Field<string>): (r: Option<string>)
    ensures r.Some? <==> f.Given?
    ensures r.Some? ==> r.value == Trim(f.value)
    ensures IsTrimmed(r)
  {
    match f
    case Given(s) => TrimIdempotent(s); Some(Trim(s))
    case _ => None
  }

  /** A path with a default: the default replaces `undefined`, never `null`. */
  function WithDefault<T>(f: Field<T>, default: T): Option<T> {
    if f.Undefined? then Some(default) else f.AsStored()
  }

  predicate IsTrimmed(v: Option<string>) {
    v.None? || Trim(v.value) == v.value
  }

  /** Every string path holds a trimmed value. */
  predicate Normalized(p: Plant) {
    IsTrimmed(p.name) && IsTrimmed(p.species) && IsTrimmed(p.notes)
  }

  /** The validators run by `save()`: `name` and `wateringFrequencyDays` are
      required (an empty string fails `required`), watering is at least one day,
      notes are at most 500 characters. Nothing bounds fertilizing. */
  predicate SchemaValid(p: Plant) {
    && p.name.Some? && p.name.value != ""
    && p.wateringFrequencyDays.Some? && p.wateringFrequencyDays.value >= MIN_WATERING_DAYS
    && (p.notes.Some? ==> |p.notes.value| <= MAX_NOTES_LENGTH)
  }

  /** A document as the collection holds it after a successful `save()`. */
  predicate Stored(p: Plant) {
    SchemaValid(p) && Normalized(p)
  }

  /** `new Plant({...})`: the constructor applies the setters and the defaults
      (`Date.now` is `now`). */
  function NewPlant(owner: ObjectId, body: PlantBody, now: Date): (p: Plant)
    ensures p.owner == owner
    ensures Normalized(p)
    ensures p.name == SetText(body.name) && p.notes == SetText(body.notes)
    ensures p.species == if body.species.Undefined? then Some(DEFAULT_SPECIES) else SetText(body.species)
    ensures body.acquisitionDate.Undefined? ==> p.acquisitionDate == Some(now)
    ensures body.lastWatered.Undefined? ==> p.lastWatered == Some(now)
    ensures body.fertilizingFrequencyDays.Undefined? ==> p.fertilizingFrequencyDays == Some(DEFAULT_FERTILIZING_DAYS)
    ensures body.lastFertilized.Undefined? ==> p.lastFertilized == None
    ensures !body.acquisitionDate.Undefined? ==> p.acquisitionDate == body.acquisitionDate.AsStored()
    ensures !body.lastWatered.Undefined? ==> p.lastWatered == body.lastWatered.AsStored()
    ensures !body.fertilizingFrequencyDays.Undefined? ==> p.fertilizingFrequencyDays == body.fertilizingFrequencyDays.AsStored()
    ensures !body.lastFertilized.Undefined? ==> p.lastFertilized == body.lastFertilized.AsStored()
    ensures body.wateringFrequencyDays.Given? <==> p.wateringFrequencyDays.Some?
    ensures p.wateringFrequencyDays.Some? ==> p.wateringFrequencyDays.value == body.wateringFrequencyDays.value
  {
    assert IsTrimmed(Some(DEFAULT_SPECIES)) by {
      TrimOfTrimmed(DEFAULT_SPECIES);
    }
    Plant(
      owner,
      SetText(body.name),
      if body.species.Undefined? then Some(DEFAULT_SPECIES) else SetText(body.species),
      WithDefault(body.acquisitionDate, now),
      body.wateringFrequencyDays.AsStored(),
      WithDefault(body.lastWatered, now),
      WithDefault(body.fertilizingFrequencyDays, DEFAULT_FERTILIZING_DAYS),
      body.lastFertilized.AsStored(),
      SetText(body.notes))
  }

  /** A name the controller's truthiness check accepts but `required` rejects
      once trimmed: a non-empty all-whitespace name never validates. */
  lemma WhitespaceNameFailsSchema(owner: ObjectId, body: PlantBody, now: Date)
    requires body.name.Given? && body.name.value != []
    requires forall k :: 0 <= k < |body.name.value| ==> IsWhitespace(body.name.value[k])
    ensures !FalsyText(body.name)
    ensures !SchemaValid(NewPlant(owner, body, now))
  {
  }
}
