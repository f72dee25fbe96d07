/** The add-plant page: the checks its submit makes before sending, the body it
    sends, and the notes it writes when a plant is picked in the autocomplete.
    The checks and the numeric inputs are shared with the edit page. */
module PlantForms {
  import opened JsValues
  import opened JsString
  import opened PlantModel
  import opened Suggestions
  import opened Autocomplete

  /** The value of a numeric input as `handleSubmit` sees it: empty, an integer
      numeral (`isNaN` false, `parseInt` gives `n`), or text that is not a
      number (`isNaN` true). */
  datatype NumInput = Blank | Numeral(n: int) | NotNumeric

  /** Why a submit sends nothing. */
  datatype FormRefusal = NotLoggedIn | MissingRequired | BadWatering | BadFertilizing

  const MSG_MISSING_REQUIRED: string := "Nome da planta e frequência de rega são obrigatórios!"
  const MSG_BAD_WATERING: string := "Frequência de rega deve ser um número maior que 0."
  const MSG_BAD_FERTILIZING: string := "Frequência de adubação deve ser um número."

  /** `localStorage.getItem('token')` is truthy: present and not empty. */
  predicate HasToken(token: Option<string>) {
    token.Some? && token.value != ""
  }

  /** The checks of `handleSubmit`, in their order; `None` lets the request go. */
  function CheckSubmit(token: Option<string>, name: string, watering: NumInput, fertilizing: NumInput): (r: Option<FormRefusal>)
    ensures !HasToken(token) ==> r == Some(NotLoggedIn)
    ensures r.None? <==>
      && HasToken(token) && name != ""
      && watering.Numeral? && watering.n >= MIN_WATERING_DAYS
      && !fertilizing.NotNumeric?
  {
    if !HasToken(token) then Some(NotLoggedIn)
    else if name == "" || watering.Blank? then Some(MissingRequired)
    else if watering.NotNumeric? || watering.n < 1 then Some(BadWatering)
    else if fertilizing.NotNumeric? then Some(BadFertilizing)
    else None
  }

  /** `fertilizingFrequencyDays ? parseInt(fertilizingFrequencyDays) : 0`. */
  function FertilizingDays(fertilizing: NumInput): int {
    if fertilizing.Numeral? then fertilizing.n else DEFAULT_FERTILIZING_DAYS
  }

  /** What a submit does: refuse, or send a JSON body. */
  datatype Submission = Refused(reason: FormRefusal) | Sent(body: PlantBody)

  /** The add page's submit. The body carries the five form fields; the
      dates are left out, so the schema's defaults apply. */
  function AddSubmission(token: Option<string>, name: string, species: string, watering: NumInput,
                         fertilizing: NumInput, notes: string): (r: Submission)
    ensures r.Refused? <==> CheckSubmit(token, name, watering, fertilizing).Some?
    ensures r.Refused? ==> r.reason == CheckSubmit(token, name, watering, fertilizing).value
    ensures r.Sent? ==>
      && r.body.name == Given(name) && name != ""
      && r.body.species == Given(species)
      && r.body.wateringFrequencyDays == Given(watering.n) && watering.n >= MIN_WATERING_DAYS
      && r.body.fertilizingFrequencyDays == Given(if fertilizing.Blank? then 0 else fertilizing.n)
      && r.body.notes == Given(notes)
      && r.body.acquisitionDate.Undefined? && r.body.lastWatered.Undefined? && r.body.lastFertilized.Undefined?
  {
    match CheckSubmit(token, name, watering, fertilizing)
    case Some(reason) => Refused(reason)
    case None =>
      Sent(PlantBody(Given(name), Given(species), Undefined, Given(watering.n), Undefined,
                     Given(FertilizingDays(fertilizing)), Undefined, Given(notes)))
  }

  const NOT_AVAILABLE: string := "N/A"

  /** `value || 'N/A'`. */
  function OrNA(value: Option<string>): (r: string)
    ensures r != ""
    ensures value.Some? && value.value != "" ==> r == value.value
    ensures value.None? || value.value == "" ==> r == NOT_AVAILABLE
  {
    if value.Some? && value.value != "" then value.value else NOT_AVAILABLE
  }

  predicate HasAlternatives(p: Suggestion) {
    p.alternativeNamesPt.Some? && |p.alternativeNamesPt.value| > 0
  }

  predicate ShowsTrefle(p: Suggestion) {
    p.isExternal && p.originalTrefleData.Some?
  }

  const INFO_TITLE: string := "Informações da planta:"
  const SCIENTIFIC_NAME: string := "Nome científico: "
  const FAMILY: string := "Família: "
  const ORIGIN: string := "Origem: "
  const HABIT: string := "Hábito: "
  const OTHER_NAMES: string := "Outros nomes: "
  const TREFLE_HEADING: string := "Dados do Trefle.io:"
  const ETYMOLOGY: string := "Etimologia: "
  const DURATION: string := "Duração: "
  const EVERGREEN: string := "Folhagem persistente: "
  const SHADE_TOLERANCE: string := "Tolerância à sombra: "
  const TREFLE_LINK: string := "Link Trefle: "
  const YES: string := "Sim"
  const NO: string := "Não"

  /** The lines of the second template: the external data block, after a blank line. */
  function TrefleLines(t: TrefleData): seq<string> {
    [ "",
      TREFLE_HEADING,
      ETYMOLOGY + OrNA(t.etymology),
      DURATION + OrNA(t.duration),
      EVERGREEN + (if t.evergreen == Some(true) then YES else NO),
      SHADE_TOLERANCE + OrNA(t.lightTolerated),
      TREFLE_LINK + OrNA(t.link) ]
  }

  /** The lines of the first template: the four directory fields. */
  function HeadLines(p: Suggestion): seq<string> {
    [ INFO_TITLE,
      SCIENTIFIC_NAME + OrNA(Some(p.scientificName)),
      FAMILY + OrNA(p.family),
      ORIGIN + OrNA(p.origin),
      HABIT + OrNA(p.habit) ]
  }

  /** The lines of the notes written for a picked plant: the four directory
      fields, the other names when there are any, and the external data block
      for an external plant that carries it. */
  function InfoLines(p: Suggestion): (r: seq<string>)
    ensures |r| == 5 + (if HasAlternatives(p) then 1 else 0) + (if ShowsTrefle(p) then 7 else 0)
    ensures r[..5] == HeadLines(p)
  {
    HeadLines(p)
    + (if HasAlternatives(p) then [OTHER_NAMES + Join(p.alternativeNamesPt.value, ", ")] else [])
    + (if ShowsTrefle(p) then TrefleLines(p.originalTrefleData.value) else [])
  }

  /** The notes: the lines, one per line. */
  function PlantInfo(p: Suggestion): string {
    Join(InfoLines(p), "\n")
  }

  /** No text of the plant spans several lines. */
  predicate SingleLineFields(p: Suggestion) {
    && '\n' !in p.scientificName
    && (p.family.Some? ==> '\n' !in p.family.value)
    && (p.origin.Some? ==> '\n' !in p.origin.value)
    && (p.habit.Some? ==> '\n' !in p.habit.value)
    && (p.alternativeNamesPt.Some? ==> forall k :: 0 <= k < |p.alternativeNamesPt.value| ==> '\n' !in p.alternativeNamesPt.value[k])
    && (p.originalTrefleData.Some? ==>
          var t := p.originalTrefleData.value;
          && (t.etymology.Some? ==> '\n' !in t.etymology.value)
          && (t.duration.Some? ==> '\n' !in t.duration.value)
          && (t.lightTolerated.Some? ==> '\n' !in t.lightTolerated.value)
          && (t.link.Some? ==> '\n' !in t.link.value))
  }

  /** A fixed caption: one line, and its first two characters differ from
      those of the other-names caption and of the external data heading. */
  predicate PlainLabel(caption: string) {
    && '\n' !in caption && |caption| >= 2
    && (caption[0] != 'O' || caption[1] != 'u')
    && (caption[0] != 'D' || caption[1] != 'a')
  }

  lemma HeadLabels()
    ensures PlainLabel(INFO_TITLE) && PlainLabel(SCIENTIFIC_NAME) && PlainLabel(FAMILY)
  {
  }

  lemma MoreHeadLabels()
    ensures PlainLabel(ORIGIN) && PlainLabel(HABIT)
  {
  }

  lemma TrefleLabels()
    ensures PlainLabel(ETYMOLOGY) && PlainLabel(DURATION) && PlainLabel(EVERGREEN)
  {
  }

  lemma MoreTrefleLabels()
    ensures PlainLabel(SHADE_TOLERANCE) && PlainLabel(TREFLE_LINK)
  {
  }

  lemma ValueTexts()
    ensures '\n' !in NOT_AVAILABLE && '\n' !in YES && '\n' !in NO
    ensures '\n' !in OTHER_NAMES && '\n' !in TREFLE_HEADING
    ensures |OTHER_NAMES| >= 2 && OTHER_NAMES[0] == 'O' && OTHER_NAMES[1] == 'u'
    ensures |TREFLE_HEADING| >= 2 && TREFLE_HEADING[0] == 'D' && TREFLE_HEADING[1] == 'a'
  {
  }

  lemma {:induction false} JoinWithout(parts: seq<string>, sep: string, c: char)
    requires c !in sep
    requires forall k :: 0 <= k < |parts| ==> c !in parts[k]
    ensures c !in Join(parts, sep)
  {
    if |parts| > 1 {
      JoinWithout(parts[1..], sep, c);
    }
  }

  lemma HeadSingleLine(p: Suggestion)
    requires SingleLineFields(p)
    ensures forall k :: 0 <= k < 5 ==> '\n' !in HeadLines(p)[k]
  {
    HeadLabels();
    MoreHeadLabels();
    ValueTexts();
  }

  lemma TrefleSingleLine(t: TrefleData)
    requires t.etymology.Some? ==> '\n' !in t.etymology.value
    requires t.duration.Some? ==> '\n' !in t.duration.value
    requires t.lightTolerated.Some? ==> '\n' !in t.lightTolerated.value
    requires t.link.Some? ==> '\n' !in t.link.value
    ensures forall k :: 0 <= k < 7 ==> '\n' !in TrefleLines(t)[k]
  {
    TrefleLabels();
    MoreTrefleLabels();
    ValueTexts();
  }

  /** Splitting the notes at line breaks gives back their lines, when no
      field spans several lines. */
  lemma NotesLines(p: Suggestion)
    requires SingleLineFields(p)
    ensures Split(PlantInfo(p), '\n') == InfoLines(p)
  {
    var lines := InfoLines(p);
    HeadSingleLine(p);
    assert forall k :: 0 <= k < 5 ==> lines[k] == HeadLines(p)[k];
    if HasAlternatives(p) {
      JoinWithout(p.alternativeNamesPt.value, ", ", '\n');
      ValueTexts();
      assert '\n' !in lines[5];
    }
    if ShowsTrefle(p) {
      TrefleSingleLine(p.originalTrefleData.value);
      assert lines[|lines| - 7..] == TrefleLines(p.originalTrefleData.value);
    }
    assert forall k :: 0 <= k < |lines| ==> '\n' !in lines[k];
    assert "\n" == ['\n'];
    JoinThenSplit(lines, '\n');
  }

  /** A line made of a plain caption and a value starts neither like the
      other-names line nor like the external data heading. */
  lemma LabelledLine(caption: string, value: string)
    requires PlainLabel(caption)
    ensures !StartsWith(caption + value, OTHER_NAMES) && !StartsWith(caption + value, TREFLE_HEADING)
  {
    ValueTexts();
    var line := caption + value;
    assert line[0] == caption[0] && line[1] == caption[1];
  }

  /** No line of the first template is an other-names line or the heading. */
  lemma HeadLinesUnlike(p: Suggestion)
    ensures forall k :: 0 <= k < 5 ==>
      !StartsWith(HeadLines(p)[k], OTHER_NAMES) && !StartsWith(HeadLines(p)[k], TREFLE_HEADING)
  {
    HeadLabels();
    MoreHeadLabels();
    var h := HeadLines(p);
    LabelledLine(INFO_TITLE, "");
    assert INFO_TITLE + "" == h[0];
    LabelledLine(SCIENTIFIC_NAME, OrNA(Some(p.scientificName)));
    LabelledLine(FAMILY, OrNA(p.family));
    LabelledLine(ORIGIN, OrNA(p.origin));
    LabelledLine(HABIT, OrNA(p.habit));
  }

  /** No line of the external data block is an other-names line; only its
      second line is the heading. */
  lemma TrefleLinesUnlike(t: TrefleData)
    ensures forall k :: 0 <= k < 7 ==> !StartsWith(TrefleLines(t)[k], OTHER_NAMES)
    ensures forall k :: 0 <= k < 7 && k != 1 ==> !StartsWith(TrefleLines(t)[k], TREFLE_HEADING)
  {
    TrefleLabels();
    MoreTrefleLabels();
    ValueTexts();
    var b := TrefleLines(t);
    assert !StartsWith(b[1], OTHER_NAMES) by {
      assert b[1][0] == 'D';
    }
    LabelledLine(ETYMOLOGY, OrNA(t.etymology));
    LabelledLine(DURATION, OrNA(t.duration));
    LabelledLine(EVERGREEN, if t.evergreen == Some(true) then YES else NO);
    LabelledLine(SHADE_TOLERANCE, OrNA(t.lightTolerated));
    LabelledLine(TREFLE_LINK, OrNA(t.link));
  }

  /** A line starting "Outros nomes: " is in the notes exactly when the plant
      has other names. */
  lemma OtherNamesLineIff(p: Suggestion)
    ensures (exists k :: 0 <= k < |InfoLines(p)| && StartsWith(InfoLines(p)[k], OTHER_NAMES)) <==> HasAlternatives(p)
  {
    var lines := InfoLines(p);
    if HasAlternatives(p) {
      assert lines[5] == OTHER_NAMES + Join(p.alternativeNamesPt.value, ", ");
      assert lines[5][..|OTHER_NAMES|] == OTHER_NAMES;
    } else {
      HeadLinesUnlike(p);
      if ShowsTrefle(p) {
        TrefleLinesUnlike(p.originalTrefleData.value);
        assert lines == HeadLines(p) + TrefleLines(p.originalTrefleData.value);
      } else {
        assert lines == HeadLines(p);
      }
    }
  }

  /** The external data heading is in the notes exactly when the plant is
      external and carries its data. */
  lemma TrefleBlockIff(p: Suggestion)
    ensures TREFLE_HEADING in InfoLines(p) <==> ShowsTrefle(p)
  {
    var lines := InfoLines(p);
    if ShowsTrefle(p) {
      var k := if HasAlternatives(p) then 7 else 6;
      assert lines[k] == TREFLE_HEADING;
    } else {
      HeadLinesUnlike(p);
      forall k | 0 <= k < |lines|
        ensures lines[k] != TREFLE_HEADING
      {
        assert !StartsWith(lines[k], TREFLE_HEADING) by {
          if k == 5 {
            ValueTexts();
            assert lines[5][0] == OTHER_NAMES[0];
          }
        }
      }
    }
  }

  /** The add-plant form. */
  class AddPlantForm {
    var name: string
    var species: string
    var wateringFrequencyDays: NumInput
    var fertilizingFrequencyDays: NumInput
    var notes: string
    var selectedPlantInfo: Selection

    constructor ()
      ensures name == "" && species == "" && notes == ""
      ensures wateringFrequencyDays == Blank && fertilizingFrequencyDays == Blank
      ensures selectedPlantInfo == EMPTY_SELECTION
    {
      name := "";
      species := "";
      wateringFrequencyDays := Blank;
      fertilizingFrequencyDays := Blank;
      notes := "";
      selectedPlantInfo := EMPTY_SELECTION;
    }

    /** `handleSubmit`, given the stored token: it changes no field. */
    method HandleSubmit(token: Option<string>) returns (r: Submission)
      ensures r == AddSubmission(token, name, species, wateringFrequencyDays, fertilizingFrequencyDays, notes)
    {
      var watering := wateringFrequencyDays;
      var fertilizing := fertilizingFrequencyDays;
      if !HasToken(token) {
        return Refused(NotLoggedIn);
      }
      if name == "" || watering.Blank? {
        return Refused(MissingRequired);
      }
      if watering.NotNumeric? || watering.n < 1 {
        return Refused(BadWatering);
      }
      if fertilizing.NotNumeric? {
        return Refused(BadFertilizing);
      }
      var fertilizingDays := if fertilizing.Numeral? then fertilizing.n else 0;
      r := Sent(PlantBody(Given(name), Given(species), Undefined, Given(watering.n), Undefined,
                          Given(fertilizingDays), Undefined, Given(notes)));
    }

    /** `handlePlantSelection`: a picked plant fills the name, the species and
        the notes; an empty selection clears them. The numeric fields are kept. */
    method HandlePlantSelection(selection: Selection)
      modifies this
      ensures selectedPlantInfo == selection
      ensures wateringFrequencyDays == old(wateringFrequencyDays)
      ensures fertilizingFrequencyDays == old(fertilizingFrequencyDays)
      ensures selection.plant.Some? ==>
        && name == selection.commonNamePt && species == selection.scientificName
        && notes == PlantInfo(selection.plant.value)
      ensures selection.plant.None? ==> name == "" && species == "" && notes == ""
    {
      selectedPlantInfo := selection;
      if selection.plant.Some? {
        var plant := selection.plant.value;
        name := selection.commonNamePt;
        species := selection.scientificName;
        var plantInfo := Join(HeadLines(plant), "\n");
        ghost var lines := HeadLines(plant);
        if plant.alternativeNamesPt.Some? && |plant.alternativeNamesPt.value| > 0 {
          var otherNames := OTHER_NAMES + Join(plant.alternativeNamesPt.value, ", ");
          JoinSnoc(lines, otherNames, "\n");
          plantInfo := plantInfo + "\n" + otherNames;
          lines := lines + [otherNames];
        }
        if plant.isExternal && plant.originalTrefleData.Some? {
          var trefleData := plant.originalTrefleData.value;
          JoinAppend(lines, TrefleLines(trefleData), "\n");
          plantInfo := plantInfo + "\n" + Join(TrefleLines(trefleData), "\n");
          lines := lines + TrefleLines(trefleData);
        }
        assert lines == InfoLines(plant);
        notes := plantInfo;
      } else {
        name := "";
        species := "";
        notes := "";
      }
    }
  }

}
