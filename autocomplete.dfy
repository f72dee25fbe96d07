/** The state of the plant autocomplete and its event handlers: typing,
    clicking a suggestion, the keyboard, focusing and clearing. Each handler
    returns the selection it passes to `onChange`, if it calls it. */
module Autocomplete {
  import opened JsValues
  import opened JsString
  import opened Suggestions

  /** What `onChange` receives. */
  datatype Selection = Selection(id: string, scientificName: string, commonNamePt: string, plant: Option<Suggestion>)

  /** The selection emitted when the input is emptied or cleared. */
  const EMPTY_SELECTION: Selection := Selection("", "", "", None)

  function SelectionOf(p: Suggestion): Selection {
    Selection(p.id, p.scientificName, p.commonNamePt, Some(p))
  }

  /** The keys `handleKeyDown` tells apart; every other key is `Other`. */
  datatype Key = ArrowDown | ArrowUp | Enter | Escape | Other

  /** ArrowDown: the next suggestion, wrapping from the last to the first. */
  function NextIndex(prev: int, len: nat): (n: int)
    ensures len > 0 && prev >= -1 ==> 0 <= n < len
    ensures len > 0 && prev == -1 ==> n == 0
    ensures -1 <= prev < len - 1 ==> n == prev + 1
    ensures prev >= len - 1 ==> n == 0
  {
    if prev < len - 1 then prev + 1 else 0
  }

  /** ArrowUp: the previous suggestion, wrapping from the first (or from no
      highlight) to the last. */
  function PreviousIndex(prev: int, len: nat): (n: int)
    ensures len > 0 && prev <= len ==> 0 <= n < len
    ensures len > 0 && prev <= 0 ==> n == len - 1
    ensures 0 < prev <= len ==> n == prev - 1
  {
    if prev > 0 then prev - 1 else len - 1
  }

  /** ArrowUp undoes ArrowDown and ArrowDown undoes ArrowUp on a highlighted suggestion. */
  lemma UpUndoesDown(i: int, len: nat)
    requires 0 <= i < len
    ensures PreviousIndex(NextIndex(i, len), len) == i
    ensures NextIndex(PreviousIndex(i, len), len) == i
  {
  }

  /** `n` presses of ArrowDown from `i`. */
  function PressDown(i: int, n: nat, len: nat): int {
    if n == 0 then i else NextIndex(PressDown(i, n - 1, len), len)
  }

  /** ArrowDown cycles through the list: up to `len` presses advance by one
      each, wrapping once past the end, so `len` presses come back to `i`. */
  lemma {:induction false} PressDownCycles(i: int, n: nat, len: nat)
    requires 0 <= i < len && n <= len
    ensures PressDown(i, n, len) == if i + n < len then i + n else i + n - len
    ensures n == len ==> PressDown(i, n, len) == i
  {
    if n > 0 {
      PressDownCycles(i, n - 1, len);
    }
  }

  class PlantAutocomplete {
    const maxResults: int
    const directory: Directory
    var inputValue: string
    var suggestions: seq<Suggestion>
    var showSuggestions: bool
    var selectedIndex: int
    var selectedPlant: Option<Suggestion>

    /** The highlight is never below -1, and a shown list is the search for
        the current input. */
    ghost predicate Valid()
      reads this
    {
      && -1 <= selectedIndex
      && (showSuggestions ==> suggestions == Search(inputValue, maxResults, directory))
    }

    /** The component's props; a `maxResults` left out defaults to 10. */
    constructor (maxResults: Option<int>, directory: Directory)
      ensures Valid()
      ensures this.maxResults == maxResults.GetOr(DEFAULT_MAX_RESULTS) && this.directory == directory
      ensures inputValue == "" && suggestions == [] && !showSuggestions
      ensures selectedIndex == -1 && selectedPlant.None?
    {
      this.maxResults := maxResults.GetOr(DEFAULT_MAX_RESULTS);
      this.directory := directory;
      inputValue := "";
      suggestions := [];
      showSuggestions := false;
      selectedIndex := -1;
      selectedPlant := None;
    }

    /** `handleInputChange`: blank input hides and empties the list, forgets
        the plant and emits the empty selection; any other input shows its
        search and removes the highlight. */
    method HandleInputChange(newValue: string) returns (emitted: Option<Selection>)
      requires Valid()
      modifies this
      ensures Valid()
      ensures inputValue == newValue
      ensures Trim(newValue) == "" ==>
        && suggestions == [] && !showSuggestions && selectedPlant.None?
        && selectedIndex == old(selectedIndex)
        && emitted == Some(EMPTY_SELECTION)
      ensures Trim(newValue) != "" ==>
        && suggestions == Search(newValue, maxResults, directory) && showSuggestions
        && selectedIndex == -1 && selectedPlant == old(selectedPlant)
        && emitted.None?
    {
      inputValue := newValue;
      if Trim(newValue) == "" {
        suggestions := [];
        showSuggestions := false;
        selectedPlant := None;
        emitted := Some(EMPTY_SELECTION);
      } else {
        var results := SearchPlants(newValue, maxResults, directory);
        suggestions := results;
        showSuggestions := true;
        selectedIndex := -1;
        emitted := None;
      }
    }

    /** `handleSuggestionClick`: the input shows the plant's Portuguese name,
        the list closes and the plant is emitted. */
    method HandleSuggestionClick(plant: Suggestion) returns (emitted: Option<Selection>)
      requires Valid()
      modifies this
      ensures Valid()
      ensures inputValue == plant.commonNamePt && selectedPlant == Some(plant)
      ensures !showSuggestions && selectedIndex == -1 && suggestions == old(suggestions)
      ensures emitted == Some(SelectionOf(plant))
    {
      inputValue := plant.commonNamePt;
      selectedPlant := Some(plant);
      showSuggestions := false;
      selectedIndex := -1;
      emitted := Some(SelectionOf(plant));
    }

    /** `handleKeyDown`. With the list hidden or empty no key does anything.
        Enter picks the highlighted suggestion, which came from the lookups,
        and does nothing without a highlight. */
    method HandleKeyDown(key: Key) returns (emitted: Option<Selection>)
      requires Valid()
      modifies this
      ensures Valid()
      ensures !old(showSuggestions) || old(|suggestions|) == 0 ==> unchanged(this) && emitted.None?
      ensures old(showSuggestions) && old(|suggestions|) > 0 ==>
        match key
        case ArrowDown =>
          && selectedIndex == NextIndex(old(selectedIndex), old(|suggestions|))
          && inputValue == old(inputValue) && suggestions == old(suggestions) && showSuggestions
          && selectedPlant == old(selectedPlant) && emitted.None?
        case ArrowUp =>
          && selectedIndex == PreviousIndex(old(selectedIndex), old(|suggestions|))
          && inputValue == old(inputValue) && suggestions == old(suggestions) && showSuggestions
          && selectedPlant == old(selectedPlant) && emitted.None?
        case Enter =>
          if 0 <= old(selectedIndex) < old(|suggestions|) then
            var plant := old(suggestions)[old(selectedIndex)];
            && inputValue == plant.commonNamePt && selectedPlant == Some(plant)
            && !showSuggestions && selectedIndex == -1 && suggestions == old(suggestions)
            && emitted == Some(SelectionOf(plant))
          else unchanged(this) && emitted.None?
        case Escape =>
          && !showSuggestions && selectedIndex == -1
          && inputValue == old(inputValue) && suggestions == old(suggestions)
          && selectedPlant == old(selectedPlant) && emitted.None?
        case Other => unchanged(this) && emitted.None?
      ensures emitted.Some? ==>
        && emitted.value.plant.Some?
        && (emitted.value.plant.value in directory.byPortuguese(old(inputValue))
            || emitted.value.plant.value in directory.byScientific(old(inputValue)))
    {
      var list := suggestions;
      if !showSuggestions || |list| == 0 {
        return None;
      }
      emitted := None;
      match key {
        case ArrowDown =>
          selectedIndex := NextIndex(selectedIndex, |list|);
        case ArrowUp =>
          selectedIndex := PreviousIndex(selectedIndex, |list|);
        case Enter =>
          var index := selectedIndex;
          if index >= 0 && index < |list| {
            var plant := list[index];
            SearchFromLookups(inputValue, maxResults, directory);
            assert plant in Search(inputValue, maxResults, directory);
            emitted := HandleSuggestionClick(plant);
          }
        case Escape =>
          showSuggestions := false;
          selectedIndex := -1;
        case Other =>
      }
    }

    /** `handleFocus`: an input of two or more characters shows its search
        again; the highlight is kept. */
    method HandleFocus()
      requires Valid()
      modifies this
      ensures Valid()
      ensures inputValue == old(inputValue) && selectedIndex == old(selectedIndex)
      ensures selectedPlant == old(selectedPlant)
      ensures |inputValue| >= MIN_QUERY_LENGTH ==>
        suggestions == Search(inputValue, maxResults, directory) && showSuggestions
      ensures |inputValue| < MIN_QUERY_LENGTH ==>
        suggestions == old(suggestions) && showSuggestions == old(showSuggestions)
    {
      if |inputValue| >= MIN_QUERY_LENGTH {
        var results := SearchPlants(inputValue, maxResults, directory);
        suggestions := results;
        showSuggestions := true;
      }
    }

    /** `clearSelection`: empties the input and the list, forgets the plant and
        emits the empty selection; the highlight is kept. */
    method ClearSelection() returns (emitted: Option<Selection>)
      requires Valid()
      modifies this
      ensures Valid()
      ensures inputValue == "" && selectedPlant.None? && !showSuggestions && suggestions == []
      ensures selectedIndex == old(selectedIndex)
      ensures emitted == Some(EMPTY_SELECTION)
    {
      inputValue := "";
      selectedPlant := None;
      showSuggestions := false;
      suggestions := [];
      emitted := Some(EMPTY_SELECTION);
    }
  }
}
