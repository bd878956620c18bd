/**
 * The `App` component as an object: its state variables are fields, each
 * effect body and each callback is a method that updates them in place, and
 * each event the outside world delivers is one public method that runs the
 * effects that event triggers. Every event method is proved to move the
 * object exactly as `Coordinator.Step` moves the state value, so everything
 * proved about `Step`, `Run` and `Inv` holds of the object.
 */
module Component {
  import opened Wrappers
  import opened Catalog
  import JsParse
  import Validator
  import Debouncer
  import opened Coordinator

  class App {
    var pokemonList: seq<ListItem>
    var error: Option<string>
    var pokemonDetails: Option<Details>
    var inputValue: string
    /** The `useDebounce` hook's state and its one uncleared timer. */
    var debouncedValue: string
    var pendingTimer: Option<Debouncer.Timer<string>>
    var nextHandle: nat
    var searchNumber: int
    /** The calls made to the catalog service (see `Coordinator.AppState`). */
    var listPending: bool
    var inFlight: multiset<int>
    var detailRequests: seq<int>

    /** The fields as one state value. */
    function State(): AppState
      reads this
    {
      AppState(pokemonList, error, pokemonDetails,
        Debouncer.Debounce(inputValue, debouncedValue, pendingTimer, nextHandle),
        searchNumber, listPending, inFlight, detailRequests)
    }

    ghost predicate Valid()
      reads this
    {
      Inv(State())
    }

    /** The first render and its effects: debounce, index, detail, validator. */
    constructor ()
      ensures State() == Mount() && Valid()
      ensures searchNumber == 1 && detailRequests == [1] && listPending
    {
      pokemonList := [];
      error := None;
      pokemonDetails := None;
      inputValue := InitialInput;
      debouncedValue := InitialInput;
      searchNumber := InitialSearchNumber;
      listPending := false;
      inFlight := multiset{};
      detailRequests := [];
      pendingTimer := Some(Debouncer.Timer(0, InitialInput));
      nextHandle := 1;
      new;
      LoadPokemonList();
      if searchNumber != 0 {
        LoadPokemonDetails(searchNumber);
      }
      ApplySettledInput();
      MountState();
    }

    /**
     * `loadPokemonList` up to the `await`: clear the error and request the index.
     * A step of an event's effects, called only from the constructor and
     * the event methods; `Valid()` need not hold before or after it.
     */
    method LoadPokemonList()
      modifies this
      ensures State() == StartListLoad(old(State()))
    {
      error := None;
      listPending := true;
    }

    /**
     * `loadPokemonDetails(id)` up to the `await`: clear the error and request record `id`.
     * A step of an event's effects, called only from the constructor and
     * the event methods; `Valid()` need not hold before or after it.
     */
    method LoadPokemonDetails(id: int)
      modifies this
      ensures State() == StartDetailLoad(old(State()), id)
    {
      error := None;
      inFlight := inFlight + multiset{id};
      detailRequests := detailRequests + [id];
    }

    /**
     * `setSearchNumber(n)`; a new number re-runs the detail effect.
     * A step of an event's effects, called only from the constructor and
     * the event methods; `Valid()` need not hold before or after it.
     */
    method SetSearchNumber(n: int)
      modifies this
      ensures State() == Coordinator.SetSearchNumber(old(State()), n)
    {
      if n != searchNumber {
        searchNumber := n;
        if searchNumber != 0 {
          LoadPokemonDetails(searchNumber);
        }
      }
    }

    /**
     * The validator effect: parse the settled text and adopt it as the key when in range.
     * A step of an event's effects, called only from the constructor and
     * the event methods; `Valid()` need not hold before or after it.
     */
    method ApplySettledInput()
      modifies this
      ensures State() == Coordinator.ApplySettledInput(old(State()))
    {
      var parsedNumber := JsParse.ParseInt(debouncedValue);
      if parsedNumber.Some? && parsedNumber.value >= Validator.MinKey && parsedNumber.value <= Validator.MaxKey {
        SetSearchNumber(parsedNumber.value);
      }
    }

    /**
     * `handleInputChange`: the input shows `v`; a new value clears the
     * pending timer and arms a fresh one that carries `v`.
     */
    method HandleInputChange(v: string)
      requires Valid() && !ErrorShown(State())
      modifies this
      ensures State() == Step(old(State()), Keystroke(v)) && Valid()
      ensures inputValue == v && debouncedValue == old(debouncedValue) && searchNumber == old(searchNumber)
      ensures v != old(inputValue) ==> pendingTimer == Some(Debouncer.Timer(old(nextHandle), v))
    {
      if v != inputValue {
        inputValue := v;
        pendingTimer := Some(Debouncer.Timer(nextHandle, v));
        nextHandle := nextHandle + 1;
      }
      StepPreservesInv(old(State()), Keystroke(v));
    }

    /**
     * Timer `h` elapses. Only the uncleared timer runs its callback; a new
     * settled value re-runs the validator effect.
     */
    method TimerElapsed(h: nat)
      requires Valid() && h < nextHandle
      modifies this
      ensures State() == Step(old(State()), Coordinator.TimerElapsed(h)) && Valid()
      ensures inputValue == old(inputValue) && pokemonDetails == old(pokemonDetails)
    {
      ghost var st := State();
      TimerPreservesInv(st, h);
      if pendingTimer.Some? && pendingTimer.value.handle == h {
        var v := pendingTimer.value.value;
        pendingTimer := None;
        if v != debouncedValue {
          debouncedValue := v;
          ApplySettledInput();
        }
      }
    }

    /** The index fetch answers with `items`. */
    method PokemonListLoaded(items: seq<ListItem>)
      requires Valid() && listPending
      modifies this
      ensures State() == Step(old(State()), ListLoaded(items)) && Valid()
      ensures pokemonList == items && !listPending
    {
      pokemonList := items;
      listPending := false;
      StepPreservesInv(old(State()), ListLoaded(items));
    }

    /** The index fetch fails with `message`. */
    method PokemonListFailed(message: string)
      requires Valid() && listPending
      modifies this
      ensures State() == Step(old(State()), ListFailed(message)) && Valid()
      ensures error == Some(message) && !listPending
    {
      error := Some(message);
      listPending := false;
      StepPreservesInv(old(State()), ListFailed(message));
    }

    /** The fetch of record `id` answers with `d`, which is displayed whatever the key now is. */
    method PokemonDetailsLoaded(id: int, d: Details)
      requires Valid() && id in inFlight
      modifies this
      ensures State() == Step(old(State()), DetailsLoaded(id, d)) && Valid()
      ensures pokemonDetails == Some(d) && searchNumber == old(searchNumber)
    {
      ghost var st := State();
      StepAnswersDetails(st, DetailsLoaded(id, d));
      ghost var r := Step(st, DetailsLoaded(id, d));
      pokemonDetails := Some(d);
      inFlight := inFlight - multiset{id};
      assert State() == r;
    }

    /** The fetch of record `id` fails with `message`: the error is set and the record dropped. */
    method PokemonDetailsFailed(id: int, message: string)
      requires Valid() && id in inFlight
      modifies this
      ensures State() == Step(old(State()), DetailsFailed(id, message)) && Valid()
      ensures error == Some(message) && pokemonDetails == None
    {
      ghost var st := State();
      StepAnswersDetails(st, DetailsFailed(id, message));
      ghost var r := Step(st, DetailsFailed(id, message));
      error := Some(message);
      pokemonDetails := None;
      inFlight := inFlight - multiset{id};
      assert State() == r;
    }

    /** The render: an error screen or the input, record and index. */
    method Render() returns (screen: Screen)
      ensures screen == View(State())
      ensures ErrorShown(State()) <==> screen.ErrorScreen?
      ensures screen.MainScreen? ==> screen.inputValue == inputValue && |screen.list| == |pokemonList|
    {
      if error.Some? && error.value != "" {
        screen := ErrorScreen(error.value);
      } else {
        var detail := if pokemonDetails.Some? then Some(Display.DetailPanel(pokemonDetails.value)) else None;
        screen := MainScreen(inputValue, detail, Display.ListDisplay(pokemonList));
      }
    }
  }
}
