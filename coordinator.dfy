/**
 * The component's state and its reactions to events, as values. Each event
 * is one thing the outside world delivers: a keystroke in the input, a
 * debounce timer elapsing, or the outcome of one of the two fetches. The
 * effects that React runs after a state change are folded into the event
 * that caused the change, in the order the component declares them.
 */
module Coordinator {
  import opened Wrappers
  import opened Catalog
  import opened Validator
  import opened Display
  import Debouncer

  /**
   * The component's state. `input` holds `inputValue` (as the watched value),
   * `debouncedInputValue` (as the settled value) and the pending timer.
   * `listPending`, `inFlight` and `detailRequests` record the calls made to
   * the catalog service: whether the index fetch is outstanding, the numbers
   * of the detail fetches not yet answered, and every detail fetch issued.
   */
  datatype AppState = AppState(
    pokemonList: seq<ListItem>,
    error: Option<string>,
    pokemonDetails: Option<Details>,
    input: Debouncer.Debounce<string>,
    searchNumber: int,
    listPending: bool,
    inFlight: multiset<int>,
    detailRequests: seq<int>)

  datatype Event =
    | Keystroke(text: string)
    | TimerElapsed(handle: nat)
    | ListLoaded(items: seq<ListItem>)
    | ListFailed(message: string)
    | DetailsLoaded(id: int, details: Details)
    | DetailsFailed(id: int, message: string)

  const InitialInput: string := "1"
  const InitialSearchNumber: int := 1

  /** `if (error)`: a null or empty message does not count as an error. */
  predicate ErrorShown(st: AppState) {
    st.error.Some? && st.error.value != ""
  }

  /** Start of `loadPokemonList`: the error is cleared and the index is requested. */
  function StartListLoad(st: AppState): AppState {
    st.(error := None, listPending := true)
  }

  /** Start of `loadPokemonDetails(id)`: the error is cleared and record `id` is requested. */
  function StartDetailLoad(st: AppState, id: int): AppState {
    st.(error := None, inFlight := st.inFlight + multiset{id}, detailRequests := st.detailRequests + [id])
  }

  /** `setSearchNumber(n)` followed by the detail effect, which depends on the number. */
  function SetSearchNumber(st: AppState, n: int): AppState {
    if n == st.searchNumber then st
    else if n != 0 then StartDetailLoad(st.(searchNumber := n), n)
    else st.(searchNumber := n)
  }

  /** The validator effect on the settled input. */
  function ApplySettledInput(st: AppState): AppState {
    match Validate(st.input.settled)
    case Some(n) => SetSearchNumber(st, n)
    case None => st
  }

  /** The first render and its effects, in declaration order: debounce, index, detail, validator. */
  function Mount(): AppState {
    var st := AppState([], None, None, Debouncer.Start(InitialInput), InitialSearchNumber, false, multiset{}, []);
    var st := StartListLoad(st);
    var st := if st.searchNumber != 0 then StartDetailLoad(st, st.searchNumber) else st;
    ApplySettledInput(st)
  }

  /**
   * Which events can happen in a state: keystrokes only while the input is
   * on screen, a timer only if it was once armed, and a fetch outcome only
   * for a fetch that is outstanding.
   */
  predicate Enabled(st: AppState, ev: Event) {
    match ev
    case Keystroke(_) => !ErrorShown(st)
    case TimerElapsed(h) => h < st.input.nextHandle
    case ListLoaded(_) => st.listPending
    case ListFailed(_) => st.listPending
    case DetailsLoaded(id, _) => id in st.inFlight
    case DetailsFailed(id, _) => id in st.inFlight
  }

  /** One event and the effects it triggers. An event that cannot happen changes nothing. */
  function Step(st: AppState, ev: Event): AppState {
    if !Enabled(st, ev) then st
    else match ev
      case Keystroke(v) =>
        st.(input := Debouncer.Change(st.input, v))
      case TimerElapsed(h) =>
        var d := Debouncer.Elapse(st.input, h);
        if d.settled == st.input.settled then st.(input := d)
        else ApplySettledInput(st.(input := d))
      case ListLoaded(items) =>
        st.(pokemonList := items, listPending := false)
      case ListFailed(m) =>
        st.(error := Some(m), listPending := false)
      case DetailsLoaded(id, d) =>
        st.(pokemonDetails := Some(d), inFlight := st.inFlight - multiset{id})
      case DetailsFailed(id, m) =>
        st.(error := Some(m), pokemonDetails := None, inFlight := st.inFlight - multiset{id})
  }

  function Run(st: AppState, evs: seq<Event>): AppState
    decreases |evs|
  {
    if evs == [] then st else Run(Step(st, evs[0]), evs[1..])
  }

  /** What the user sees. */
  datatype Screen =
    | ErrorScreen(message: string)
    | MainScreen(inputValue: string, detail: Option<Panel>, list: seq<ListLine>)

  function View(st: AppState): Screen {
    if ErrorShown(st) then ErrorScreen(st.error.value)
    else MainScreen(
      st.input.value,
      if st.pokemonDetails.Some? then Some(DetailPanel(st.pokemonDetails.value)) else None,
      ListDisplay(st.pokemonList))
  }

  /**
   * What holds in every reachable state: the debouncer is consistent; the
   * key is in range and agrees with the settled text whenever that text is
   * valid; the most recent detail fetch is for the current key and no two
   * successive fetches are for the same key; only issued fetches are
   * outstanding; and the index is empty until its fetch is answered.
   */
  ghost predicate Inv(st: AppState) {
    && Debouncer.Valid(st.input)
    && MinKey <= st.searchNumber <= MaxKey
    && (Validate(st.input.settled).Some? ==> st.searchNumber == Validate(st.input.settled).value)
    && RequestLogOk(st)
    && (st.listPending ==> st.pokemonList == [])
  }

  /**
   * The detail fetches issued so far: the last one is for the current key,
   * no two successive ones are for the same key, and only issued fetches
   * are outstanding.
   */
  ghost predicate RequestLogOk(st: AppState) {
    && st.detailRequests != []
    && st.detailRequests[|st.detailRequests| - 1] == st.searchNumber
    && (forall i :: 0 < i < |st.detailRequests| ==> st.detailRequests[i - 1] != st.detailRequests[i])
    && (forall id :: id in st.inFlight ==> id in st.detailRequests)
  }

  /** Mounting fetches the index and record 1 and arms the first debounce timer. */
  lemma MountState()
    ensures Inv(Mount())
    ensures Mount().searchNumber == 1 && Mount().detailRequests == [1] && Mount().inFlight == multiset{1}
    ensures Mount().listPending && Mount().pokemonList == [] && Mount().error == None
    ensures Mount().input == Debouncer.Start(InitialInput)
  {
    ValidateAcceptsBoundaries();
  }

  lemma SetSearchNumberKeepsRequestLog(st: AppState, n: int)
    requires RequestLogOk(st) && n != 0
    ensures SetSearchNumber(st, n).searchNumber == n
    ensures n == st.searchNumber ==> SetSearchNumber(st, n) == st
    ensures n != st.searchNumber ==> SetSearchNumber(st, n).detailRequests == st.detailRequests + [n]
    ensures RequestLogOk(SetSearchNumber(st, n))
  {
    if n != st.searchNumber {
      var r := SetSearchNumber(st, n);
      assert r.detailRequests == st.detailRequests + [n];
    }
  }

  /** A timer settling a new text either leaves the key or moves it to the validated text, fetching it. */
  lemma TimerPreservesInv(st: AppState, h: nat)
    requires Inv(st)
    ensures Inv(Step(st, TimerElapsed(h)))
  {
    var d := Debouncer.Elapse(st.input, h);
    if h < st.input.nextHandle && d.settled != st.input.settled {
      var st' := st.(input := d);
      assert RequestLogOk(st');
      match Validate(d.settled)
      case Some(n) => SetSearchNumberKeepsRequestLog(st', n);
      case None =>
    }
  }

  /** An answer to an outstanding detail fetch: the record is replaced and the fetch is no longer outstanding. */
  lemma StepAnswersDetails(st: AppState, ev: Event)
    requires Inv(st) && (ev.DetailsLoaded? || ev.DetailsFailed?) && ev.id in st.inFlight
    ensures var r := Step(st, ev);
            && Inv(r)
            && r.inFlight == st.inFlight - multiset{ev.id}
            && r == (if ev.DetailsLoaded? then st.(pokemonDetails := Some(ev.details), inFlight := r.inFlight)
                     else st.(error := Some(ev.message), pokemonDetails := None, inFlight := r.inFlight))
  {
    var r := Step(st, ev);
    assert forall id :: id in r.inFlight ==> id in st.inFlight;
    assert RequestLogOk(r);
  }

  lemma StepPreservesInv(st: AppState, ev: Event)
    requires Inv(st)
    ensures Inv(Step(st, ev))
  {
    if Enabled(st, ev) {
      match ev
      case TimerElapsed(h) => TimerPreservesInv(st, h);
      case DetailsLoaded(id, _) => StepAnswersDetails(st, ev);
      case DetailsFailed(id, _) => StepAnswersDetails(st, ev);
      case _ =>
    }
  }

  lemma {:induction false} RunPreservesInv(st: AppState, evs: seq<Event>)
    requires Inv(st)
    ensures Inv(Run(st, evs))
    decreases |evs|
  {
    if evs != [] {
      StepPreservesInv(st, evs[0]);
      RunPreservesInv(Step(st, evs[0]), evs[1..]);
    }
  }

  /** Every state reached from the mounted component satisfies the invariant. */
  lemma ReachableInv(evs: seq<Event>)
    ensures Inv(Run(Mount(), evs))
  {
    MountState();
    RunPreservesInv(Mount(), evs);
  }

  /**
   * A detail fetch is issued exactly when the key changes, and it is for the
   * new key; issuing it clears the error and keeps the displayed record.
   */
  lemma FetchIssuedOnlyOnKeyChange(st: AppState, ev: Event)
    ensures var r := Step(st, ev);
            if r.searchNumber == st.searchNumber then r.detailRequests == st.detailRequests
            else (r.detailRequests == st.detailRequests + [r.searchNumber]
                  && r.error == None && r.pokemonDetails == st.pokemonDetails)
  {
  }

  /** The key changes only when a timer settles the current input text and that text validates to the new key. */
  lemma KeyChangesOnlyOnValidSettle(st: AppState, ev: Event)
    requires Inv(st)
    ensures var r := Step(st, ev);
            r.searchNumber != st.searchNumber ==>
              && ev.TimerElapsed?
              && r.input.settled == st.input.value
              && Validate(r.input.settled) == Some(r.searchNumber)
  {
  }

  /**
   * Settling a text that does not validate ("", "abc", "0", "1026") leaves
   * the key, the record, the error and the fetches as they were.
   */
  lemma RejectedTextChangesNothing(st: AppState, h: nat)
    requires Validate(Step(st, TimerElapsed(h)).input.settled).None?
    ensures Step(st, TimerElapsed(h)) == st.(input := Step(st, TimerElapsed(h)).input)
    ensures var r := Step(st, TimerElapsed(h));
            && r.searchNumber == st.searchNumber
            && r.pokemonDetails == st.pokemonDetails
            && r.error == st.error
            && r.detailRequests == st.detailRequests
            && r.inFlight == st.inFlight
  {
  }

  /** The keystroke events for typing the texts `vs`, one after the other. */
  function Typing(vs: seq<string>): (evs: seq<Event>)
    ensures |evs| == |vs|
    ensures forall i :: 0 <= i < |vs| ==> evs[i] == Keystroke(vs[i])
  {
    if vs == [] then [] else [Keystroke(vs[0])] + Typing(vs[1..])
  }

  lemma {:induction false} RunAppend(st: AppState, a: seq<Event>, b: seq<Event>)
    ensures Run(st, a + b) == Run(Run(st, a), b)
    decreases |a|
  {
    if a != [] {
      assert (a + b)[0] == a[0];
      assert (a + b)[1..] == a[1..] + b;
      RunAppend(Step(st, a[0]), a[1..], b);
    } else {
      assert a + b == b;
    }
  }

  /** Keystrokes only feed the debouncer: nothing else in the state changes while typing. */
  lemma {:induction false} TypingOnlyFeedsDebouncer(st: AppState, vs: seq<string>)
    requires !ErrorShown(st)
    ensures Run(st, Typing(vs)) == st.(input := Debouncer.Changes(st.input, vs))
    decreases |vs|
  {
    if vs != [] {
      var evs := Typing(vs);
      assert evs[1..] == Typing(vs[1..]);
      TypingOnlyFeedsDebouncer(Step(st, Keystroke(vs[0])), vs[1..]);
    }
  }

  /**
   * However many texts are typed within one debounce window, the timer that
   * then elapses issues at most one detail fetch, and only for the key the
   * last text validates to.
   */
  lemma BurstFetchesAtMostOnce(st: AppState, vs: seq<string>, h: nat)
    requires Inv(st) && !ErrorShown(st) && vs != []
    ensures var r := Run(st, Typing(vs) + [TimerElapsed(h)]);
            || r.detailRequests == st.detailRequests
            || (r.detailRequests == st.detailRequests + [r.searchNumber]
                && Validate(vs[|vs| - 1]) == Some(r.searchNumber))
  {
    var typed := Run(st, Typing(vs));
    RunAppend(st, Typing(vs), [TimerElapsed(h)]);
    RunOne(typed, TimerElapsed(h));
    TypingOnlyFeedsDebouncer(st, vs);
    Debouncer.ChangesKeepSettled(st.input, vs);
    assert typed.input.value == vs[|vs| - 1] && typed.detailRequests == st.detailRequests;
    RunPreservesInv(st, Typing(vs));
    FetchIssuedOnlyOnKeyChange(typed, TimerElapsed(h));
    KeyChangesOnlyOnValidSettle(typed, TimerElapsed(h));
  }

  lemma RunOne(st: AppState, a: Event)
    ensures Run(st, [a]) == Step(st, a)
  {
    assert [a][1..] == [];
  }

  lemma RunTwo(st: AppState, a: Event, b: Event)
    ensures Run(st, [a, b]) == Step(Step(st, a), b)
  {
    assert [a, b][1..] == [b];
    RunOne(Step(st, a), b);
  }

  /**
   * Right after mounting, typing a text and correcting it before the delay
   * elapses (say "99999" then "99") fetches only the corrected key: the
   * fetches are record 1 from mounting and then the corrected key, even when
   * the first text was a valid key too.
   */
  lemma CorrectedTypoFetchesOnce(typo: string, fix: string, n: int)
    requires typo != InitialInput && fix != typo
    requires Validate(fix) == Some(n) && n != InitialSearchNumber
    ensures var r := Run(Mount(), Typing([typo, fix]) + [TimerElapsed(2)]);
            r.detailRequests == [1, n] && r.searchNumber == n
  {
    MountState();
    TypoThenFix(Mount(), typo, fix, n);
  }

  lemma TypoThenFix(s0: AppState, typo: string, fix: string, n: int)
    requires s0.input == Debouncer.Start(InitialInput) && s0.error == None
    requires s0.searchNumber == InitialSearchNumber && s0.detailRequests == [1]
    requires typo != InitialInput && fix != typo
    requires Validate(fix) == Some(n) && n != InitialSearchNumber
    ensures var r := Run(s0, Typing([typo, fix]) + [TimerElapsed(2)]);
            r.detailRequests == [1, n] && r.searchNumber == n
  {
    var s2 := Step(Step(s0, Keystroke(typo)), Keystroke(fix));
    assert s2 == s0.(input := Debouncer.Debounce(fix, InitialInput, Some(Debouncer.Timer(2, fix)), 3));
    var s3 := Step(s2, TimerElapsed(2));
    assert s3.detailRequests == [1, n];
    assert Typing([typo, fix]) == [Keystroke(typo), Keystroke(fix)];
    RunAppend(s0, Typing([typo, fix]), [TimerElapsed(2)]);
    RunTwo(s0, Keystroke(typo), Keystroke(fix));
    RunOne(s2, TimerElapsed(2));
  }

  /** A record is displayed as soon as its fetch answers, whatever the current key is. */
  lemma DetailsAppliedUnconditionally(st: AppState, id: int, d: Details)
    requires id in st.inFlight
    ensures Step(st, DetailsLoaded(id, d)).pokemonDetails == Some(d)
    ensures Step(st, DetailsLoaded(id, d)).searchNumber == st.searchNumber
    ensures Step(st, DetailsLoaded(id, d)).error == st.error
  {
  }

  /**
   * The race the component tolerates: the key moves from 1 to n (typing
   * "25", say), the answer for n arrives first and the late answer for 1
   * then replaces it, so record 1 is displayed while the key is n.
   */
  lemma StaleAnswerOverwritesNewer(text: string, n: int, first: Details, second: Details)
    requires text != InitialInput && Validate(text) == Some(n) && n != InitialSearchNumber
    ensures var r := Run(Mount(), [Keystroke(text), TimerElapsed(1)] + [DetailsLoaded(n, second), DetailsLoaded(1, first)]);
            r.searchNumber == n && r.pokemonDetails == Some(first)
  {
    MountState();
    LateAnswerWins(Mount(), text, n, first, second);
  }

  lemma LateAnswerWins(s0: AppState, text: string, n: int, first: Details, second: Details)
    requires s0.input == Debouncer.Start(InitialInput) && s0.error == None
    requires s0.searchNumber == InitialSearchNumber && s0.inFlight == multiset{1} && s0.detailRequests == [1]
    requires text != InitialInput && Validate(text) == Some(n) && n != InitialSearchNumber
    ensures var r := Run(s0, [Keystroke(text), TimerElapsed(1)] + [DetailsLoaded(n, second), DetailsLoaded(1, first)]);
            r.searchNumber == n && r.pokemonDetails == Some(first)
  {
    var s2 := Step(Step(s0, Keystroke(text)), TimerElapsed(1));
    assert s2.searchNumber == n && s2.inFlight == multiset{1, n};
    var s3 := Step(s2, DetailsLoaded(n, second));
    assert s3.inFlight == multiset{1};
    RunAppend(s0, [Keystroke(text), TimerElapsed(1)], [DetailsLoaded(n, second), DetailsLoaded(1, first)]);
    RunTwo(s0, Keystroke(text), TimerElapsed(1));
    RunTwo(s2, DetailsLoaded(n, second), DetailsLoaded(1, first));
  }

  /**
   * A non-empty error replaces the whole screen; otherwise the input, the
   * record if any, and the index in order are shown.
   */
  lemma ErrorReplacesView(st: AppState)
    ensures View(st).ErrorScreen? <==> ErrorShown(st)
    ensures ErrorShown(st) ==> View(st) == ErrorScreen(st.error.value)
    ensures !ErrorShown(st) ==> View(st).list == ListDisplay(st.pokemonList)
    ensures !ErrorShown(st) ==> View(st).inputValue == st.input.value
    ensures !ErrorShown(st) ==> (View(st).detail.Some? <==> st.pokemonDetails.Some?)
    ensures !ErrorShown(st) && st.pokemonDetails.Some? ==> View(st).detail == Some(DetailPanel(st.pokemonDetails.value))
  {
  }

  /**
   * Either fetch failing with a non-empty message replaces the whole screen,
   * the index included, by that message; a failed detail fetch also drops
   * the record.
   */
  lemma FailureReplacesScreen(st: AppState, ev: Event)
    requires Enabled(st, ev)
    requires (ev.ListFailed? || ev.DetailsFailed?) && ev.message != ""
    ensures View(Step(st, ev)) == ErrorScreen(ev.message)
    ensures ev.DetailsFailed? ==> Step(st, ev).pokemonDetails == None
    ensures Step(st, ev).pokemonList == st.pokemonList
  {
  }

  /** The error is cleared only by issuing a new detail fetch; no answer clears it. */
  lemma ErrorClearedOnlyByNewFetch(st: AppState, ev: Event)
    requires st.error.Some? && Step(st, ev).error.None?
    ensures |Step(st, ev).detailRequests| == |st.detailRequests| + 1
  {
  }

  /** While an error is shown the input is gone, so keystrokes cannot change anything. */
  lemma NoTypingOnErrorScreen(st: AppState, v: string)
    requires ErrorShown(st)
    ensures Step(st, Keystroke(v)) == st
  {
  }

  /**
   * The index is fetched once: a success installs the fetched entries in
   * order, a failure leaves it empty, and once answered it never changes.
   */
  lemma IndexLoadedOnce(st: AppState, ev: Event)
    requires Inv(st)
    ensures !st.listPending ==> !Step(st, ev).listPending && Step(st, ev).pokemonList == st.pokemonList
    ensures st.listPending && ev.ListLoaded? ==> Step(st, ev).pokemonList == ev.items
    ensures st.listPending && ev.ListFailed? ==> Step(st, ev).pokemonList == []
  {
  }
}
