# Pokédex lookup component — a Dafny model

The `App` component of this Pokédex (`src/App.tsx`) lets a user type a number.
After a debounce delay it turns that number into a lookup key in the range
1..1025 and fetches the matching record from the catalog service. The full
index of records, fetched once on mount, is shown beside it. This project
models the component's core:

- `JsParse`: JavaScript's `parseInt(s, 10)` as the component uses it, and its
  partner, the decimal rendering `String(n)` of integers below 10^21 in
  magnitude.
- `Validator`: the effect that turns the settled text into a key when it is in
  1..1025.
- `Debouncer`: the `useDebounce` hook as a one-slot timer machine. A timer
  elapsing is an event that names its handle. Time itself is not modelled.
- `Catalog`: the records the service returns.
- `Display`: the pure rendering helpers. These are `capitalizeFirstLetter`,
  the index list, the type list, the image-source fallback, the alt text and
  the `#id` label.
- `Coordinator`: the component's state as a value, and one `Step` per event.
  The events are a keystroke, a debounce timer elapsing, and the answer or
  failure of the index fetch or of one detail fetch. `Step` also runs the
  effects the event triggers, in the order the component declares them.
  `Inv` holds in every reachable state, and the properties of the
  interaction are lemmas over `Step` and `Run`.
- `Component`: the component as a class, `App`. Its state variables are
  fields, and each effect body and callback is a method that updates them.
  Each event method is proved to move the object exactly as `Coordinator.Step`
  moves the state value, and to keep `Inv`.

Several React behaviours are modelled explicitly:

- Setting a state variable to the value it already has does not re-render.
  The effects that depend on it therefore do not run again. So a keystroke
  that leaves the text as it was arms no new timer. A timer that settles the
  text already settled does not run the validator again. Setting the key it
  already has issues no fetch.
- When `error` is truthy the input is not rendered. So keystrokes can only
  arrive while no error is shown.
- `if (error)` tests JavaScript truthiness, so an empty message shows the
  normal screen.
- Answers are applied whatever the current key is. The model keeps that race:
  a late answer for an earlier key replaces the record of the current key
  (`Coordinator.StaleAnswerOverwritesNewer`).

Two consequences of the code are worth stating:

- `parseInt` stops at the dot, so a settled "25.7" becomes key 25
  (`Validator.ValidateIgnoresTail`).
- A failed detail fetch sets `error`, and a truthy `error` replaces the whole
  screen, the index included (`Coordinator.FailureReplacesScreen`).

## Model

| member | source | states |
|---|---|---|
| JsParse.LeadingDigits | src/App.tsx:80 | the digits `parseInt` reads: the longest prefix of the text made only of decimal digits |
| JsParse.ParseInt | src/App.tsx:80 | definition of `parseInt(s, 10)`: skip white space, take one optional sign, read the leading digits, NaN (`None`) when there are none; its meaning on every input is stated by `ParseIntReadsLeadingInteger` and `ParseIntWithoutDigits`, its round trip by `ParseIntOfIntToString` |
| JsParse.Decimal | src/App.tsx:112 | the rendering of a natural number is a non-empty digit string whose value is the number, with no leading zero |
| JsParse.IntToString | src/App.tsx:112 | the rendering starts with "-" exactly for a negative number; the rest is a non-empty digit string whose value is the magnitude, with no leading zero |
| JsParse.ParseIntSkipsWhitespace | src/App.tsx:80 | `parseInt` ignores any leading white space and line terminators |
| JsParse.LeadingDigitsStopsAtNonDigit | src/App.tsx:80 | reading digits stops at the first character that is not a digit |
| JsParse.ParseSignedReadsDigits | src/App.tsx:80 | after the white space, an optional sign and a run of digits give the signed value of the digits, whatever follows them |
| JsParse.ParseIntReadsLeadingInteger | src/App.tsx:80 | white space, an optional sign, digits and a tail not starting with a digit parse as the signed value of the digits; the tail is ignored |
| JsParse.ParseIntWithoutDigits | src/App.tsx:80-81 | when no digit follows the white space and the optional sign, the result is NaN |
| JsParse.ParseIntOfDigits | src/App.tsx:80 | a run of digits followed by a non-digit tail parses as its value |
| JsParse.ParseIntOfDecimal | src/App.tsx:80 | the decimal rendering of n, followed by any tail that does not start with a digit, parses back to n |
| JsParse.ParseIntOfIntToString | src/App.tsx:80 | rendering any integer and parsing it back gives the same integer |
| JsParse.DigitsValueLeadingZero | src/App.tsx:80 | a leading zero does not change the value of the digits read, so "007" reads as 7 |
| Validator.Validate | src/App.tsx:79-84 | a key is produced only when `parseInt` gives a number in 1..1025, and it is that number; otherwise the key is left alone |
| Validator.ValidateLeadingInteger | src/App.tsx:80-82 | a text made of white space, a sign, digits and a tail gives key n exactly when its signed value n is in 1..1025 |
| Validator.ValidateRejectsNonNumeric | src/App.tsx:81 | a text with no digit after the white space and the sign never changes the key |
| Validator.ValidateDecimal | src/App.tsx:79-84 | typing the digits of n, with any non-digit tail, gives key n exactly when n is in 1..1025 |
| Validator.ValidateAcceptsBoundaries | src/App.tsx:81 | "1" and "1025" are accepted |
| Validator.ValidateRejectsBeyondBoundaries | src/App.tsx:81 | "0" and "1026" are rejected |
| Validator.ValidateIgnoresTail | src/App.tsx:80 | "12x" gives 12 and "25.7" gives 25 |
| Validator.ValidateRejectsText | src/App.tsx:81 | "" and "abc" are rejected |
| Validator.ValidateSampleKeys | src/App.tsx:79-84 | "25" and "99" are accepted and "99999" is rejected |
| Debouncer.Start | src/App.tsx:40-45 | on mount, the settled value is the initial value and one timer carrying it is armed |
| Debouncer.Change | src/App.tsx:42-50 | a render keeps the debouncer consistent, watches the new value and leaves the settled value unchanged |
| Debouncer.Elapse | src/App.tsx:43-45 | a timer elapsing keeps the debouncer consistent and changes neither the watched value nor the handle counter |
| Debouncer.ChangeArmsFreshTimer | src/App.tsx:42-50 | a new value clears the pending timer and arms a fresh one that carries the value |
| Debouncer.ClearedTimerNeverFires | src/App.tsx:47-49 | after a change, every timer armed earlier elapses without effect |
| Debouncer.TimerFiresOnce | src/App.tsx:43-45 | a timer settles its value at most once |
| Debouncer.ElapseSettlesWatchedValue | src/App.tsx:43-45 | when the pending timer elapses, the settled value becomes the watched value and nothing is pending |
| Debouncer.ChangesKeepSettled | src/App.tsx:40-53 | a burst of changes settles nothing, keeps the debouncer consistent and leaves the last value watched |
| Debouncer.BurstSettlesOnlyLast | src/App.tsx:40-53 | after a burst, whichever timer elapses, only the last value of the burst can become settled |
| Display.UpperAscii | src/App.tsx:90 | a lower-case ASCII letter maps to its upper-case letter; any other character is unchanged |
| Display.Capitalize | src/App.tsx:86-91 | the length is kept; the first character is upper-cased and the rest is kept |
| Display.CapitalizeIdempotent | src/App.tsx:86-91 | capitalising twice is the same as capitalising once, and a result never starts with a lower-case letter |
| Display.CapitalizeChangesOnlyLowerStart | src/App.tsx:86-91 | capitalising changes a string exactly when it starts with a lower-case ASCII letter |
| Display.ListDisplay | src/App.tsx:136-139 | the index shows one line per record, in the service's order, keyed by the name and showing the name capitalised |
| Display.TypesDisplay | src/App.tsx:124-128 | the type list shows one line per type entry, in order, keyed by its slot and with the name capitalised |
| Display.ImageSourceFallback | src/App.tsx:114-117 | the home artwork is used when present, otherwise the front sprite; an image source exists exactly when one of the two does |
| Display.ImageSource | src/App.tsx:114-117 | definition of the image source as the home artwork when it is truthy, else the front sprite (a JavaScript "or"); its behaviour is stated by `ImageSourceFallback` |
| Display.AltText | src/App.tsx:118 | the alt text is the name when the name is non-empty and "Pokémon image" when it is empty |
| Display.IdLabelRoundTrip | src/App.tsx:112 | the label under the title is "#" followed by text that parses back to the record's id |
| Display.IdLabel | src/App.tsx:112 | definition of the `#id` heading as "#" and the decimal rendering of the id; `IdLabelRoundTrip` states that it reads back as the id |
| Display.DetailPanel | src/App.tsx:108-131 | definition of the detail panel: capitalised name, `#id` label, image source, alt text and type lines; its parts are stated by `Capitalize`, `IdLabelRoundTrip`, `ImageSourceFallback`, `AltText`, `TypesDisplay` and `DetailPanelExample` |
| Display.ListDisplayExample | src/App.tsx:136-139 | the index ["bulbasaur", "ivysaur"] displays as "Bulbasaur" and "Ivysaur", keyed by the names |
| Display.DetailPanelExample | src/App.tsx:108-131 | record 25 "pikachu" of type "electric" shows "Pikachu", "#25" and ["Electric"] |
| Coordinator.MountState | src/App.tsx:11-84 | mounting fetches the index and record 1, arms the first timer, and satisfies the invariant |
| Coordinator.StartListLoad | src/App.tsx:24-28 | definition of `loadPokemonList` up to the `await`: the error is cleared and the index is requested; used by `Mount`, whose result `MountState` states |
| Coordinator.StartDetailLoad | src/App.tsx:57-61 | definition of `loadPokemonDetails(id)` up to the `await`: the error is cleared and record `id` is requested; its effect on the request log is stated by `SetSearchNumberKeepsRequestLog` and `FetchIssuedOnlyOnKeyChange` |
| Coordinator.SetSearchNumber | src/App.tsx:55-73 | definition of `setSearchNumber(n)` followed by the detail effect, which runs only when the number changes; stated by `SetSearchNumberKeepsRequestLog` |
| Coordinator.ApplySettledInput | src/App.tsx:79-84 | definition of the validator effect: the key moves to `Validate` of the settled text when that is a key; stated by `KeyChangesOnlyOnValidSettle` and `RejectedTextChangesNothing` |
| Coordinator.Mount | src/App.tsx:11-84 | definition of the first render's effects in hook order: debounce, index, detail, validator; stated by `MountState` |
| Coordinator.Enabled | src/App.tsx:95-107 | definition of which events can occur: keystrokes only while the input is on screen, a timer only once armed, an answer only for an outstanding fetch; used by `NoTypingOnErrorScreen` and the event methods of `Component.App` |
| Coordinator.Step | src/App.tsx:23-84 | definition of one event and the effects it triggers; its properties are stated by `StepPreservesInv`, `FetchIssuedOnlyOnKeyChange`, `KeyChangesOnlyOnValidSettle`, `StepAnswersDetails`, `DetailsAppliedUnconditionally`, `FailureReplacesScreen`, `ErrorClearedOnlyByNewFetch`, `IndexLoadedOnce` and `RejectedTextChangesNothing` |
| Coordinator.View | src/App.tsx:95-140 | definition of the render: the error screen when `error` is truthy, otherwise the input, the detail panel and the index; stated by `ErrorReplacesView` |
| Coordinator.SetSearchNumberKeepsRequestLog | src/App.tsx:55-73 | setting the current key changes nothing; a new key appends exactly one detail request, for that key, and the request log stays consistent |
| Coordinator.TimerPreservesInv | src/App.tsx:79-84 | a timer elapsing keeps the invariant, including when the validator moves the key |
| Coordinator.StepAnswersDetails | src/App.tsx:60-68 | an answer to a detail fetch replaces the record (or sets the error and drops the record), marks the fetch answered, and keeps the invariant |
| Coordinator.StepPreservesInv | src/App.tsx:11-84 | every event keeps the invariant: the key is in range, agrees with a valid settled text, and was the last key fetched |
| Coordinator.RunPreservesInv | src/App.tsx:11-84 | any sequence of events keeps the invariant |
| Coordinator.ReachableInv | src/App.tsx:11-84 | every state reachable from mounting satisfies the invariant |
| Coordinator.FetchIssuedOnlyOnKeyChange | src/App.tsx:55-73 | a detail fetch is issued exactly when the key changes; it is for the new key, clears the error and keeps the displayed record |
| Coordinator.KeyChangesOnlyOnValidSettle | src/App.tsx:79-84 | the key changes only when a timer settles the current input and that text validates to the new key |
| Coordinator.RejectedTextChangesNothing | src/App.tsx:81-83 | settling a text that does not validate changes only the debouncer: the key, the record, the error, the index and the fetches are as they were |
| Coordinator.Typing | src/App.tsx:75-77 | typing the texts gives one keystroke event per text, in order |
| Coordinator.RunAppend | src/App.tsx:75-84 | running two sequences of events one after the other is running their concatenation |
| Coordinator.TypingOnlyFeedsDebouncer | src/App.tsx:75-77 | keystrokes change only the input and its timer; the key, the record and the fetches are untouched |
| Coordinator.BurstFetchesAtMostOnce | src/App.tsx:40-84 | a burst of typing followed by a timer issues at most one detail fetch, and only for the key the last text validates to |
| Coordinator.CorrectedTypoFetchesOnce | src/App.tsx:40-84 | after mounting, typing a text and correcting it within the delay fetches record 1 and then only the corrected key |
| Coordinator.TypoThenFix | src/App.tsx:40-84 | the same, from any state that looks like the mounted one |
| Coordinator.DetailsAppliedUnconditionally | src/App.tsx:61-62 | an answer is displayed whatever the current key is; the key and the error are unchanged |
| Coordinator.StaleAnswerOverwritesNewer | src/App.tsx:55-73 | after the key moves from 1 to n, the late answer for 1 replaces the answer for n, so record 1 is shown while the key is n |
| Coordinator.LateAnswerWins | src/App.tsx:55-73 | the same race, from any state that looks like the mounted one |
| Coordinator.ErrorReplacesView | src/App.tsx:95-140 | a non-empty error replaces the whole screen; otherwise the screen shows the current input text, the panel of the record exactly when there is one, and the index |
| Coordinator.FailureReplacesScreen | src/App.tsx:30-97 | either fetch failing with a non-empty message shows only that message; a detail failure also drops the record |
| Coordinator.ErrorClearedOnlyByNewFetch | src/App.tsx:59 | the error is cleared only by issuing a new detail fetch |
| Coordinator.NoTypingOnErrorScreen | src/App.tsx:95-107 | while an error is shown there is no input, so keystrokes change nothing |
| Coordinator.IndexLoadedOnce | src/App.tsx:23-38 | a successful index fetch installs the entries in order, a failure leaves the index empty, and once answered it never changes |
| Component.App.constructor | src/App.tsx:11-38 | construction leaves the object in the mounted state, with index and record 1 requested |
| Component.App.LoadPokemonList | src/App.tsx:24-28 | the index load clears the error and requests the index |
| Component.App.LoadPokemonDetails | src/App.tsx:57-61 | the detail load clears the error and requests the record |
| Component.App.SetSearchNumber | src/App.tsx:55-73 | a new key is stored and its record is requested; the same key changes nothing |
| Component.App.ApplySettledInput | src/App.tsx:79-84 | the settled text is parsed and adopted as the key when it is in 1..1025 |
| Component.App.HandleInputChange | src/App.tsx:75-77 | the input shows the new text, and a change arms a fresh timer; the object moves as `Step` does and keeps the invariant |
| Component.App.TimerElapsed | src/App.tsx:42-50 | only the uncleared timer settles its text, and a new settled text runs the validator; the object moves as `Step` does and keeps the invariant |
| Component.App.PokemonListLoaded | src/App.tsx:28-29 | the fetched entries become the index; the object moves as `Step` does and keeps the invariant |
| Component.App.PokemonListFailed | src/App.tsx:30-31 | the failure message becomes the error; the object moves as `Step` does and keeps the invariant |
| Component.App.PokemonDetailsLoaded | src/App.tsx:61-62 | the answer becomes the displayed record whatever the current key; the object moves as `Step` does and keeps the invariant |
| Component.App.PokemonDetailsFailed | src/App.tsx:63-65 | the failure message becomes the error and the record is dropped; the object moves as `Step` does and keeps the invariant |
| Component.App.Render | src/App.tsx:95-140 | an error screen exactly when an error is shown; otherwise the current input and one index line per entry |

## Left out

- The two fetch functions and the network (`src/Utils/api.ts` is not part of this model). A fetch is recorded as a request, and its answer or failure arrives later as an event.
- Real time and the 300 ms delay. A timer elapsing is an event that names its handle, and any outstanding timer may elapse at any time.
- React's scheduling and batching. An event's effects run right after it, in declaration order.
- The two loading flags. They are written but never read.
- `console.log`, the JSX layout and the CSS.
- The browser's filtering of a `type="number"` input. Any text may arrive as a keystroke.
- Unmounting and the StrictMode double mount.
- Display.UpperAscii: `toUpperCase` is modelled on ASCII letters only; other characters are left unchanged.
- JsParse.ParseInt: the text is a sequence of Unicode code points, not UTF-16 units. Very large digit runs are read exactly, with no rounding to a double. Rounding does not move a number across the 1..1025 boundaries.
- JsParse.ParseInt: a leading "0x" is read as the number 0, as `parseInt` with radix 10 does. Other radixes are not modelled.
- JsParse.IntToString: integers of magnitude 10^21 and over, which `String` writes in exponential notation ("1e+21"), are written out in full digits here.
- Display.IdLabelRoundTrip: the round trip holds for the model's rendering; for an id of magnitude 10^21 and over the program shows "#1e+21", which reads back as 1. Catalog ids are far below that.
- Coordinator.Step: a rejected promise whose `err.message` is undefined is modelled as a message string.
- Fixing the stale-answer race is deliberately not modelled. The model reproduces the component as it behaves.
