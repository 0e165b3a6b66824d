# Phonebook and country search: the state logic of the part-2 exercises

This project models the sequential logic inside the `App` components of a set
of React course exercises: a phonebook that keeps a list of `{id, name, number}`
records in sync with a REST backend, and a country search that classifies the
matches of a name filter into four views. Each `App` becomes a Dafny `class`
whose fields are its `useState` slots; each event handler becomes a method
whose contract states the new state in terms of the old one. Every external
effect is an input of the handler:

- the server's answer is a `Response<T>` parameter (`Ok(value)` for a fulfilled
  promise, `Err(message)` for a rejected one);
- `window.confirm` is a `confirmed: bool` parameter;
- a notification timer firing is an explicit `Expire()` event. A ghost counter
  `pendingTimers` records how many timers are scheduled, so `Expire` can only
  happen after a notification was shown;
- a request and its response are one atomic step. The methods return the
  `Request` they would send (`Create`, `Update`, `Replace`, `Remove`).

Modules:

- `Outcomes`: `Option` (a slot that may hold `null`) and `Response`.
- `Text`: ASCII `toLowerCase`, `String.prototype.includes`, and the filter test
  `Matches(name, query)`.
- `Seqs`: `Array.prototype.filter` as `Filter`. Its lemmas prove that the result
  is an order-preserving subsequence with exactly the passing elements, that it
  distributes over concatenation, and that two filters commute.
- `Phonebook`: `Person`, `Draft`, `Request`, `Notice`. It also holds the list
  operations the phonebook apps share: `find`, `some`, replace-by-id (`map`),
  remove-by-id and the name filter.
- `Exercise210`, `Exercise212`, `Exercise213`, `Exercise215`, `Exercise216`,
  `Exercise218`: one module per exercise, each with `class App`.

Two behaviours of the code worth knowing:

- Exercise 2.16 keeps `newName` and `newNumber` after a successful update
  (`Exercise216.App.HandlePersonAddition`); only a successful create clears them.
- Show sets the filter to the chosen name. The chosen country is then among
  the matches (`Exercise218.ShownCountryMatches`). A name contained in another
  name, such as "Niger" in "Nigeria", keeps the list view
  (`Exercise218.ShowMayLeaveSeveralMatches`).

The classes of exercises 2.13, 2.15 and 2.16 keep an invariant `Valid()`: a
filled notification slot always has a timer pending, so every notice shown is
emptied later. Their constructors establish it and every method preserves it.

## Model

| member | source | states |
|---|---|---|
| `Text.LowerChar` | exercise_2.15/App.js:145 | the result is never an upper-case ASCII letter; non-letters are kept; a capital moves to its lower-case letter |
| `Text.ToLower` | exercise_2.15/App.js:145 | same length as the input, position by position the lowered character, no upper-case letter left |
| `Text.ToLowerIdempotent` | exercise_2.15/App.js:145 | lowering an already lowered string changes nothing |
| `Text.Includes` | exercise_2.15/App.js:145 | the empty string is always included; a longer pattern never is |
| `Text.IncludesIffOccurs` | exercise_2.15/App.js:145 | the left-to-right search answers true exactly when the pattern occurs at some position |
| `Text.IncludesSelfAndEmpty` | exercise_2.15/App.js:145 | every string includes itself and the empty string |
| `Text.Matches` | exercise_2.15/App.js:144-146 | a name passes the filter exactly when the lowered query occurs somewhere in the lowered name |
| `Text.MatchesIgnoresCase` | exercise_2.15/App.js:144-146 | the test ignores the case of name and query; a name matches itself and the empty query |
| `Seqs.Filter` | exercise_2.15/App.js:144-146 | the result is no longer than the input and every element in it passes the test |
| `Seqs.FilterIsSubsequence` | exercise_2.15/App.js:144-146 | the filtered list is an order-preserving subsequence of the input |
| `Seqs.FilterCounts` | exercise_2.15/App.js:144-146 | each element occurs as often as in the input if it passes, and not at all otherwise |
| `Seqs.FilterMembership` | exercise_2.15/App.js:144-146 | an element is in the result exactly when it is in the input and passes |
| `Seqs.FilterAppend` | exercise_2.15/App.js:76 | filtering `a + b` gives the filtered `a` followed by the filtered `b` |
| `Seqs.FilterKeepsAll` | exercise_2.10/App.js:51-55 | when every element passes, the filter returns the input itself |
| `Seqs.FilterCommutes` | exercise_2.15/App.js:106 | two filters applied in either order give the same list |
| `Phonebook.KindName` | exercise_2.15/App.js:54-63 | the kind strings are `success` and `error`, one per kind |
| `Phonebook.FindByName` | exercise_2.15/App.js:33 | none exactly when no entry has that exact name; otherwise the first entry whose name equals it case-sensitively |
| `Phonebook.ReplaceById` | exercise_2.15/App.js:45-49 | same length; every entry with the id becomes the new record; every other entry is unchanged in its place |
| `Phonebook.RemoveById` | exercise_2.15/App.js:106 | exactly the entries without the id remain, in their original order |
| `Phonebook.FilterByName` | exercise_2.15/App.js:144-146 | exactly the entries whose lowered name contains the lowered query, as an order-preserving subsequence |
| `Phonebook.ReplaceByUnknownIdChangesNothing` | exercise_2.15/App.js:45-49 | matching on the returned id: an answer whose id no entry has leaves the list unchanged |
| `Phonebook.ReplaceByFoundIdStoresReply` | exercise_2.16+2.17/App.js:64-68 | matching on the found entry's id: the answer always lands in the list |
| `Phonebook.SomeAgreesWithFind` | exercise_2.10/App.js:32 | the `some` check and the `find` check agree on whether a name is present |
| `Phonebook.FilterByNameCounts` | exercise_2.13/App.js:40-42 | the visible list keeps each matching entry as often as it is stored and drops the rest |
| `Phonebook.EmptyQueryShowsAll` | exercise_2.15/App.js:144-146 | the empty filter shows the whole list in order |
| `Phonebook.FilterAfterAppend` | exercise_2.15/App.js:76 | after a create, the visible list gains the new entry at its end exactly when it matches the filter |
| `Phonebook.FilterAfterRemove` | exercise_2.16+2.17/App.js:113 | after a delete, the visible list is the old visible list without the deleted id |
| `Phonebook.RemoveByIdCounts` | exercise_2.16+2.17/App.js:113 | a delete drops every entry with the id and keeps every other entry as often as before |
| `Exercise210.InitialPersons` | exercise_2.10/App.js:7-12 | the phonebook starts with four entries |
| `Exercise210.SequentialIdsAreUnique` | exercise_2.10/App.js:44 | ids numbered 1..n are pairwise distinct |
| `Exercise210.NewEntry` | exercise_2.10/App.js:41-45 | the appended record has the typed name and number and id length + 1, which no stored entry has while ids are 1..n |
| `Exercise210.AppendKeepsInvariants` | exercise_2.10/App.js:32-46 | appending an absent name with id length + 1 keeps ids 1..n in order and names pairwise distinct |
| `Exercise210.VisiblePersons` | exercise_2.10/App.js:51-55 | the empty filter returns `persons` itself; otherwise exactly the matching entries |
| `Exercise210.ShortcutAgreesWithFilter` | exercise_2.10/App.js:51-55 | the empty-filter shortcut shows the same list as the plain filter would |
| `Exercise210.App.constructor` | exercise_2.10/App.js:7-15 | the initial state satisfies the invariant: ids 1..4 in order, distinct names, empty inputs |
| `Exercise210.App.HandleNameChange` | exercise_2.10/App.js:17-19 | only the name input changes, to the typed value |
| `Exercise210.App.HandleNumberChange` | exercise_2.10/App.js:21-23 | only the number input changes, to the typed value |
| `Exercise210.App.HandleFilterChange` | exercise_2.10/App.js:25-27 | only the filter changes, to the typed value |
| `Exercise210.App.AddPerson` | exercise_2.10/App.js:29-49 | keeps the invariant; a present name leaves `persons` as it was, an absent one is appended with the next id; both inputs are cleared either way |
| `Exercise210.App.FilteredPersons` | exercise_2.10/App.js:51-55 | the visible list is the case-insensitive substring filter of `persons` |
| `Exercise212.App.constructor` | exercise_2.12/App.js:5-7 | starts with no entries and empty inputs |
| `Exercise212.App.LoadPersons` | exercise_2.12/App.js:9-15 | a fulfilled load replaces `persons` wholesale; a rejected one changes nothing |
| `Exercise212.App.HandleNameChange` | exercise_2.12/App.js:34-36 | only the name input changes, to the typed value |
| `Exercise212.App.HandleNumberChange` | exercise_2.12/App.js:38-40 | only the number input changes, to the typed value |
| `Exercise212.App.AddPerson` | exercise_2.12/App.js:17-32 | always posts the typed name and number; success appends the response and clears both inputs; failure changes nothing |
| `Exercise213.ShownMessage` | exercise_2.13/App.js:78 | a message is rendered exactly when the slot holds a non-empty string |
| `Exercise213.App.constructor` | exercise_2.13/App.js:5-9 | starts empty with no message and no timer, satisfying the slot-timer invariant |
| `Exercise213.App.LoadPersons` | exercise_2.13/App.js:11-15 | a fulfilled load replaces `persons`; a rejected one changes nothing |
| `Exercise213.App.HandleNameChange` | exercise_2.13/App.js:63 | only the name input changes |
| `Exercise213.App.HandleNumberChange` | exercise_2.13/App.js:66 | only the number input changes |
| `Exercise213.App.HandleFilterChange` | exercise_2.13/App.js:36-38 | only the filter changes |
| `Exercise213.App.DisplayError` | exercise_2.13/App.js:44-49 | the slot holds the message and one more timer is scheduled; the slot-timer invariant is kept |
| `Exercise213.App.Expire` | exercise_2.13/App.js:46-48 | a firing timer empties the slot whatever it holds |
| `Exercise213.App.AddPerson` | exercise_2.13/App.js:17-34 | posts without a duplicate check; success appends, clears both inputs and shows `Added <name>`; failure shows the server's text and keeps list and inputs |
| `Exercise213.App.FilteredPersons` | exercise_2.13/App.js:40-42 | exactly the matching entries, as an order-preserving subsequence |
| `Exercise213.App.Banner` | exercise_2.13/App.js:78 | the banner shows exactly when the slot is truthy, and then shows the slot's message |
| `Exercise215.App.constructor` | exercise_2.15/App.js:10-14 | starts empty, no notification, no timer, satisfying the slot-timer invariant |
| `Exercise215.App.LoadPersons` | exercise_2.15/App.js:17-21 | a fulfilled load replaces `persons`; a rejected one changes nothing |
| `Exercise215.App.HandleNameChange` | exercise_2.15/App.js:129-131 | only the name input changes |
| `Exercise215.App.HandleNumberChange` | exercise_2.15/App.js:134-136 | only the number input changes |
| `Exercise215.App.HandleFilterChange` | exercise_2.15/App.js:139-141 | only the filter changes |
| `Exercise215.App.Notify` | exercise_2.15/App.js:52-58 | the slot holds the new notice and one more timer is scheduled; the slot-timer invariant is kept |
| `Exercise215.App.Expire` | exercise_2.15/App.js:56-58 | a firing timer empties the slot whatever it holds |
| `Exercise215.App.AddPerson` | exercise_2.15/App.js:24-98 | declined: nothing changes and nothing is sent. Confirmed: the found id is updated; success replaces by the returned id, clears the inputs and notifies success; failure keeps list and inputs and notifies error. Absent name: a create; success appends and clears; failure keeps list and inputs |
| `Exercise215.App.HandleDelete` | exercise_2.15/App.js:101-126 | declined: nothing changes; success removes exactly that id in order and notifies; failure keeps the list and notifies an error |
| `Exercise215.App.FilteredPersons` | exercise_2.15/App.js:144-146 | exactly the matching entries, as an order-preserving subsequence |
| `Exercise215.EarlierTimerClearsLaterNotice` | exercise_2.15/App.js:56-58 | from any valid state, two notices followed by the first timer leave the slot empty with the second timer still pending |
| `Exercise216.MessageProp` | exercise_2.16+2.17/App.js:130 | `notification?.message` is `undefined` exactly when the slot is empty |
| `Exercise216.TypeProp` | exercise_2.16+2.17/App.js:130 | `notification?.type` is `undefined` exactly when the slot is empty, else the kind's name |
| `Exercise216.CssClass` | exercise_2.16+2.17/App.js:13 | the class is `success` exactly for type `success`, and `error` for any other value |
| `Exercise216.RenderAsWritten` | exercise_2.16+2.17/App.js:7-17 | renders nothing exactly when the message is `null` |
| `Exercise216.AsWrittenAlwaysRendersBanner` | exercise_2.16+2.17/App.js:8-10 | as the App calls it, the component never renders nothing |
| `Exercise216.EmptySlotRendersEmptyErrorBox` | exercise_2.16+2.17/App.js:130 | an empty slot renders an empty `error` div |
| `Exercise216.Render` | exercise_2.16+2.17/App.js:7-17 | with the loose `== null` test: renders nothing exactly for `null` or `undefined` |
| `Exercise216.RenderShowsExactlyTheSlot` | exercise_2.16+2.17/App.js:7-17 | with the corrected test, a banner shows exactly while the slot is full, with the notice's kind as class |
| `Exercise216.App.constructor` | exercise_2.16+2.17/App.js:20-24 | starts empty, no notification, no timer, satisfying the slot-timer invariant |
| `Exercise216.App.LoadPersons` | exercise_2.16+2.17/App.js:26-30 | a fulfilled load replaces `persons`; a rejected one changes nothing |
| `Exercise216.App.HandleNameChange` | exercise_2.16+2.17/App.js:32-34 | only the name input changes |
| `Exercise216.App.HandleNumberChange` | exercise_2.16+2.17/App.js:36-38 | only the number input changes |
| `Exercise216.App.HandleFilterChange` | exercise_2.16+2.17/App.js:40-42 | only the filter changes |
| `Exercise216.App.ShowNotification` | exercise_2.16+2.17/App.js:44-49 | the slot holds `{message, type}` and one more timer is scheduled; the slot-timer invariant is kept |
| `Exercise216.App.Expire` | exercise_2.16+2.17/App.js:46-48 | a firing timer empties the slot whatever it holds |
| `Exercise216.App.HandlePersonAddition` | exercise_2.16+2.17/App.js:51-106 | declined: nothing changes. Confirmed: sends the existing record with only the number changed; success replaces by the existing id and keeps the inputs; failure keeps the list. Absent name: success appends and clears the inputs; failure keeps list and inputs |
| `Exercise216.App.HandlePersonDeletion` | exercise_2.16+2.17/App.js:108-121 | declined: nothing changes; success removes exactly that id in order; failure keeps the list and notifies an error |
| `Exercise216.App.FilteredPersons` | exercise_2.16+2.17/App.js:123-125 | exactly the matching entries, as an order-preserving subsequence |
| `Exercise216.App.NotificationView` | exercise_2.16+2.17/App.js:130 | with the corrected component, nothing is shown exactly when the slot is empty |
| `Exercise218.FilterCountries` | exercise_2.18+2.19+2.20/App.js:85-87 | exactly the countries whose lowered name contains the lowered filter, as an order-preserving subsequence |
| `Exercise218.Classify` | exercise_2.18+2.19+2.20/App.js:45-64 | more than 10 matches: too many; 2 to 10: the list of the matches in order; exactly 1: its detail; 0: no matches. The four cases are exhaustive and exclusive |
| `Exercise218.ShownCountryMatches` | exercise_2.18+2.19+2.20/App.js:89-91 | after Show, the chosen country is among the matches, so the view is never "no matches" |
| `Exercise218.ShowMayLeaveSeveralMatches` | exercise_2.18+2.19+2.20/App.js:89-91 | Show on "Niger" next to "Nigeria" leaves both matching and the list view shown |
| `Exercise218.App.constructor` | exercise_2.18+2.19+2.20/App.js:67-68 | starts with no countries and an empty filter |
| `Exercise218.App.LoadCountries` | exercise_2.18+2.19+2.20/App.js:70-79 | success replaces the directory; failure keeps it empty, so the view is "no matches" |
| `Exercise218.App.HandleFilterChange` | exercise_2.18+2.19+2.20/App.js:81-83 | only the filter changes |
| `Exercise218.App.HandleShowCountry` | exercise_2.18+2.19+2.20/App.js:89-91 | the filter becomes exactly the chosen name, and a listed country is then among the matches |
| `Exercise218.App.FilteredCountries` | exercise_2.18+2.19+2.20/App.js:85-87 | the matches are drawn from `countries` in order; `countries` itself is untouched |
| `Exercise218.App.CurrentView` | exercise_2.18+2.19+2.20/App.js:100 | the list view lists the filtered countries; the detail view shows a stored country |

## Left out

- JSX markup and the presentational components (`Persons`, `PersonForm`, `Filter`, the `Country` detail markup): they only map data to markup.
- exercise_2.11/App.js: it fetches a list and renders it, with no state transition beyond the load.
- The HTTP clients (axios and the persons service modules) are not part of this model; each call's outcome is a `Response` parameter, and the URLs and JSON encoding are not modelled.
- `window.confirm` is a boolean parameter; `alert` in exercise 2.10 is a no-op.
- Real timers: the five-second delay is not modelled, only the order in which timers fire, through `Expire`.
- Concurrency: interleaved responses and handlers that read a stale `persons` closure. Each request and its response form one atomic step.
- The weather fetch of the `Country` component, its API key and the Kelvin-to-Celsius rounding (floating point).
- `console.log` calls.
- Exercise213.App.AddPerson: a rejection without a server response makes `error.response.data.error` throw in the source. The model assumes the rejection carries an error text.
- Text.ToLower: lower-cases ASCII letters only, not the full Unicode mapping of `toLowerCase`.
- Phonebook.Person: ids are integers; a server that assigns string ids is not modelled.

## Findings

| source | as written | input that shows it | evidently intended | confidence | as-written member | corrected member |
|---|---|---|---|---|---|---|
| exercise_2.16+2.17/App.js:8 | `Notification` returns nothing only when `message === null`, but the App passes `notification?.message`, which is `undefined` when the slot is empty | the empty slot at start and after every timer fires: an empty `div` with class `error` is rendered | render nothing while no notification is held (`message == null`) | high; not executed | `Exercise216.EmptySlotRendersEmptyErrorBox` | `Exercise216.RenderShowsExactlyTheSlot` |
