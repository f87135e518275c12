# Currency autocomplete selector, modelled in Dafny

This project models the core of a React currency autocomplete. The user types
into a text field. After 500 ms of quiet, the component filters its candidate
list and opens a dropdown. The user then picks one or several currencies with
the mouse or the keyboard. Key presses go through a second, 150 ms debounce.

The model has five modules:

- `JsStrings` (`strings.dfy`): the JavaScript string operations the filters
  use. `toLowerCase` is limited to ASCII letters; `includes` and `substring`
  are modelled with their clamping rules.
- `Sequences` (`sequences.dfy`): array `filter` as a function on sequences.
  Lemmas prove that the result is an order-preserving subsequence and that it
  keeps every occurrence of each kept value.
- `Currency` (`currency.dfy`): the `Candidate` record (a name and the rate's
  decimal string), the application's two filter strategies, and the
  conversion of the rates object into candidates.
- `Selection` (`selection.dfy`): the value-level rules of the component. This
  covers the multi-select toggle by name, the single-select toggle by record,
  the checkbox test, and the two arrow-key index rules.
- `Dropdown` (`dropdown.dfy`): the component as a class. Its fields are the
  props and the `useState` variables. It has one method per event handler.
  Each debounce timer is a slot that holds the id of the only callback still
  allowed to run. Scheduling a timer overwrites the slot. A callback whose id
  is no longer in the slot does nothing. `Valid()` is the class invariant:
  - the highlight stays in range;
  - in multi-select mode, names in the selection are unique;
  - in single-select mode, the selection has at most one entry;
  - the last value reported to `onChange` is the stored selection;
  - pending timer ids were handed out earlier.

Behaviour of the code that a reader may not expect:

- The open flag is set whenever the query is non-empty, even when the filter
  finds nothing. Only the render condition (open, a non-empty list, a
  non-empty query) hides the dropdown. See `TypingWithoutMatches`.
- ArrowUp from "no highlight" (-1) goes to the last item. The usual modular
  formula `(i - 1 + n) mod n` would give the second-to-last item.
- Typing "u" over SGD, USD and EUR keeps both USD and EUR, because "eur"
  contains "u". See `PartialFilterExample`.
- Single-select tests whether the clicked object itself is in the selection
  (reference identity), while multi-select compares names. The model stands
  for reference identity by record equality; see "## Left out".
- Selecting a selected currency twice in multi-select mode does not always
  give back the same sequence. The entry is removed, then appended at the
  end. Only the multiset of entries is restored.
- Unmounting cancels only the query debounce.

## Model

| member | source | states |
|---|---|---|
| `JsStrings.Includes` | Autocomplete/src/App.tsx:28 | A string that contains `q` is at least as long as `q` and holds every character of `q`. A string that starts with `q` contains it. |
| `Sequences.Filter` | Autocomplete/src/App.tsx:27-29 | Every element of the result is an input element that passes the test. Every input element that passes the test is in the result. The result is no longer than the input. |
| `Sequences.FilterIsSubsequence` | Autocomplete/src/App.tsx:27-29 | The filtered list is the input with some elements dropped and the rest in their original order. |
| `Sequences.FilterCount` | Autocomplete/src/App.tsx:27-29 | A value that passes the test occurs in the result as often as in the input. A value that fails occurs zero times. |
| `JsStrings.ToLower` | Autocomplete/src/App.tsx:28 | Lower-casing keeps the length and leaves no upper-case ASCII letter. Every other character is unchanged. Each letter moves to its lower-case form. |
| `JsStrings.Substring` | Autocomplete/src/App.tsx:40 | Within bounds, substring is the slice between the bounds. Bounds that cover the whole string return it unchanged. Reversed bounds are swapped. |
| `JsStrings.IncludesInHeadIsPrefix` | Autocomplete/src/App.tsx:40 | The first `len(q)` characters of `s` contain `q` exactly when `q` is a prefix of `s`. |
| `Currency.NameMatches` | Autocomplete/src/App.tsx:28 | The empty query matches every name. A match needs a name at least as long as the query. A name whose lower-cased form starts with the lower-cased query matches. |
| `Currency.CaseInsensitivePartialFilter` | Autocomplete/src/App.tsx:26-30 | It keeps exactly the options whose lower-cased name contains the lower-cased query. Each is kept as often as in the input and in the original order. |
| `Currency.PartialFilterEmptyQuery` | Autocomplete/src/App.tsx:27-29 | With the empty query, every option is returned unchanged. |
| `Currency.PartialFilterCaseBlind` | Autocomplete/src/App.tsx:28 | A query and its lower-cased form select the same list. |
| `Currency.PartialFilterExample` | Autocomplete/src/App.tsx:26-30 | Over SGD, USD and EUR, the query "u" keeps USD and EUR, in that order. |
| `Currency.PartialFilterNoMatch` | Autocomplete/src/App.tsx:26-30 | Over SGD, USD and EUR, the query "zz" keeps nothing. |
| `Currency.RateMatches` | Autocomplete/src/App.tsx:40 | A rate that starts with the query passes the test. A rate that passes is at least as long as the query. |
| `Currency.RateMatchesIsPrefix` | Autocomplete/src/App.tsx:40 | The rate test (the rate string cut to the query's length contains the query) holds exactly when the rate string starts with the query. |
| `Currency.RateFilter` | Autocomplete/src/App.tsx:38-42 | It keeps exactly the options whose rate string starts with the query. Each is kept as often as in the input and in the original order. |
| `Currency.RateFilterIsPrefixFilter` | Autocomplete/src/App.tsx:38-42 | The rate filter returns the same list as filtering by "the rate string starts with the query". |
| `Currency.CurrenciesFromRates` | Autocomplete/src/App.tsx:105-108 | There is one candidate per listed key, in key order: entry `i` is named by key `i` and carries the rate stored under it. Every candidate's rate is the rate stored under its name. |
| `Currency.CurrenciesOnePerKey` | Autocomplete/src/App.tsx:105-108 | When the keys enumerate the rates object, the number of candidates is the number of keys, and no two candidates share a name. |
| `Selection.HasName` | Autocomplete/src/components/CurrencyInput.tsx:145-147 | Some index of the selection holds an entry with that name. An empty selection has no name. |
| `Selection.WithoutName` | Autocomplete/src/components/CurrencyInput.tsx:149 | Nothing with the given name is left. Entries with other names keep their multiplicity and their order. |
| `Selection.MultiToggle` | Autocomplete/src/components/CurrencyInput.tsx:144-151 | The candidate's name is selected afterwards exactly when it was not selected before. Other names are untouched. When the name was absent, the candidate is appended at the end. When it was present, the result is a strictly shorter subsequence. |
| `Selection.SingleToggle` | Autocomplete/src/components/CurrencyInput.tsx:152-158 | The result holds at most one entry, and only the candidate. The candidate is in the result exactly when it was not in the old selection (record equality). |
| `Selection.NextSelection` | Autocomplete/src/components/CurrencyInput.tsx:142-158 | Multi-select keeps names unique and flips the candidate's checkbox. Single-select never holds more than one entry. |
| `Selection.MultiTogglePreservesUniqueNames` | Autocomplete/src/components/CurrencyInput.tsx:144-151 | If no two selected entries share a name, the same holds after a toggle. |
| `Selection.MultiToggleTwiceFromAbsent` | Autocomplete/src/components/CurrencyInput.tsx:145-150 | Adding a candidate whose name is absent, then toggling it again, gives back exactly the old selection. |
| `Selection.MultiToggleTwiceFromPresent` | Autocomplete/src/components/CurrencyInput.tsx:145-150 | With unique names, toggling a selected name twice removes entry `i`, which bears that name, and appends the candidate at the end. The other entries keep their order. |
| `Selection.MultiToggleTwiceIsPermutation` | Autocomplete/src/components/CurrencyInput.tsx:145-150 | With unique names, toggling a selected record twice leaves the same entries, the same number of times each. |
| `Selection.SingleToggleTwice` | Autocomplete/src/components/CurrencyInput.tsx:153-157 | In single-select mode, two clicks on one record leave it selected exactly when it was selected before. Otherwise the selection ends empty. |
| `Selection.SingleSelectReplaces` | Autocomplete/src/components/CurrencyInput.tsx:153-157 | In single-select mode, picking `a` and then a different `b` leaves exactly `[b]`. |
| `Selection.IsChecked` | Autocomplete/src/components/CurrencyInput.tsx:235-237 | A selected record is checked. A checked item has a selected entry with its name, and every candidate with the same name is checked alike. |
| `Selection.ArrowDownIndex` | Autocomplete/src/components/CurrencyInput.tsx:98-101 | ArrowDown keeps the highlight in range. From -1 up to the last item, a non-empty list gives an item index. From the last item, it wraps to 0. |
| `Selection.ArrowUpIndex` | Autocomplete/src/components/CurrencyInput.tsx:102-105 | ArrowUp keeps the highlight in range. From -1 up to the last item, a non-empty list gives an item index. From 0 or -1, it goes to the last item. |
| `Selection.ArrowDownIsSuccessorModLen` | Autocomplete/src/components/CurrencyInput.tsx:99-101 | From -1 up to the last item, ArrowDown gives `(i + 1) mod n`. |
| `Selection.ArrowUpIsPredecessorModLen` | Autocomplete/src/components/CurrencyInput.tsx:103-105 | On an item, ArrowUp gives `(i - 1 + n) mod n`. |
| `Selection.ArrowKeysAreInverse` | Autocomplete/src/components/CurrencyInput.tsx:98-105 | On an item, ArrowUp undoes ArrowDown and ArrowDown undoes ArrowUp. |
| `Dropdown.RunFilter` | Autocomplete/src/components/CurrencyInput.tsx:81-83 | Without a supplied filter, the pass keeps exactly the options whose lower-cased name contains the lower-cased query, in their order. With a supplied filter, the pass returns that filter's result. |
| `Dropdown.CurrencyInput.DropdownVisible` | Autocomplete/src/components/CurrencyInput.tsx:212 | A visible list is open, has a non-empty query and at least one item. Under the class invariant, ArrowDown and ArrowUp then land on an item. |
| `Dropdown.CurrencyInput.constructor` | Autocomplete/src/components/CurrencyInput.tsx:43-67 | The state starts empty and closed, with no highlight. The mount run of the input effect sets loading for a non-empty text and schedules the first query debounce. |
| `Dropdown.CurrencyInput.SetOptions` | Autocomplete/src/components/CurrencyInput.tsx:22 | A new options prop replaces the options. Nothing else changes, and no filter pass runs. |
| `Dropdown.CurrencyInput.InputChange` | Autocomplete/src/components/CurrencyInput.tsx:59-67 | The same text changes nothing. A new text sets loading to "text is non-empty" and replaces the pending query debounce with a new one, so only one is pending. |
| `Dropdown.CurrencyInput.RunDropdown` | Autocomplete/src/components/CurrencyInput.tsx:76-88 | An empty query only closes the dropdown. A non-empty query opens it over a fresh filter pass, clears the highlight and ends loading. The selection is never touched. The dropdown is visible afterwards exactly when the query and the filter result are both non-empty. |
| `Dropdown.CurrencyInput.InputClick` | Autocomplete/src/components/CurrencyInput.tsx:201 | A click on the field runs the same filter pass immediately. |
| `Dropdown.CurrencyInput.FireQueryTimer` | Autocomplete/src/components/CurrencyInput.tsx:65-67 | A superseded callback changes nothing. The current one empties the slot and runs the filter pass. |
| `Dropdown.CurrencyInput.Select` | Autocomplete/src/components/CurrencyInput.tsx:142-161 | The stored selection becomes the next selection. When there is an `onChange`, it receives that same value. In multi-select mode, the candidate's checkbox flips. |
| `Dropdown.CurrencyInput.KeyEvent` | Autocomplete/src/components/CurrencyInput.tsx:90-95 | A key press replaces any pending key debounce with one for this key. |
| `Dropdown.CurrencyInput.ApplyKey` | Autocomplete/src/components/CurrencyInput.tsx:95-113 | While the dropdown is closed, nothing changes. While it is open: ArrowDown and ArrowUp move the highlight; Enter selects the highlighted item only when the index is in bounds; Escape closes the dropdown and keeps the highlight and the selection. |
| `Dropdown.CurrencyInput.FireKeyTimer` | Autocomplete/src/components/CurrencyInput.tsx:95-114 | A superseded key callback changes nothing. The current one empties the slot and applies its key. |
| `Dropdown.CurrencyInput.MouseDown` | Autocomplete/src/components/CurrencyInput.tsx:164-168 | A press outside the container closes the dropdown. Nothing else changes. |
| `Dropdown.CurrencyInput.Teardown` | Autocomplete/src/components/CurrencyInput.tsx:69-73 | Unmounting cancels the query debounce and changes nothing else. In particular, the key debounce stays pending. |
| `Dropdown.CoalescedTyping` | Autocomplete/src/components/CurrencyInput.tsx:59-67 | Typing "S", "SG", "SGD" and then letting every callback come due runs one filter pass, for "SGD". Afterwards the dropdown is open and loading is over. |
| `Dropdown.TypingWithoutMatches` | Autocomplete/src/components/CurrencyInput.tsx:76-88 | After "zz" settles over the sample currencies: the list is empty, loading is over, the open flag is set, and the dropdown is not visible. |
| `Dropdown.OpenOverSample` | Autocomplete/src/components/CurrencyInput.tsx:59-88 | With a filter that keeps every option, typing "s" and letting the debounce fire opens the list over all sample currencies, with no highlight and nothing selected. |
| `Dropdown.KeyboardSelection` | Autocomplete/src/components/CurrencyInput.tsx:93-114 | In a burst of keys, only the last applies. Enter with no highlight selects nothing. ArrowDown then Enter selects the first item, and `onChange` receives exactly that selection. |

## Left out

- The fetch of exchange rates, its error handling and the loading flags
  around it (Autocomplete/src/App.tsx:95-119) are I/O. The conversion of
  its result is modelled. The key order is a parameter, because it is the
  runtime's enumeration order.
- A rate is its decimal string. Number-to-string conversion and the
  two-decimal rendering of rates are floating-point formatting.
- `toLowerCase` is modelled for ASCII letters only.
- Timers are not wall-clock. A debounce is a slot that holds one pending
  callback id. The caller decides when a callback comes due. Timer callbacks
  read the current state, so stale closure captures are not modelled.
- Pressing the checkbox also reaches the row's click handler, and both read
  the state of the same render. That double call depends on closure capture
  and is not modelled.
- The same key handler serves the document's keydown and the list's keyup.
  Both reach the one `KeyEvent` method.
- The registration and removal of document listeners and the
  `scrollIntoView` call on a highlight change are framework plumbing and a
  DOM side effect.
- Floating-UI positioning, the JSX rendering, `renderOption`, `disabled`,
  the label, description and placeholder, and the spinner that shows
  `isLoading` or the `loading` prop are presentation.
- The `value` prop is declared but the component never reads it. The
  selection is internal state.
- `console.log` calls are left out. The `filterPasses` field records the
  query of each filter pass in their place.
- A supplied `filterOptions` is any total function of the options and the
  query. The model proves nothing about a supplied filter beyond what the
  application's two strategies satisfy, and it does not model a filter that
  throws.
- The application's layout of two independent selectors is composition. Each
  instance is a separate `CurrencyInput` object.
- Selection.SingleToggle: stands for reference identity by record equality.
  The two differ when equal records are distinct objects. Take a re-fetched
  options list with the same values: clicking the selected currency keeps it
  selected in the component, because the new object is not the stored one.
  The model clears the selection instead.
- Dropdown.CurrencyInput.ApplyKey: reads the current selection. In the
  component, the document keydown listener is re-registered only when the
  open flag, the filtered list or the highlight changes
  (Autocomplete/src/components/CurrencyInput.tsx:135-140). So Enter calls a
  selection handler that holds the selection of an earlier render. Take
  ArrowDown, Enter, Enter with the focus in the text field: both Enters
  start from the same old selection. The item stays selected and `onChange`
  receives the same value twice. The model toggles the item off on the
  second Enter.
