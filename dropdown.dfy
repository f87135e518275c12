/** The currency selector component: its state, the two debounce timers and
    one method per event handler. A timer is a slot that holds the id of the
    one callback still allowed to run; scheduling overwrites the slot and a
    callback whose id is no longer there does nothing. */
module Dropdown {
  import opened Currency
  import opened Selection
  import opened Sequences

  datatype Key = ArrowDown | ArrowUp | Enter | Escape | OtherKey

  /** The `filterOptions` prop: absent, or any function of the options and
      the query. */
  datatype Strategy =
    | DefaultNameFilter
    | Supplied(filter: (seq<Candidate>, string) -> seq<Candidate>)

  /** The pending 500 ms query debounce, if any. */
  datatype QuerySlot = NoQueryTimer | QueryTimer(id: nat)

  /** The pending 150 ms key debounce, if any, with the key it will apply. */
  datatype KeySlot = NoKeyTimer | KeyTimer(id: nat, key: Key)

  /** The list a filter pass produces. Without a supplied strategy the
      component filters names case-insensitively, by the same test as the
      application's partial filter. */
  function RunFilter(strategy: Strategy, options: seq<Candidate>, query: string): (r: seq<Candidate>)
    ensures strategy.DefaultNameFilter? ==>
              (forall c :: c in r <==> c in options && NameMatches(query, c)) && IsSubsequence(r, options)
    ensures strategy.Supplied? ==> r == strategy.filter(options, query)
  {
    match strategy
    case DefaultNameFilter => CaseInsensitivePartialFilter(options, query)
    case Supplied(f) => f(options, query)
  }

  class CurrencyInput {
    // Props fixed by the parent.
    const multiple: bool
    const strategy: Strategy
    const hasOnChange: bool

    // Props the parent re-renders with.
    var options: seq<Candidate>
    var inputText: string

    // Component state.
    var filtered: seq<Candidate>
    var selected: seq<Candidate>
    var isOpen: bool
    var isLoading: bool
    var highlighted: int

    // The two timer slots and the ids handed out so far.
    var queryTimer: QuerySlot
    var keyTimer: KeySlot
    var timersIssued: nat

    /** The values passed to `onChange`, oldest first. */
    var notified: seq<seq<Candidate>>
    /** The queries filter passes ran for, oldest first. */
    var filterPasses: seq<string>

    ghost predicate Valid()
      reads this
    {
      && HighlightInRange(highlighted, |filtered|)
      && (multiple ==> UniqueNames(selected))
      && (!multiple ==> |selected| <= 1)
      && (notified != [] ==> notified[|notified| - 1] == selected)
      && (!hasOnChange ==> notified == [])
      && (queryTimer.QueryTimer? ==> queryTimer.id < timersIssued)
      && (keyTimer.KeyTimer? ==> keyTimer.id < timersIssued)
    }

    /** The dropdown list is rendered. */
    function DropdownVisible(): (r: bool)
      reads this
      ensures r ==> isOpen && inputText != "" && filtered != []
      ensures r && Valid() ==> 0 <= ArrowDownIndex(highlighted, |filtered|) < |filtered|
      ensures r && Valid() ==> 0 <= ArrowUpIndex(highlighted, |filtered|) < |filtered|
    {
      isOpen && |filtered| > 0 && inputText != ""
    }

    /** What `dropdownFunction` leaves behind: for an empty query only the
        open flag, now false; otherwise an open dropdown over a fresh filter
        pass, no highlight and loading finished. */
    twostate predicate RanDropdown()
      reads this
    {
      if inputText == "" then
        && !isOpen
        && filtered == old(filtered) && highlighted == old(highlighted)
        && isLoading == old(isLoading) && filterPasses == old(filterPasses)
      else
        && isOpen && highlighted == -1
        && filtered == RunFilter(strategy, options, inputText)
        && !isLoading
        && filterPasses == old(filterPasses) + [inputText]
    }

    /** What the key debounce callback leaves behind for `key`. */
    twostate predicate KeyApplied(key: Key)
      reads this
    {
      if !old(isOpen) || key == OtherKey then
        && isOpen == old(isOpen) && highlighted == old(highlighted)
        && selected == old(selected) && notified == old(notified)
      else if key == ArrowDown || key == ArrowUp then
        && isOpen
        && highlighted == (if key == ArrowDown then ArrowDownIndex(old(highlighted), |filtered|)
                           else ArrowUpIndex(old(highlighted), |filtered|))
        && selected == old(selected) && notified == old(notified)
      else if key == Escape then
        && !isOpen && highlighted == old(highlighted)
        && selected == old(selected) && notified == old(notified)
      else
        && isOpen && highlighted == old(highlighted)
        && if 0 <= highlighted < |filtered| then
             && selected == NextSelection(multiple, old(selected), filtered[highlighted])
             && notified == (if hasOnChange then old(notified) + [selected] else old(notified))
           else
             selected == old(selected) && notified == old(notified)
    }

    /** Mounting runs the input-text effect once: it sets the loading flag
        and schedules the first query debounce. */
    constructor (options: seq<Candidate>, inputText: string, multiple: bool,
                 strategy: Strategy, hasOnChange: bool)
      ensures Valid()
      ensures this.options == options && this.inputText == inputText
      ensures this.multiple == multiple && this.strategy == strategy
      ensures this.hasOnChange == hasOnChange
      ensures filtered == [] && selected == [] && !isOpen && highlighted == -1
      ensures isLoading == (inputText != "")
      ensures queryTimer == QueryTimer(0) && keyTimer == NoKeyTimer && timersIssued == 1
      ensures notified == [] && filterPasses == []
    {
      this.options := options;
      this.inputText := inputText;
      this.multiple := multiple;
      this.strategy := strategy;
      this.hasOnChange := hasOnChange;
      filtered, selected := [], [];
      isOpen, highlighted := false, -1;
      isLoading := inputText != "";
      queryTimer, keyTimer, timersIssued := QueryTimer(0), NoKeyTimer, 1;
      notified, filterPasses := [], [];
    }

    /** The parent passes a new options list. */
    method SetOptions(options: seq<Candidate>)
      requires Valid()
      modifies this`options
      ensures Valid() && this.options == options
    {
      this.options := options;
    }

    /** The parent passes new input text. When it differs from the current
        text the effect marks loading for a non-empty text and replaces any
        pending query debounce by a new one. */
    method InputChange(text: string)
      requires Valid()
      modifies this`inputText, this`isLoading, this`queryTimer, this`timersIssued
      ensures Valid()
      ensures text == old(inputText) ==> unchanged(this)
      ensures text != old(inputText) ==>
                && inputText == text
                && isLoading == (text != "")
                && queryTimer == QueryTimer(old(timersIssued))
                && timersIssued == old(timersIssued) + 1
    {
      if text != inputText {
        inputText := text;
        isLoading := text != "";
        queryTimer := QueryTimer(timersIssued);
        timersIssued := timersIssued + 1;
      }
    }

    /** `dropdownFunction`: close, and for a non-empty query reopen with a
        fresh filter pass, no highlight and loading finished. The selection
        is never touched. */
    method RunDropdown()
      requires Valid()
      modifies this`isOpen, this`filtered, this`highlighted, this`isLoading, this`filterPasses
      ensures Valid() && RanDropdown()
      ensures DropdownVisible() <==> inputText != "" && |RunFilter(strategy, options, inputText)| > 0
    {
      isOpen := false;
      if inputText != "" {
        isOpen := true;
        var found := RunFilter(strategy, options, inputText);
        highlighted := -1;
        filtered := found;
        isLoading := false;
        filterPasses := filterPasses + [inputText];
      }
    }

    /** A click on the text field re-runs the filter pass at once. */
    method InputClick()
      requires Valid()
      modifies this`isOpen, this`filtered, this`highlighted, this`isLoading, this`filterPasses
      ensures Valid() && RanDropdown()
    {
      RunDropdown();
    }

    /** The query debounce callback with id `id` comes due. Only the one in
        the slot runs; a superseded one changes nothing. */
    method FireQueryTimer(id: nat)
      requires Valid()
      modifies this`queryTimer, this`isOpen, this`filtered, this`highlighted, this`isLoading,
               this`filterPasses
      ensures Valid()
      ensures old(queryTimer) != QueryTimer(id) ==> unchanged(this)
      ensures old(queryTimer) == QueryTimer(id) ==> queryTimer == NoQueryTimer && RanDropdown()
    {
      if queryTimer == QueryTimer(id) {
        queryTimer := NoQueryTimer;
        RunDropdown();
      }
    }

    /** `handleCurrencySelect`: store the next selection and report the same
        value to `onChange` when there is one. */
    method Select(c: Candidate)
      requires Valid()
      modifies this`selected, this`notified
      ensures Valid()
      ensures selected == NextSelection(multiple, old(selected), c)
      ensures notified == if hasOnChange then old(notified) + [selected] else old(notified)
      ensures multiple ==> (IsChecked(selected, c) <==> !IsChecked(old(selected), c))
    {
      selected := NextSelection(multiple, selected, c);
      if hasOnChange {
        notified := notified + [selected];
      }
    }

    /** `handleKeyDown`: replace any pending key debounce by one for `key`. */
    method KeyEvent(key: Key)
      requires Valid()
      modifies this`keyTimer, this`timersIssued
      ensures Valid()
      ensures keyTimer == KeyTimer(old(timersIssued), key)
      ensures timersIssued == old(timersIssued) + 1
    {
      keyTimer := KeyTimer(timersIssued, key);
      timersIssued := timersIssued + 1;
    }

    /** The key debounce callback body: while the dropdown is open, move the
        highlight, select the highlighted item or close; while it is closed,
        do nothing. */
    method ApplyKey(key: Key)
      requires Valid()
      modifies this`highlighted, this`isOpen, this`selected, this`notified
      ensures Valid() && KeyApplied(key)
    {
      if isOpen {
        match key
        case ArrowDown =>
          highlighted := ArrowDownIndex(highlighted, |filtered|);
        case ArrowUp =>
          highlighted := ArrowUpIndex(highlighted, |filtered|);
        case Enter =>
          if 0 <= highlighted < |filtered| {
            Select(filtered[highlighted]);
          }
        case Escape =>
          isOpen := false;
        case OtherKey =>
      }
    }

    /** The key debounce callback with id `id` comes due. Only the one in the
        slot runs, with the key it was scheduled for. */
    method FireKeyTimer(id: nat)
      requires Valid()
      modifies this`keyTimer, this`highlighted, this`isOpen, this`selected, this`notified
      ensures Valid()
      ensures !(old(keyTimer).KeyTimer? && old(keyTimer).id == id) ==> unchanged(this)
      ensures old(keyTimer).KeyTimer? && old(keyTimer).id == id ==>
                keyTimer == NoKeyTimer && KeyApplied(old(keyTimer).key)
    {
      if keyTimer.KeyTimer? && keyTimer.id == id {
        var key := keyTimer.key;
        keyTimer := NoKeyTimer;
        ApplyKey(key);
      }
    }

    /** `handleClickOutside`: a mouse press outside the component closes the
        dropdown and changes nothing else. */
    method MouseDown(insideContainer: bool)
      requires Valid()
      modifies this`isOpen
      ensures Valid()
      ensures isOpen == (old(isOpen) && insideContainer)
    {
      if !insideContainer {
        isOpen := false;
      }
    }

    /** Unmounting runs the input-text effect's cleanup, which cancels the
        query debounce. The key debounce is not cancelled: the cleanup that
        `handleKeyDown` returns is dropped by the event listener. */
    method Teardown()
      requires Valid()
      modifies this`queryTimer
      ensures Valid() && queryTimer == NoQueryTimer
    {
      queryTimer := NoQueryTimer;
    }
  }

  /** Typing "S", "SG" and "SGD" in quick succession, then letting every
      scheduled callback come due, runs exactly one filter pass, for "SGD",
      after which the dropdown is open and loading is over. */
  method CoalescedTyping(options: seq<Candidate>) returns (passes: seq<string>, open: bool, loading: bool)
    ensures passes == ["SGD"] && open && !loading
  {
    var input := new CurrencyInput(options, "", true, DefaultNameFilter, true);
    input.InputChange("S");
    assert input.queryTimer == QueryTimer(1);
    input.InputChange("SG");
    assert input.queryTimer == QueryTimer(2);
    input.InputChange("SGD");
    assert input.queryTimer == QueryTimer(3);
    input.FireQueryTimer(0);
    input.FireQueryTimer(1);
    input.FireQueryTimer(2);
    assert input.filterPasses == [] && input.inputText == "SGD";
    input.FireQueryTimer(3);
    passes, open, loading := input.filterPasses, input.isOpen, input.isLoading;
  }

  /** Typing "zz" over the sample currencies: once the debounce fires the
      list is empty and loading is over, yet the open flag is set; only the
      visibility condition keeps the dropdown hidden. */
  method TypingWithoutMatches() returns (open: bool, visible: bool, loading: bool, shown: seq<Candidate>)
    ensures open && !visible && !loading && shown == []
  {
    var input := new CurrencyInput(SampleCurrencies(), "", true, DefaultNameFilter, true);
    input.InputChange("zz");
    assert input.queryTimer == QueryTimer(1);
    input.FireQueryTimer(1);
    PartialFilterNoMatch();
    assert input.filtered == RunFilter(DefaultNameFilter, SampleCurrencies(), "zz") == [];
    open, visible, loading, shown := input.isOpen, input.DropdownVisible(), input.isLoading, input.filtered;
  }

  /** A multi-select input with a strategy that keeps every option, over
      the sample currencies, after "s" was typed and its debounce fired. */
  method OpenOverSample() returns (input: CurrencyInput)
    ensures fresh(input) && input.Valid()
    ensures input.multiple && input.hasOnChange
    ensures input.isOpen && input.filtered == SampleCurrencies() && input.highlighted == -1
    ensures input.selected == [] && input.notified == []
    ensures input.keyTimer == NoKeyTimer && input.timersIssued == 2
  {
    var keepAll := Supplied((options: seq<Candidate>, query: string) => options);
    input := new CurrencyInput(SampleCurrencies(), "", true, keepAll, true);
    input.InputChange("s");
    assert input.queryTimer == QueryTimer(1);
    input.FireQueryTimer(1);
  }

  /** From an open list over the sample currencies: a burst of ArrowDown,
      ArrowDown, Enter applies only the Enter, which finds no highlight and
      selects nothing; one more ArrowDown and Enter select the first option,
      and `onChange` receives exactly that selection. */
  method KeyboardSelection() returns (selection: seq<Candidate>, reported: seq<seq<Candidate>>)
    ensures selection == [Candidate("SGD", "1")]
    ensures reported == [selection]
  {
    var input := OpenOverSample();
    input.KeyEvent(ArrowDown);
    input.KeyEvent(ArrowDown);
    input.KeyEvent(Enter);
    assert input.keyTimer == KeyTimer(4, Enter);
    input.FireKeyTimer(2);
    input.FireKeyTimer(3);
    assert input.keyTimer == KeyTimer(4, Enter) && input.isOpen && input.highlighted == -1;
    input.FireKeyTimer(4);
    assert input.highlighted == -1 && input.selected == [] && input.notified == [] && input.isOpen;
    assert input.filtered == SampleCurrencies();
    input.KeyEvent(ArrowDown);
    input.FireKeyTimer(5);
    assert input.highlighted == 0 && input.isOpen && input.selected == [];
    input.KeyEvent(Enter);
    input.FireKeyTimer(6);
    selection, reported := input.selected, input.notified;
  }
}
