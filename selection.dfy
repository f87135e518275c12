/** The value-level rules of the currency selector: how a click toggles the
    selection, when an item's checkbox is ticked, and how the arrow keys move
    the highlight. */
module Selection {
  import opened Currency
  import opened Sequences

  /** Some selected entry bears the name `name`. */
  function HasName(sel: seq<Candidate>, name: string): (r: bool)
    ensures r <==> exists i :: 0 <= i < |sel| && sel[i].name == name
    ensures r ==> sel != []
  {
    exists c | c in sel :: c.name == name
  }

  /** The test "bears a name other than `name`". */
  function NameIsNot(name: string): Candidate -> bool {
    (c: Candidate) => c.name != name
  }

  /** The selection without the entries that bear the name `name`. */
  function WithoutName(sel: seq<Candidate>, name: string): (r: seq<Candidate>)
    ensures !HasName(r, name)
    ensures forall c: Candidate :: c.name != name ==> multiset(r)[c] == multiset(sel)[c]
    ensures IsSubsequence(r, sel)
  {
    FilterIsSubsequence(sel, NameIsNot(name));
    forall c ensures multiset(Filter(sel, NameIsNot(name)))[c]
                   == if NameIsNot(name)(c) then multiset(sel)[c] else 0 {
      FilterCount(sel, NameIsNot(name), c);
    }
    Filter(sel, NameIsNot(name))
  }

  /** Multi-select toggle: drop every entry with the candidate's name if there
      is one, otherwise add the candidate at the end. */
  function MultiToggle(sel: seq<Candidate>, c: Candidate): (r: seq<Candidate>)
    ensures HasName(r, c.name) <==> !HasName(sel, c.name)
    ensures forall x: Candidate :: x.name != c.name ==> multiset(r)[x] == multiset(sel)[x]
    ensures HasName(sel, c.name) ==> IsSubsequence(r, sel) && |r| < |sel|
    ensures !HasName(sel, c.name) ==> r == sel + [c]
  {
    if HasName(sel, c.name) then
      var r := WithoutName(sel, c.name);
      var x :| x in sel && x.name == c.name;
      assert multiset(r)[x] == 0 < multiset(sel)[x];
      assert |r| != |sel| by {
        if |r| == |sel| {
          var idx :| Embedding(idx, r, sel);
          EmbeddingOfFullLength(idx, r, sel);
        }
      }
      r
    else
      assert c in sel + [c];
      sel + [c]
  }

  /** A subsequence as long as its source is the source itself. */
  lemma EmbeddingOfFullLength<T>(idx: seq<int>, r: seq<T>, s: seq<T>)
    requires Embedding(idx, r, s) && |r| == |s|
    ensures r == s
  {
    forall j | 0 <= j < |idx| ensures idx[j] == j {
      EmbeddingIndexBounds(idx, r, s, j);
    }
  }

  lemma {:induction false} EmbeddingIndexBounds<T>(idx: seq<int>, r: seq<T>, s: seq<T>, j: int)
    requires Embedding(idx, r, s) && 0 <= j < |idx|
    ensures j <= idx[j] <= |s| - |idx| + j
    decreases j
  {
    if j > 0 {
      EmbeddingIndexBounds(idx, r, s, j - 1);
    }
    if j < |idx| - 1 {
      EmbeddingUpper(idx, r, s, j);
    }
  }

  lemma {:induction false} EmbeddingUpper<T>(idx: seq<int>, r: seq<T>, s: seq<T>, j: int)
    requires Embedding(idx, r, s) && 0 <= j < |idx|
    ensures idx[j] <= |s| - |idx| + j
    decreases |idx| - j
  {
    if j < |idx| - 1 {
      EmbeddingUpper(idx, r, s, j + 1);
    }
  }

  /** Single-select toggle: record identity, not the name, decides. */
  function SingleToggle(sel: seq<Candidate>, c: Candidate): (r: seq<Candidate>)
    ensures |r| <= 1
    ensures c in r <==> c !in sel
    ensures forall x :: x in r ==> x == c
  {
    if c in sel then [] else [c]
  }

  /** The selection `handleCurrencySelect` stores and reports. */
  function NextSelection(multiple: bool, sel: seq<Candidate>, c: Candidate): (r: seq<Candidate>)
    ensures multiple && UniqueNames(sel) ==> UniqueNames(r)
    ensures !multiple ==> |r| <= 1
    ensures multiple ==> (IsChecked(r, c) <==> !IsChecked(sel, c))
  {
    if multiple then
      MultiTogglePreservesUniqueNames(sel, c);
      MultiToggle(sel, c)
    else
      SingleToggle(sel, c)
  }

  /** The checkbox beside an item is ticked when a selected entry bears its
      name. */
  function IsChecked(sel: seq<Candidate>, c: Candidate): (r: bool)
    ensures c in sel ==> r
    ensures r ==> exists i :: 0 <= i < |sel| && sel[i].name == c.name
    ensures forall x: Candidate :: x.name == c.name ==> (r <==> HasName(sel, x.name))
  {
    HasName(sel, c.name)
  }

  lemma SubsequenceKeepsUniqueNames(r: seq<Candidate>, s: seq<Candidate>)
    requires IsSubsequence(r, s) && UniqueNames(s)
    ensures UniqueNames(r)
  {
    var idx :| Embedding(idx, r, s);
    forall i, j | 0 <= i < j < |r| ensures r[i].name != r[j].name {
      assert idx[i] < idx[j];
    }
  }

  /** Toggling never lets two selected entries share a name. */
  lemma MultiTogglePreservesUniqueNames(sel: seq<Candidate>, c: Candidate)
    ensures UniqueNames(sel) ==> UniqueNames(MultiToggle(sel, c))
  {
    if !UniqueNames(sel) {
    } else if HasName(sel, c.name) {
      SubsequenceKeepsUniqueNames(MultiToggle(sel, c), sel);
    } else {
      var r := sel + [c];
      forall i, j | 0 <= i < j < |r| ensures r[i].name != r[j].name {
        if j == |sel| {
          assert r[i] in sel;
        }
      }
    }
  }

  /** Adding a candidate whose name is not selected and toggling it again
      restores the selection exactly. */
  lemma MultiToggleTwiceFromAbsent(sel: seq<Candidate>, c: Candidate)
    requires !HasName(sel, c.name)
    ensures MultiToggle(MultiToggle(sel, c), c) == sel
  {
    var added := sel + [c];
    assert c in added;
    FilterAppend(sel, [c], NameIsNot(c.name));
    assert Filter([c], NameIsNot(c.name)) == [];
    FilterKeepsAll(sel, NameIsNot(c.name));
  }

  /** With unique names, dropping the name of entry `i` removes just that
      entry. */
  lemma WithoutNameAt(sel: seq<Candidate>, i: int)
    requires UniqueNames(sel) && 0 <= i < |sel|
    ensures WithoutName(sel, sel[i].name) == sel[..i] + sel[i + 1..]
  {
    var keep := NameIsNot(sel[i].name);
    assert sel == sel[..i] + ([sel[i]] + sel[i + 1..]);
    FilterAppend(sel[..i], [sel[i]] + sel[i + 1..], keep);
    FilterAppend([sel[i]], sel[i + 1..], keep);
    assert Filter([sel[i]], keep) == [];
    FilterKeepsAll(sel[..i], keep);
    FilterKeepsAll(sel[i + 1..], keep);
  }

  /** Removing a selected name and toggling the candidate again puts the
      candidate back, but at the end: the rest keep their order. */
  lemma MultiToggleTwiceFromPresent(sel: seq<Candidate>, c: Candidate, i: int)
    requires UniqueNames(sel) && 0 <= i < |sel| && sel[i].name == c.name
    ensures MultiToggle(MultiToggle(sel, c), c) == sel[..i] + sel[i + 1..] + [c]
  {
    assert sel[i] in sel && HasName(sel, c.name);
    WithoutNameAt(sel, i);
    var removed := sel[..i] + sel[i + 1..];
    assert first: MultiToggle(sel, c) == removed;
    assert !HasName(removed, c.name);
    assert MultiToggle(removed, c) == removed + [c];
  }

  lemma MoveToEndKeepsMultiset<T>(s: seq<T>, i: int)
    requires 0 <= i < |s|
    ensures multiset(s[..i] + s[i + 1..] + [s[i]]) == multiset(s)
  {
    assert s == s[..i] + [s[i]] + s[i + 1..];
  }

  /** Toggling a selected record off and on again leaves the same entries
      selected, as many times each. */
  lemma MultiToggleTwiceIsPermutation(sel: seq<Candidate>, c: Candidate)
    requires UniqueNames(sel) && c in sel
    ensures multiset(MultiToggle(MultiToggle(sel, c), c)) == multiset(sel)
  {
    var i :| 0 <= i < |sel| && sel[i] == c;
    MultiToggleTwiceFromPresent(sel, c, i);
    MoveToEndKeepsMultiset(sel, i);
  }

  /** In single-select mode a second click on the same record ends with it
      selected exactly when it was selected before the first. */
  lemma SingleToggleTwice(sel: seq<Candidate>, c: Candidate)
    ensures SingleToggle(SingleToggle(sel, c), c) == if c in sel then [c] else []
  {
  }

  /** In single-select mode picking `a` and then another record `b` leaves
      exactly `b` selected. */
  lemma SingleSelectReplaces(sel: seq<Candidate>, a: Candidate, b: Candidate)
    requires a != b
    ensures SingleToggle(SingleToggle(sel, a), b) == [b]
  {
  }

  /** The highlight is "none" (-1) or an index of the list; on an empty list
      ArrowDown can leave it at 0. */
  predicate HighlightInRange(h: int, len: nat) {
    -1 <= h && (h < len || h == 0)
  }

  /** ArrowDown: one step down, or back to the top from the last item. */
  function ArrowDownIndex(prev: int, len: nat): (r: int)
    ensures HighlightInRange(prev, len) ==> HighlightInRange(r, len)
    ensures len > 0 && -1 <= prev < len ==> 0 <= r < len
    ensures prev >= len - 1 ==> r == 0
  {
    if prev < len - 1 then prev + 1 else 0
  }

  /** ArrowUp: one step up, or to the last item from the top or from no
      highlight. */
  function ArrowUpIndex(prev: int, len: nat): (r: int)
    ensures HighlightInRange(prev, len) ==> HighlightInRange(r, len)
    ensures len > 0 && -1 <= prev < len ==> 0 <= r < len
    ensures prev <= 0 ==> r == len - 1
  {
    if prev > 0 then prev - 1 else len - 1
  }

  /** ArrowDown is the successor modulo the list length, starting from "no
      highlight" as well as from any item. */
  lemma ArrowDownIsSuccessorModLen(prev: int, len: nat)
    requires len > 0 && -1 <= prev < len
    ensures ArrowDownIndex(prev, len) == (prev + 1) % len
  {
    if prev + 1 == len {
      assert (prev + 1) % len == 0;
    } else {
      assert (prev + 1) % len == prev + 1;
    }
  }

  /** ArrowUp is the predecessor modulo the list length on an item; from "no
      highlight" it goes to the last item. */
  lemma ArrowUpIsPredecessorModLen(prev: int, len: nat)
    requires len > 0 && 0 <= prev < len
    ensures ArrowUpIndex(prev, len) == (prev - 1 + len) % len
  {
    if prev == 0 {
      assert (prev - 1 + len) % len == len - 1;
    } else {
      assert (prev - 1 + len) % len == prev - 1 by {
        assert prev - 1 + len == (prev - 1) + 1 * len;
      }
    }
  }

  /** On an item, ArrowUp undoes ArrowDown and ArrowDown undoes ArrowUp. */
  lemma ArrowKeysAreInverse(i: int, len: nat)
    requires 0 <= i < len
    ensures ArrowUpIndex(ArrowDownIndex(i, len), len) == i
    ensures ArrowDownIndex(ArrowUpIndex(i, len), len) == i
  {
  }
}
