/**
  The tag-list input used for achievements, technologies, honors, coursework
  and highlights: a list of values owned by the parent form plus the text
  typed into the input box.
 */
module ArrayInput {
  import opened Text
  import opened Seqs

  /** The list the parent holds (`values`) and the input box's text (`inputValue`). */
  datatype State = State(values: seq<String>, input: String)

  /** A value as `handleAdd` stores it: not empty, no outer whitespace. */
  predicate IsCleanValue(s: String) {
    s != [] && IsTrimmed(s)
  }

  /** Every value in the list is clean. */
  predicate AllClean(values: seq<String>) {
    forall k :: 0 <= k < |values| ==> IsCleanValue(values[k])
  }

  /** `handleAdd`: a non-blank input is trimmed, appended, and the box is cleared. */
  function HandleAdd(st: State): (r: State)
    ensures !IsBlank(st.input) ==> r.values == st.values + [Trim(st.input)] && r.input == ""
    ensures IsBlank(st.input) ==> r == st
    ensures !IsBlank(st.input) ==> IsCleanValue(r.values[|st.values|])
  {
    if Trim(st.input) != [] then State(st.values + [Trim(st.input)], "") else st
  }

  /** `handleRemove(index)`: position `index` dropped if there is one; the box is untouched. */
  function HandleRemove(st: State, index: int): (r: State)
    ensures 0 <= index < |st.values| ==> r.values == st.values[..index] + st.values[index + 1..]
    ensures !(0 <= index < |st.values|) ==> r.values == st.values
    ensures r.input == st.input
  {
    State(RemoveAt(st.values, index), st.input)
  }

  /** `handleKeyPress`: Enter acts as `handleAdd` and cancels the form submission; other keys do nothing. */
  function HandleKeyPress(st: State, key: String): (r: (State, bool))
    ensures key == "Enter" ==> r.0 == HandleAdd(st) && r.1
    ensures key != "Enter" ==> r.0 == st && !r.1
  {
    if key == "Enter" then (HandleAdd(st), true) else (st, false)
  }

  /** The list grows by one on a non-blank add, and shrinks by one on a remove exactly when the index exists. */
  lemma LengthChanges(st: State, index: int)
    ensures |HandleAdd(st).values| == if IsBlank(st.input) then |st.values| else |st.values| + 1
    ensures |HandleRemove(st, index).values| == if 0 <= index < |st.values| then |st.values| - 1 else |st.values|
  {
  }

  /** An add keeps a clean list clean. */
  lemma AddKeepsValuesClean(st: State)
    requires AllClean(st.values)
    ensures AllClean(HandleAdd(st).values)
  {
    if !IsBlank(st.input) {
      var a := HandleAdd(st).values;
      forall k | 0 <= k < |a| ensures IsCleanValue(a[k]) {
        if k < |st.values| { assert a[k] == st.values[k]; }
      }
    }
  }

  /** A remove keeps a clean list clean. */
  lemma RemoveKeepsValuesClean(st: State, index: int)
    requires AllClean(st.values)
    ensures AllClean(HandleRemove(st, index).values)
  {
    if 0 <= index < |st.values| {
      var r := HandleRemove(st, index).values;
      forall k | 0 <= k < |r| ensures IsCleanValue(r[k]) {
        if k < index { assert r[k] == st.values[k]; } else { assert r[k] == st.values[k + 1]; }
      }
    }
  }

  /** Lists built only through this input hold clean values: every handler keeps the property. */
  lemma HandlersKeepValuesClean(st: State, index: int, key: String)
    requires AllClean(st.values)
    ensures AllClean(HandleAdd(st).values)
    ensures AllClean(HandleRemove(st, index).values)
    ensures AllClean(HandleKeyPress(st, key).0.values)
  {
    AddKeepsValuesClean(st);
    RemoveKeepsValuesClean(st, index);
  }

  /** Removing the value that a non-blank add appended restores the list. */
  lemma RemoveUndoesAdd(st: State)
    requires !IsBlank(st.input)
    ensures HandleRemove(HandleAdd(st), |st.values|).values == st.values
  {
    RemoveLastAppended(st.values, Trim(st.input));
  }
}
