/** The text field that offers environment variables: typing `{{` and a
    word before the cursor opens a list of the variables whose key contains
    the word, the arrow keys move through it cyclically, and choosing one
    replaces the typed word by the complete placeholder `{{name}}`. */
module SuggestionInput {
  import opened Wrappers
  import opened Seqs
  import opened Strings
  import opened Types

  // ---------------------------------------------------------------------
  // The trigger `/\{\{([a-zA-Z0-9_]*)$/`

  /** `[a-zA-Z0-9_]` */
  predicate WordChar(c: char) {
    ('a' <= c <= 'z') || ('A' <= c <= 'Z') || ('0' <= c <= '9') || c == '_'
  }

  /** The length of the longest tail of `t` made of word characters. */
  function WordTail(t: string): (n: nat)
    ensures n <= |t|
    ensures forall i :: |t| - n <= i < |t| ==> WordChar(t[i])
    ensures n < |t| ==> !WordChar(t[|t| - n - 1])
    decreases |t|
  {
    if t != [] && WordChar(t[|t| - 1]) then
      var n := WordTail(t[..|t| - 1]);
      assert forall i :: 0 <= i < |t| - 1 ==> t[..|t| - 1][i] == t[i];
      n + 1
    else 0
  }

  /** The expression matches `t` at index `i`: `{{` there, then word
      characters up to the end. */
  predicate TriggerAt(t: string, i: nat) {
    i + 2 <= |t| && t[i] == '{' && t[i + 1] == '{' && forall j :: i + 2 <= j < |t| ==> WordChar(t[j])
  }

  /** Where the expression matches `t`, if it does: the index of `{{`. */
  function Trigger(t: string): Option<nat> {
    var k := |t| - WordTail(t);
    if k >= 2 && t[k - 2] == '{' && t[k - 1] == '{' then Some(k - 2) else None
  }

  /** `Trigger` reports exactly the index where the expression matches;
      since `{` is not a word character there is at most one. */
  lemma TriggerIsTheMatch(t: string, i: nat)
    ensures Trigger(t) == Some(i) <==> TriggerAt(t, i)
  {
    var n := WordTail(t);
    if TriggerAt(t, i) {
      assert !WordChar(t[i + 1]);
      assert n <= |t| - i - 2;
      assert n >= |t| - i - 2;
    }
  }

  /** The captured word: what follows `{{` in `t`. */
  function Word(t: string): string
    requires Trigger(t).Some?
  {
    t[Trigger(t).value + 2..]
  }

  /** `value.slice(0, cursor)` and `value.slice(cursor)`: slicing clamps
      the cursor to the text. */
  function Clamp(value: string, cursor: nat): (c: nat)
    ensures c <= |value|
  {
    if cursor < |value| then cursor else |value|
  }

  function Before(value: string, cursor: nat): string {
    value[..Clamp(value, cursor)]
  }

  function After(value: string, cursor: nat): string {
    value[Clamp(value, cursor)..]
  }

  // ---------------------------------------------------------------------
  // The list

  function KeyContains(filter: string): KeyValueItem -> bool {
    (v: KeyValueItem) => Contains(Lower(v.key), Lower(filter))
  }

  /** The offered variables: those whose key contains the filter,
      ignoring case, in their original order. */
  function Filtered(variables: seq<KeyValueItem>, filter: string): (r: seq<KeyValueItem>)
    ensures IsSubsequence(r, variables)
    ensures forall i :: 0 <= i < |r| ==> Contains(Lower(r[i].key), Lower(filter))
    ensures forall i :: 0 <= i < |variables| && Contains(Lower(variables[i].key), Lower(filter)) ==> variables[i] in r
    ensures forall v :: multiset(r)[v] == if Contains(Lower(v.key), Lower(filter)) then multiset(variables)[v] else 0
  {
    var r := Filter(variables, KeyContains(filter));
    FilterCounts(variables, KeyContains(filter));
    assert forall i :: 0 <= i < |r| ==> KeyContains(filter)(r[i]);
    assert forall i :: 0 <= i < |variables| && Contains(Lower(variables[i].key), Lower(filter)) ==> KeyContains(filter)(variables[i]);
    r
  }

  // ---------------------------------------------------------------------
  // Choosing a variable

  /** The text after a choice and where the cursor is put. */
  datatype Selection = Selection(value: string, cursor: nat)

  /** `handleSelect`: the text before the `{{`, then `{{name}}`, then the
      text after the cursor; the cursor goes `prefix.length + name.length
      + 4` along. Nothing happens when the text before the cursor does not
      end with `{{` and a word. */
  function Splice(value: string, cursor: nat, name: string): (r: Option<Selection>)
    ensures r.None? <==> Trigger(Before(value, cursor)).None?
  {
    var before := Before(value, cursor);
    var m := Trigger(before);
    if m.None? then None
    else
      var prefix := before[..m.value];
      Some(Selection(prefix + "{{" + name + "}}" + After(value, cursor), |prefix| + |name| + 4))
  }

  /** A choice replaces the typed word, and only it: the text was the
      prefix, `{{`, the word and the text after the cursor, and becomes the
      prefix, `{{name}}` and the same text after the cursor. The new cursor
      stands just past the inserted `}}`. */
  lemma SpliceReplacesWord(value: string, cursor: nat, name: string)
    requires Trigger(Before(value, cursor)).Some?
    ensures var before := Before(value, cursor);
      var prefix := before[..Trigger(before).value];
      var sel := Splice(value, cursor, name).value;
      && value == prefix + "{{" + Word(before) + After(value, cursor)
      && sel.value[..sel.cursor] == prefix + "{{" + name + "}}"
      && sel.value[sel.cursor..] == After(value, cursor)
  {
    var before := Before(value, cursor);
    var i := Trigger(before).value;
    var prefix := before[..i];
    assert before == prefix + "{{" + Word(before);
    assert value == before + After(value, cursor);
    var sel := Splice(value, cursor, name).value;
    var head := prefix + "{{" + name + "}}";
    assert |head| == sel.cursor;
    assert sel.value == head + After(value, cursor);
  }

  // ---------------------------------------------------------------------
  // Moving the focus

  /** JavaScript's `%` on integers: the remainder takes the sign of the
      dividend. */
  function JsRem(a: int, b: int): (r: int)
    requires b != 0
    ensures a >= 0 && b > 0 ==> 0 <= r < b
  {
    if a >= 0 then a % (if b > 0 then b else -b)
    else -((-a) % (if b > 0 then b else -b))
  }

  /** ArrowDown: `(i + 1) % n`. */
  function FocusDown(i: int, n: int): int
    requires n != 0
  {
    JsRem(i + 1, n)
  }

  /** ArrowUp: `(i - 1 + n) % n`. */
  function FocusUp(i: int, n: int): int
    requires n != 0
  {
    JsRem(i - 1 + n, n)
  }

  /** On a list of `n > 0` entries each key moves the focus by one and
      wraps around at the ends. */
  lemma FocusWraps(i: int, n: int)
    requires 0 <= i < n
    ensures FocusDown(i, n) == if i == n - 1 then 0 else i + 1
    ensures FocusUp(i, n) == if i == 0 then n - 1 else i - 1
  {
    ModBelow(i + 1, n);
    ModBelow(i - 1 + n, n);
  }

  /** On a list of `n > 0` entries the focus stays on an entry and the two
      keys undo each other. */
  lemma FocusCycles(i: int, n: int)
    requires 0 <= i < n
    ensures 0 <= FocusDown(i, n) < n && 0 <= FocusUp(i, n) < n
    ensures FocusUp(FocusDown(i, n), n) == i && FocusDown(FocusUp(i, n), n) == i
  {
    FocusWraps(i, n);
    FocusWraps(FocusDown(i, n), n);
    FocusWraps(FocusUp(i, n), n);
  }

  /** The remainder of a number below twice the divisor. */
  lemma ModBelow(a: int, n: int)
    requires 0 <= a < 2 * n
    ensures a % n == if a < n then a else a - n
  {
    if a >= n {
      assert a == n * 1 + (a - n);
    }
  }

  /** The keys the open list reacts to. */
  predicate HandledKey(key: string) {
    key == "ArrowDown" || key == "ArrowUp" || key == "Enter" || key == "Tab" || key == "Escape"
  }

  /** A JavaScript number as the focus index holds it: `x % 0` is NaN,
      and arithmetic on NaN stays NaN. */
  datatype Number = Num(n: int) | NaN

  // ---------------------------------------------------------------------
  // The component

  /** The component's state with the two properties it renders: the
      text and the variables. */
  class SuggestionBox {
    var value: string
    var variables: seq<KeyValueItem>
    var showSuggestions: bool
    var cursorIndex: nat
    var filter: string
    var focusedIndex: Number

    /** While the list is shown and not empty, the focus is on an entry. */
    ghost predicate Valid()
      reads this
    {
      showSuggestions && |Filtered(variables, filter)| > 0 ==>
        focusedIndex.Num? && 0 <= focusedIndex.n < |Filtered(variables, filter)|
    }

    constructor (value: string, variables: seq<KeyValueItem>)
      ensures Valid()
      ensures this.value == value && this.variables == variables
      ensures !showSuggestions && cursorIndex == 0 && filter == "" && focusedIndex == Num(0)
    {
      this.value := value;
      this.variables := variables;
      showSuggestions := false;
      cursorIndex := 0;
      filter := "";
      focusedIndex := Num(0);
    }

    /** The effect that watches the text, the cursor and the variables:
        the list opens, on the captured word and with the focus on its
        first entry, exactly when the text before the cursor ends with
        `{{` and a word and there are variables; otherwise it closes. */
    method Sync()
      requires Valid()
      modifies this
      ensures Valid()
      ensures showSuggestions == (Trigger(Before(value, cursorIndex)).Some? && |variables| > 0)
      ensures showSuggestions ==> filter == Word(Before(value, cursorIndex)) && focusedIndex == Num(0)
      ensures !showSuggestions ==> filter == old(filter) && focusedIndex == old(focusedIndex)
      ensures value == old(value) && variables == old(variables) && cursorIndex == old(cursorIndex)
    {
      var before := Before(value, cursorIndex);
      var m := Trigger(before);
      if m.Some? && |variables| > 0 {
        filter := before[m.value + 2..];
        showSuggestions := true;
        focusedIndex := Num(0);
      } else {
        showSuggestions := false;
      }
    }

    /** New variables from the parent, followed by the effect they
        trigger. */
    method SetVariables(vs: seq<KeyValueItem>)
      requires Valid()
      modifies this
      ensures Valid()
      ensures variables == vs && value == old(value) && cursorIndex == old(cursorIndex)
      ensures showSuggestions == (Trigger(Before(value, cursorIndex)).Some? && |vs| > 0)
      ensures showSuggestions ==> filter == Word(Before(value, cursorIndex)) && focusedIndex == Num(0)
      ensures !showSuggestions ==> filter == old(filter) && focusedIndex == old(focusedIndex)
    {
      variables := vs;
      showSuggestions := false;
      Sync();
    }

    /** `handleChange`: the cursor moves to the selection start (0 when
        there is none) and the parent takes the new text. */
    method Change(newValue: string, selectionStart: Option<nat>)
      requires Valid()
      modifies this
      ensures Valid()
      ensures value == newValue && cursorIndex == if selectionStart.Some? then selectionStart.value else 0
      ensures variables == old(variables) && showSuggestions == old(showSuggestions)
      ensures filter == old(filter) && focusedIndex == old(focusedIndex)
    {
      cursorIndex := if selectionStart.Some? then selectionStart.value else 0;
      value := newValue;
    }

    /** `handleSelect`: the placeholder for `name` replaces the typed word
        and the list closes, and the cursor position to restore is
        returned; without a trigger nothing changes. */
    method Select(name: string) returns (cursor: Option<nat>)
      requires Valid()
      modifies this
      ensures Valid()
      ensures var sel := Splice(old(value), old(cursorIndex), name);
        && (sel.None? ==> value == old(value) && showSuggestions == old(showSuggestions) && cursor.None?)
        && (sel.Some? ==> value == sel.value.value && !showSuggestions && cursor == Some(sel.value.cursor))
      ensures variables == old(variables) && cursorIndex == old(cursorIndex)
      ensures filter == old(filter) && focusedIndex == old(focusedIndex)
    {
      var sel := Splice(value, cursorIndex, name);
      if sel.Some? {
        value := sel.value.value;
        showSuggestions := false;
        cursor := Some(sel.value.cursor);
      } else {
        cursor := None;
      }
    }

    /** `handleKeyDown`. With the list closed the key goes to the field's
        own handler. Otherwise the arrows move the focus cyclically over
        the offered entries, Enter and Tab choose the focused entry (or
        close an empty list), Escape closes the list, and any other key
        changes nothing. */
    method KeyDown(key: string) returns (forwarded: bool, cursor: Option<nat>)
      requires Valid()
      modifies this
      ensures Valid()
      ensures forwarded <==> !old(showSuggestions)
      ensures forwarded ==>
        value == old(value) && showSuggestions == old(showSuggestions) && focusedIndex == old(focusedIndex) && cursor.None?
      ensures variables == old(variables) && filter == old(filter) && cursorIndex == old(cursorIndex)
      ensures var n := |Filtered(variables, filter)|;
        !forwarded && (key == "ArrowDown" || key == "ArrowUp") ==>
          && value == old(value) && showSuggestions && cursor.None?
          && (n == 0 ==> focusedIndex == NaN)
          && (n > 0 ==> focusedIndex == Num(if key == "ArrowDown" then FocusDown(old(focusedIndex).n, n) else FocusUp(old(focusedIndex).n, n)))
      ensures !forwarded && key == "Escape" ==>
        !showSuggestions && value == old(value) && focusedIndex == old(focusedIndex) && cursor.None?
      ensures var n := |Filtered(variables, filter)|;
        !forwarded && (key == "Enter" || key == "Tab") && n == 0 ==>
          !showSuggestions && value == old(value) && focusedIndex == old(focusedIndex) && cursor.None?
      ensures var entries := Filtered(variables, filter);
        !forwarded && (key == "Enter" || key == "Tab") && |entries| > 0 ==>
          var sel := Splice(old(value), cursorIndex, entries[old(focusedIndex).n].key);
          && focusedIndex == old(focusedIndex)
          && (sel.Some? ==> value == sel.value.value && !showSuggestions && cursor == Some(sel.value.cursor))
          && (sel.None? ==> value == old(value) && showSuggestions == old(showSuggestions) && cursor.None?)
      ensures !forwarded && !HandledKey(key) ==>
        value == old(value) && showSuggestions == old(showSuggestions) && focusedIndex == old(focusedIndex) && cursor.None?
    {
      cursor := None;
      if !showSuggestions {
        return true, None;
      }
      forwarded := false;
      var filtered := Filtered(variables, filter);
      var n := |filtered|;
      if key == "ArrowDown" {
        focusedIndex := if n == 0 || focusedIndex.NaN? then NaN else Num(FocusDown(focusedIndex.n, n));
        if n > 0 {
          FocusCycles(old(focusedIndex).n, n);
        }
      } else if key == "ArrowUp" {
        focusedIndex := if n == 0 || focusedIndex.NaN? then NaN else Num(FocusUp(focusedIndex.n, n));
        if n > 0 {
          FocusCycles(old(focusedIndex).n, n);
        }
      } else if key == "Enter" || key == "Tab" {
        if n > 0 {
          cursor := Select(filtered[focusedIndex.n].key);
        } else {
          showSuggestions := false;
        }
      } else if key == "Escape" {
        showSuggestions := false;
      }
    }
  }
}
