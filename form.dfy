/**
 What the submit handler reads from the quiz form. A named group of inputs is the
 list of `<input name="...">` elements with that name, in document order;
 the page's queries over that group become functions and methods over the
 list.
 */
module Form {
  import opened Wrappers
  import opened Text

  /** One input of a group: its `value` attribute, whether it is checked,
      and the text content of the nearest enclosing `<label>`, if there is one. */
  datatype Input = Input(value: string, checked: bool, labelText: Option<string>)

  predicate NoneChecked(group: seq<Input>) {
    forall i :: 0 <= i < |group| ==> !group[i].checked
  }

  /** `group[i]` is checked and no input before it is. */
  predicate FirstCheckedAt(group: seq<Input>, i: int) {
    0 <= i < |group| && group[i].checked && forall j :: 0 <= j < i ==> !group[j].checked
  }

  /** The value of the first checked input in document order, if any. */
  function FirstChecked(group: seq<Input>): (r: Option<string>)
    ensures r.None? <==> NoneChecked(group)
    ensures r.Some? ==> exists i :: FirstCheckedAt(group, i) && group[i].value == r.value
  {
    if group == [] then None
    else if group[0].checked then
      assert FirstCheckedAt(group, 0);
      Some(group[0].value)
    else
      var r := FirstChecked(group[1..]);
      assert r.Some? ==> exists i :: FirstCheckedAt(group, i) && group[i].value == r.value by {
        if r.Some? {
          var i :| FirstCheckedAt(group[1..], i) && group[1..][i].value == r.value;
          assert FirstCheckedAt(group, i + 1);
        }
      }
      assert NoneChecked(group[1..]) ==> NoneChecked(group) by {
        if NoneChecked(group[1..]) {
          forall i | 0 < i < |group| ensures !group[i].checked {
            assert group[i] == group[1..][i - 1];
          }
        }
      }
      r
  }

  /** `getRadioValue`: walks the group in order and returns the value of the
      first checked input; `None` (the page's `null`) when none is checked. */
  method GetRadioValue(group: seq<Input>) returns (r: Option<string>)
    ensures r == FirstChecked(group)
  {
    for i := 0 to |group|
      invariant FirstChecked(group[i..]) == FirstChecked(group)
    {
      if group[i].checked {
        return Some(group[i].value);
      }
      assert group[i..][1..] == group[i + 1..];
    }
    return None;
  }

  /** `getCheckboxValues`: the values of the checked inputs, in document order. */
  function GetCheckboxValues(group: seq<Input>): (r: seq<string>)
    ensures |r| <= |group|
    ensures r == [] <==> NoneChecked(group)
  {
    if group == [] then []
    else
      assert !group[0].checked && NoneChecked(group[1..]) ==> NoneChecked(group) by {
        if !group[0].checked && NoneChecked(group[1..]) {
          forall i | 0 < i < |group| ensures !group[i].checked {
            assert group[i] == group[1..][i - 1];
          }
        }
      }
      (if group[0].checked then [group[0].value] else []) + GetCheckboxValues(group[1..])
  }

  /** The values read are exactly the values of the checked inputs. */
  lemma {:induction false} GetCheckboxValuesMembers(group: seq<Input>, v: string)
    ensures v in GetCheckboxValues(group) <==> exists i :: 0 <= i < |group| && group[i].checked && group[i].value == v
  {
    if group != [] {
      GetCheckboxValuesMembers(group[1..], v);
      if v in GetCheckboxValues(group[1..]) {
        var i :| 0 <= i < |group[1..]| && group[1..][i].checked && group[1..][i].value == v;
        assert group[i + 1] == group[1..][i];
      }
      if exists i :: 0 <= i < |group| && group[i].checked && group[i].value == v {
        var i :| 0 <= i < |group| && group[i].checked && group[i].value == v;
        if i > 0 {
          assert group[1..][i - 1] == group[i];
        }
      }
    }
  }

  /** One input contributes its value exactly when it is checked. */
  lemma GetCheckboxValuesOne(input: Input)
    ensures GetCheckboxValues([input]) == if input.checked then [input.value] else []
  {
    assert [input][1..] == [];
  }

  /** The values of consecutive runs of inputs are read one run after the
      other: together with the one-input case, the result is the values of
      the checked inputs, each once, in document order. */
  lemma {:induction false} GetCheckboxValuesAppend(g1: seq<Input>, g2: seq<Input>)
    ensures GetCheckboxValues(g1 + g2) == GetCheckboxValues(g1) + GetCheckboxValues(g2)
  {
    if g1 == [] {
      assert g1 + g2 == g2;
    } else {
      var g := g1 + g2;
      assert g[0] == g1[0] && g[1..] == g1[1..] + g2;
      GetCheckboxValuesAppend(g1[1..], g2);
      var h, x, y := if g1[0].checked then [g1[0].value] else [], GetCheckboxValues(g1[1..]), GetCheckboxValues(g2);
      assert GetCheckboxValues(g) == h + (x + y);
      assert h + (x + y) == (h + x) + y;
    }
  }

  /** The position of the first input whose value is `value`, `|group|` if none. */
  function IndexOfValue(group: seq<Input>, value: string): (i: nat)
    ensures i <= |group|
    ensures forall k :: 0 <= k < i ==> group[k].value != value
    ensures i < |group| ==> group[i].value == value
  {
    if group == [] then 0
    else if group[0].value == value then 0
    else 1 + IndexOfValue(group[1..], value)
  }

  /** `getOptionLabel`: the trimmed text of the label around the first input
      with this value; the raw value itself when there is no such input or
      that input has no label. */
  function GetOptionLabel(group: seq<Input>, value: string): (r: string)
    ensures (forall i :: 0 <= i < |group| ==> group[i].value != value) ==> r == value
    ensures r == value || exists i :: 0 <= i < |group| && group[i].value == value && group[i].labelText.Some?
                                      && r == Trim(group[i].labelText.value)
  {
    var i := IndexOfValue(group, value);
    if i == |group| then value
    else
      match group[i].labelText
      case None => value
      case Some(text) => Trim(text)
  }

  /** `value` first occurs in the group at position `i`. */
  predicate FirstWithValueAt(group: seq<Input>, value: string, i: int) {
    0 <= i < |group| && group[i].value == value && forall k :: 0 <= k < i ==> group[k].value != value
  }

  /** The input that decides the label is the first one with that value:
      its label text, trimmed, or the raw value when it has no label. */
  lemma OptionLabelOfFirstMatch(group: seq<Input>, value: string, i: int)
    requires FirstWithValueAt(group, value, i)
    ensures GetOptionLabel(group, value) == if group[i].labelText.Some? then Trim(group[i].labelText.value) else value
  {
    assert IndexOfValue(group, value) == i;
  }

  /** The labels of `ids`, looked up one by one, in the order of `ids`. */
  function OptionLabels(group: seq<Input>, ids: seq<string>): (r: seq<string>)
    ensures |r| == |ids|
    ensures forall k :: 0 <= k < |ids| ==> r[k] == GetOptionLabel(group, ids[k])
  {
    if ids == [] then [] else [GetOptionLabel(group, ids[0])] + OptionLabels(group, ids[1..])
  }
}
