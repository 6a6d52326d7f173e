/**
  The change-guarded `DynamicText` property of the ToDoWin window, stated on
  values.

  The stored text is a C# string reference, so it can be null: it is null
  until the constructor first assigns it, and a caller may assign null. It is
  modelled as an Option, with None for null; C# string inequality compares
  contents, as Dafny's equality does. Every raised PropertyChanged
  notification is recorded by the name it carries.
 */
module Notify {

  datatype Option<T> = None | Some(value: T)

  /** The name carried by the notification the setter raises. */
  const PropertyName: string := "DynamicText"

  /** The stored property value and the notifications raised so far, oldest first. */
  datatype Binding = Binding(text: Option<string>, raised: seq<string>)

  /**
    Assigning `value` to the property: it is always stored afterwards, and
    exactly one notification is raised if and only if it differs from the
    value stored before.
   */
  function Assign(b: Binding, value: Option<string>): (r: Binding)
    ensures r.text == value
    ensures b.text == value <==> r == b
    ensures b.text != value ==> r.raised == b.raised + [PropertyName]
  {
    if b.text != value then Binding(value, b.raised + [PropertyName]) else b
  }

  /** Assigning each of `values` in order. */
  function AssignAll(b: Binding, values: seq<Option<string>>): (r: Binding)
    decreases |values|
  {
    if values == [] then b else AssignAll(Assign(b, values[0]), values[1..])
  }

  /** How many of `values` differ from the value assigned just before them (`prev` for the first). */
  function Changes(prev: Option<string>, values: seq<Option<string>>): (n: nat)
    ensures n <= |values|
    decreases |values|
  {
    if values == [] then 0
    else (if values[0] != prev then 1 else 0) + Changes(values[0], values[1..])
  }

  /** `n` notifications named PropertyName. */
  function Notifications(n: nat): (s: seq<string>)
    ensures |s| == n && forall i :: 0 <= i < n ==> s[i] == PropertyName
  {
    if n == 0 then [] else Notifications(n - 1) + [PropertyName]
  }

  /**
    Over any series of assignments, one notification is raised per assignment
    that changes the value and none otherwise, and the last value assigned is
    the one stored.
   */
  lemma {:induction false} AssignAllRaisesPerChange(b: Binding, values: seq<Option<string>>)
    ensures AssignAll(b, values).raised == b.raised + Notifications(Changes(b.text, values))
    ensures AssignAll(b, values).text == if values == [] then b.text else values[|values| - 1]
    decreases |values|
  {
    if values != [] {
      var b' := Assign(b, values[0]);
      AssignAllRaisesPerChange(b', values[1..]);
      assert values[1..] != [] ==> values[1..][|values[1..]| - 1] == values[|values| - 1];
    }
  }

  /** Assigning the same value twice in a row raises what one assignment raises. */
  lemma AssignTwiceIsAssignOnce(b: Binding, value: Option<string>)
    ensures AssignAll(b, [value, value]) == Assign(b, value)
  {
    var once := Assign(b, value);
    assert [value, value][1..] == [value];
    assert [value][1..] == [];
    assert AssignAll(once, [value]) == AssignAll(Assign(once, value), []);
  }
}
