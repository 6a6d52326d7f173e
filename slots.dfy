/**
  The round-robin commit of the ToDoWin sidebar, stated on values.

  The window shows four text slots and keeps a cursor into them. Pressing
  Enter in the input box copies the input text into the slot under the
  cursor, moves the cursor on by one (wrapping after the last slot) and
  clears the input box. The class in module ToDoWin does this in place on an
  array; this module is the specification it is proved against, together with
  what follows from it over any number of commits.
 */
module Slots {

  /** Number of text slots the window declares. */
  const SlotCount: nat := 4

  /** The key delivered with a key-down event in the input box. */
  datatype Key = Enter | Other(code: nat)

  /** The observable state: slot texts, the cursor and the input box text. */
  datatype Panel = Panel(slots: seq<string>, cursor: nat, input: string)

  /** Four slots, and the cursor designates one of them. */
  predicate WellFormed(p: Panel) {
    |p.slots| == SlotCount && p.cursor < |p.slots|
  }

  /** The state of a freshly built window whose slots and input box start with the given texts. */
  function Initial(boxes: seq<string>, input: string): (p: Panel)
    requires |boxes| == SlotCount
    ensures WellFormed(p) && p.cursor == 0
  {
    Panel(boxes, 0, input)
  }

  /**
    Key-down in the input box. Enter commits the input into the slot under
    the cursor, advances the cursor circularly and clears the input; any other
    key leaves everything as it was.
   */
  function KeyDown(p: Panel, key: Key): (r: Panel)
    requires WellFormed(p)
    ensures WellFormed(r)
    ensures key != Enter ==> r == p
    ensures key == Enter ==> r.slots[p.cursor] == p.input
    ensures key == Enter ==> forall k :: 0 <= k < SlotCount && k != p.cursor ==> r.slots[k] == p.slots[k]
    ensures key == Enter ==> r.cursor == if p.cursor == SlotCount - 1 then 0 else p.cursor + 1
    ensures key == Enter ==> r.input == ""
  {
    if key.Enter? then Panel(p.slots[p.cursor := p.input], (p.cursor + 1) % |p.slots|, "")
    else p
  }

  /** The user types `text` into the input box, then presses Enter. */
  function Commit(p: Panel, text: string): (r: Panel)
    requires WellFormed(p)
    ensures WellFormed(r)
  {
    KeyDown(p.(input := text), Enter)
  }

  /** The state after committing each of `texts` in order, starting from `p`. */
  function CommitAll(p: Panel, texts: seq<string>): (r: Panel)
    requires WellFormed(p)
    ensures WellFormed(r)
    decreases |texts|
  {
    if texts == [] then p
    else Commit(CommitAll(p, texts[..|texts| - 1]), texts[|texts| - 1])
  }

  /** The slot that the commit with index `j` writes, when the cursor started at `start`. */
  function Target(start: nat, j: nat): nat {
    (start + j) % SlotCount
  }

  /** After n commits the cursor has moved on by n, modulo the slot count. */
  lemma {:induction false} CommitAllCursor(p: Panel, texts: seq<string>)
    requires WellFormed(p)
    ensures CommitAll(p, texts).cursor == Target(p.cursor, |texts|)
    ensures texts != [] ==> CommitAll(p, texts).input == ""
    decreases |texts|
  {
    if texts != [] {
      CommitAllCursor(p, texts[..|texts| - 1]);
    }
  }

  /** A slot that no commit targets keeps the text it had. */
  lemma {:induction false} CommitAllUntouched(p: Panel, texts: seq<string>, k: nat)
    requires WellFormed(p) && k < SlotCount
    requires forall j :: 0 <= j < |texts| ==> Target(p.cursor, j) != k
    ensures CommitAll(p, texts).slots[k] == p.slots[k]
    decreases |texts|
  {
    if texts != [] {
      var n := |texts| - 1;
      CommitAllUntouched(p, texts[..n], k);
      CommitAllCursor(p, texts[..n]);
      assert Target(p.cursor, n) != k;
    }
  }

  /** A slot holds the text of the last commit that targeted it. */
  lemma {:induction false} CommitAllLatest(p: Panel, texts: seq<string>, k: nat, i: nat)
    requires WellFormed(p) && k < SlotCount
    requires i < |texts| && Target(p.cursor, i) == k
    requires forall j :: i < j < |texts| ==> Target(p.cursor, j) != k
    ensures CommitAll(p, texts).slots[k] == texts[i]
    decreases |texts|
  {
    var n := |texts| - 1;
    CommitAllCursor(p, texts[..n]);
    if i < n {
      assert Target(p.cursor, n) != k;
      CommitAllLatest(p, texts[..n], k, i);
    }
  }

  /** The slots hold the most recent SlotCount commits, each where its commit put it. */
  lemma CommitAllKeepsRecent(p: Panel, texts: seq<string>, i: nat)
    requires WellFormed(p)
    requires i < |texts| <= i + SlotCount
    ensures CommitAll(p, texts).slots[Target(p.cursor, i)] == texts[i]
  {
    forall j | i < j < |texts|
      ensures Target(p.cursor, j) != Target(p.cursor, i)
    {
      assert 0 < j - i < SlotCount;
    }
    CommitAllLatest(p, texts, Target(p.cursor, i), i);
  }

  /**
    Starting with the cursor at 0, up to SlotCount commits fill the slots in
    commit order and leave the remaining slots as they were.
   */
  lemma FewCommitsFillInOrder(p: Panel, texts: seq<string>)
    requires WellFormed(p) && p.cursor == 0
    requires |texts| <= SlotCount
    ensures forall i :: 0 <= i < |texts| ==> CommitAll(p, texts).slots[i] == texts[i]
    ensures forall k :: |texts| <= k < SlotCount ==> CommitAll(p, texts).slots[k] == p.slots[k]
  {
    forall i | 0 <= i < |texts|
      ensures CommitAll(p, texts).slots[i] == texts[i]
    {
      assert Target(0, i) == i;
      CommitAllKeepsRecent(p, texts, i);
    }
    forall k | |texts| <= k < SlotCount
      ensures CommitAll(p, texts).slots[k] == p.slots[k]
    {
      forall j | 0 <= j < |texts|
        ensures Target(0, j) != k
      {
        assert Target(0, j) == j;
      }
      CommitAllUntouched(p, texts, k);
    }
  }

  /** Five commits into four empty slots: the fifth overwrites slot 0 and the cursor ends at 1. */
  lemma WrapAroundAfterFive()
    ensures CommitAll(Initial(["", "", "", ""], ""), ["a", "b", "c", "d", "e"])
         == Panel(["e", "b", "c", "d"], 1, "")
  {
    var p := Initial(["", "", "", ""], "");
    var texts := ["a", "b", "c", "d", "e"];
    var r := CommitAll(p, texts);
    CommitAllCursor(p, texts);
    CommitAllLatest(p, texts, 0, 4);
    forall k | 1 <= k < SlotCount
      ensures r.slots[k] == texts[k]
    {
      CommitAllKeepsRecent(p, texts, k);
    }
    assert r.slots == ["e", "b", "c", "d"];
  }
}
