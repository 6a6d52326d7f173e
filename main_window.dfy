/**
  The ToDoWin main window as an object whose handlers update its fields in
  place: the four slot texts (an array), the cursor, the input box text, the
  `DynamicText` property and the log of PropertyChanged notifications it has
  raised. Each method is proved against the value-level specifications in
  modules Slots and Notify.
 */
module ToDoWin {
  import opened Slots
  import opened Notify

  /** The text the constructor assigns to `DynamicText`. */
  const InitialDynamicText: string := "Исходный текст"

  class MainWindow {
    /** The texts of the four slot text boxes, in display order. */
    const textBoxes: array<string>
    /** Index of the slot the next commit writes. */
    var currentTextBlock: int
    /** The text of the input box. */
    var inputText: string
    /** Backing field of `DynamicText`; None stands for null. */
    var dynamicText: Option<string>
    /** Names of the PropertyChanged notifications raised so far, oldest first. */
    ghost var raised: seq<string>

    /** Four slots, and the cursor designates one of them. */
    ghost predicate Valid()
      reads this
    {
      textBoxes.Length == SlotCount && 0 <= currentTextBlock < textBoxes.Length
    }

    /** The slots, cursor and input as a value. */
    ghost function State(): (p: Panel)
      requires Valid()
      reads this, textBoxes
      ensures WellFormed(p)
    {
      Panel(textBoxes[..], currentTextBlock, inputText)
    }

    /** The property value and notification log as a value. */
    ghost function Property(): Binding
      reads this
    {
      Binding(dynamicText, raised)
    }

    /**
      Builds the window. The slot texts and the input text the window starts
      with are declared in its XAML markup, which is not part of this model,
      so they are parameters. `DynamicText` starts null and is then assigned
      InitialDynamicText, which raises one notification.
     */
    constructor (boxes: seq<string>, input: string)
      requires |boxes| == SlotCount
      ensures Valid() && fresh(textBoxes)
      ensures State() == Initial(boxes, input)
      ensures Property() == Assign(Binding(None, []), Some(InitialDynamicText))
      ensures raised == [PropertyName]
    {
      textBoxes := new string[|boxes|](i requires 0 <= i < |boxes| => boxes[i]);
      currentTextBlock := 0;
      inputText := input;
      dynamicText := None;
      raised := [];
      new;
      SetDynamicText(Some(InitialDynamicText));
      assert textBoxes[..] == boxes;
    }

    /** The `DynamicText` getter. */
    method GetDynamicText() returns (v: Option<string>)
      ensures v == dynamicText
    {
      v := dynamicText;
    }

    /**
      The `DynamicText` setter: stores `value` and raises one notification
      only when it differs from the stored value.
     */
    method SetDynamicText(value: Option<string>)
      modifies this`dynamicText, this`raised
      ensures Property() == Assign(old(Property()), value)
    {
      if dynamicText != value {
        dynamicText := value;
        OnPropertyChanged(PropertyName);
      }
    }

    /** Raises PropertyChanged carrying `propertyName`. */
    method OnPropertyChanged(propertyName: string)
      modifies this`raised
      ensures raised == old(raised) + [propertyName]
    {
      raised := raised + [propertyName];
    }

    /**
      Key-down in the input box: on Enter, the input text goes into the slot
      under the cursor, the cursor advances modulo the number of slots and
      the input box is cleared; other keys change nothing.
     */
    method InputTextBoxKeyDown(key: Key)
      requires Valid()
      modifies this`currentTextBlock, this`inputText, textBoxes
      ensures Valid()
      ensures State() == KeyDown(old(State()), key)
    {
      if key == Enter {
        textBoxes[currentTextBlock] := inputText;
        currentTextBlock := (currentTextBlock + 1) % textBoxes.Length;
        inputText := "";
      }
    }
  }

  /**
    A window whose slots start empty receives the commits a, b, c, d and e:
    the fifth wraps around onto slot 0 and leaves the cursor at 1.
   */
  method WrapAroundScenario() returns (slots: seq<string>, cursor: int, input: string)
    ensures slots == ["e", "b", "c", "d"] && cursor == 1 && input == ""
  {
    var w := new MainWindow(["", "", "", ""], "");
    w.inputText := "a";
    w.InputTextBoxKeyDown(Enter);
    w.inputText := "b";
    w.InputTextBoxKeyDown(Enter);
    w.inputText := "c";
    w.InputTextBoxKeyDown(Enter);
    w.inputText := "d";
    w.InputTextBoxKeyDown(Enter);
    w.inputText := "e";
    w.InputTextBoxKeyDown(Enter);
    slots, cursor, input := w.textBoxes[..], w.currentTextBlock, w.inputText;
  }
}
