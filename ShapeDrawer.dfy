/** The window's state: the selected shape, the two text fields, whether the
    second field is enabled, the dialogs shown so far and the repaints asked
    for. The handlers are methods called one after another, as the event
    thread runs them. */
module Form {
  import opened Wrappers
  import opened JavaInt
  import opened ParseInt
  import opened Shapes
  import opened Validation

  class ShapeDrawer {
    var shape: Shape
    var text1: string
    var text2: string
    var field2Enabled: bool
    /** Every dialog shown, oldest first. */
    var messages: seq<string>
    /** How many times the drawing panel was asked to repaint. */
    var repaints: nat

    /** The second field is enabled exactly for two-dimension shapes, and a
        circle's second field is empty. */
    ghost predicate Valid()
      reads this
    {
      field2Enabled == NeedsSecond(shape) && (shape == Circle ==> text2 == "")
    }

    /** The window as built: the first item (Circle) selected, both fields
        empty, then the initial `updateInputFields`. */
    constructor ()
      ensures Valid()
      ensures shape == Circle && text1 == "" && text2 == "" && !field2Enabled
      ensures messages == [] && repaints == 0
    {
      shape := Circle;
      text1 := "";
      text2 := "";
      field2Enabled := false;
      messages := [];
      repaints := 0;
      new;
      UpdateInputFields();
    }

    /** `updateInputFields`: a circle disables and clears the second field;
        the other shapes enable it and keep its text. */
    method UpdateInputFields()
      modifies this`field2Enabled, this`text2
      ensures field2Enabled == NeedsSecond(shape)
      ensures text2 == if shape == Circle then "" else old(text2)
    {
      if shape == Circle {
        field2Enabled := false;
        text2 := "";
      } else {
        field2Enabled := true;
      }
    }

    /** A selection in the shape box, followed by its listener. */
    method SelectShape(s: Shape)
      requires Valid()
      modifies this`shape, this`field2Enabled, this`text2
      ensures Valid()
      ensures shape == s && field2Enabled == NeedsSecond(s)
      ensures text2 == if s == Circle then "" else old(text2)
    {
      shape := s;
      UpdateInputFields();
    }

    /** Typing into the first field replaces its text. */
    method EditText1(t: string)
      requires Valid()
      modifies this`text1
      ensures Valid() && text1 == t
    {
      text1 := t;
    }

    /** Typing into the second field only has an effect while it is enabled. */
    method EditText2(t: string)
      requires Valid()
      modifies this`text2
      ensures Valid()
      ensures text2 == if field2Enabled then t else old(text2)
    {
      if field2Enabled {
        text2 := t;
      }
    }

    /** `validateInputs`: parse, check the sign, and show a dialog for each
        problem found; a first text that does not parse skips straight to the
        handler without reading the second. */
    method ValidateInputs() returns (isValid: bool)
      requires Valid()
      modifies this`messages
      ensures Valid()
      ensures isValid == Accepts(shape, text1, text2)
      ensures messages == old(messages) + Messages(shape, text1, text2)
    {
      isValid := true;
      match ParseInt32(text1)
      case None =>
        messages := messages + [MsgNotNumbers];
        isValid := false;
      case Some(dimension1) =>
        if dimension1 <= 0 {
          messages := messages + [MsgDimension1];
          isValid := false;
        }
        if shape == Triangle || shape == Rectangle {
          match ParseInt32(text2)
          case None =>
            messages := messages + [MsgNotNumbers];
            isValid := false;
          case Some(dimension2) =>
            if dimension2 <= 0 {
              messages := messages + [MsgDimension2];
              isValid := false;
            }
        }
    }

    /** The draw button: validate, and repaint only when validation passed. */
    method DrawClicked()
      requires Valid()
      modifies this`messages, this`repaints
      ensures Valid()
      ensures messages == old(messages) + Messages(shape, text1, text2)
      ensures repaints == old(repaints) + (if Accepts(shape, text1, text2) then 1 else 0)
      ensures repaints != old(repaints) ==>
        forall w, h :: IsInt32(w) && IsInt32(h) ==> Paint(w, h).Some?
    {
      var ok := ValidateInputs();
      if ok {
        repaints := repaints + 1;
      }
      forall w, h | IsInt32(w) && IsInt32(h) && ok
        ensures Paint(w, h).Some?
      {
        AcceptedRenders(shape, text1, text2, w, h);
      }
    }

    /** The panel's `paintComponent`: render from the live fields on a panel
        of the given size. */
    function Paint(panelWidth: int, panelHeight: int): (r: Option<Primitive>)
      reads this
      requires IsInt32(panelWidth) && IsInt32(panelHeight)
      ensures r.Some? <==> ParseInt32(text1).Some? && (NeedsSecond(shape) ==> ParseInt32(text2).Some?)
      ensures r.Some? && shape == Circle ==>
        r.value == DrawCircle(panelWidth, panelHeight, ParseInt32(text1).value)
      ensures r.Some? && shape == Triangle ==>
        r.value == DrawTriangle(panelWidth, panelHeight, ParseInt32(text1).value, ParseInt32(text2).value)
      ensures r.Some? && shape == Rectangle ==>
        r.value == DrawRectangle(panelWidth, panelHeight, ParseInt32(text1).value, ParseInt32(text2).value)
    {
      DrawShape(shape, text1, text2, panelWidth, panelHeight)
    }
  }

  /** Circle, "10", draw: no dialog, one repaint, and on a 500x300 panel an
      oval of diameter 40 centred on (250, 150). */
  method CircleScenario() returns (dialogs: seq<string>, painted: Option<Primitive>, repaints: nat)
    ensures dialogs == [] && repaints == 1
    ensures painted == Some(Oval(230, 130, 40, 40))
  {
    var form := new ShapeDrawer();
    form.EditText1("10");
    assert ParseInt32("10") == Some(10) by {
      ParseFormatRoundTrip(10);
      assert Format(10) == "10";
    }
    form.DrawClicked();
    dialogs, repaints := form.messages, form.repaints;
    painted := form.Paint(500, 300);
    assert DrawCircle(500, 300, 10) == Oval(230, 130, 40, 40) by {
      CircleGeometry(500, 300, 10);
    }
    assert painted == Some(DrawCircle(500, 300, 10));
  }

  /** Rectangle, "5" and "abc", draw: the not-a-number dialog and no repaint. */
  method RectangleScenario() returns (dialogs: seq<string>, repaints: nat)
    ensures dialogs == [MsgNotNumbers] && repaints == 0
  {
    var form := new ShapeDrawer();
    form.SelectShape(Rectangle);
    form.EditText1("5");
    form.EditText2("abc");
    ParseFormatRoundTrip(5);
    assert Format(5) == "5";
    ParseRejectsNonDigit("abc", 0);
    form.DrawClicked();
    dialogs, repaints := form.messages, form.repaints;
  }

  /** Triangle, "-3" and "4", draw: only the dimension 1 dialog, no repaint. */
  method TriangleScenario() returns (dialogs: seq<string>, repaints: nat)
    ensures dialogs == [MsgDimension1] && repaints == 0
  {
    var form := new ShapeDrawer();
    form.SelectShape(Triangle);
    form.EditText1("-3");
    form.EditText2("4");
    ParseFormatRoundTrip(-3);
    assert Format(-3) == "-3";
    ParseFormatRoundTrip(4);
    assert Format(4) == "4";
    form.DrawClicked();
    dialogs, repaints := form.messages, form.repaints;
  }

  /** A fresh window, draw at once: the empty first field is not a number. */
  method EmptyScenario() returns (dialogs: seq<string>, repaints: nat)
    ensures dialogs == [MsgNotNumbers] && repaints == 0
  {
    var form := new ShapeDrawer();
    form.DrawClicked();
    dialogs, repaints := form.messages, form.repaints;
  }

  /** Switching to Circle and back clears the second field for good: its old
      text does not come back with the Triangle selection. */
  method ReselectScenario() returns (enabled: bool, second: string)
    ensures enabled && second == ""
  {
    var form := new ShapeDrawer();
    form.SelectShape(Triangle);
    form.EditText2("7");
    form.SelectShape(Circle);
    form.SelectShape(Triangle);
    enabled, second := form.field2Enabled, form.text2;
  }
}
