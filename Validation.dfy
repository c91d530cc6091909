/** What `validateInputs` decides and which dialogs it shows, as functions of
    the selected shape and the two field texts. */
module Validation {
  import opened Wrappers
  import opened JavaInt
  import opened ParseInt
  import opened Shapes

  const MsgDimension1: string := "Dimension 1 must be a positive number."
  const MsgDimension2: string := "Dimension 2 must be a positive number."
  const MsgNotNumbers: string := "Please enter valid numbers for the dimensions."

  /** The text parses to an `int` greater than zero. */
  predicate IsPositiveInt(text: string) {
    ParseInt32(text).Some? && ParseInt32(text).value > 0
  }

  /** The inputs the validator accepts: a positive first dimension and, for
      the shapes that use it, a positive second dimension. */
  function Accepts(shape: Shape, text1: string, text2: string): (ok: bool)
    ensures ok ==> IsPositiveInt(text1)
    ensures !NeedsSecond(shape) ==> (ok <==> IsPositiveInt(text1))
  {
    IsPositiveInt(text1) && (NeedsSecond(shape) ==> IsPositiveInt(text2))
  }

  /** The dialogs in the order they are shown. A first text that does not
      parse jumps to the handler before the second is looked at; a first
      dimension that parses but is not positive still lets the second be
      parsed, so two dialogs can appear. Validation fails exactly when some
      dialog is shown. */
  function Messages(shape: Shape, text1: string, text2: string): (m: seq<string>)
    ensures m == [] <==> Accepts(shape, text1, text2)
  {
    match ParseInt32(text1)
    case None => [MsgNotNumbers]
    case Some(d1) =>
      var first := if d1 <= 0 then [MsgDimension1] else [];
      if !NeedsSecond(shape) then first
      else
        match ParseInt32(text2)
        case None => first + [MsgNotNumbers]
        case Some(d2) => first + (if d2 <= 0 then [MsgDimension2] else [])
  }

  /** At most two dialogs, each one of the three messages, and a
      "Dimension 2" dialog only for a shape that has a second dimension. */
  lemma MessagesAreFew(shape: Shape, text1: string, text2: string)
    ensures var m := Messages(shape, text1, text2);
      && |m| <= 2
      && (forall i :: 0 <= i < |m| ==> m[i] in {MsgDimension1, MsgDimension2, MsgNotNumbers})
      && (!NeedsSecond(shape) ==> |m| <= 1 && MsgDimension2 !in m)
  {
  }

  /** For a circle the second text is never read: it changes neither the
      verdict nor the dialogs. */
  lemma CircleIgnoresSecondText(text1: string, text2: string, other: string)
    ensures Accepts(Circle, text1, text2) == Accepts(Circle, text1, other)
    ensures Messages(Circle, text1, text2) == Messages(Circle, text1, other)
  {
  }

  /** A first text that is not a number gives exactly one dialog, whatever the
      shape and whatever the second text. */
  lemma FirstNotNumber(shape: Shape, text1: string, text2: string, other: string)
    requires ParseInt32(text1).None?
    ensures Messages(shape, text1, text2) == [MsgNotNumbers]
    ensures Messages(shape, text1, text2) == Messages(shape, text1, other)
    ensures !Accepts(shape, text1, text2)
  {
  }

  /** A first dimension that parses but is not positive is reported first,
      followed by whatever the second text earns for a two-dimension shape. */
  lemma FirstNotPositive(shape: Shape, text1: string, text2: string)
    requires ParseInt32(text1).Some? && ParseInt32(text1).value <= 0
    ensures !NeedsSecond(shape) ==> Messages(shape, text1, text2) == [MsgDimension1]
    ensures NeedsSecond(shape) && ParseInt32(text2).None? ==>
      Messages(shape, text1, text2) == [MsgDimension1, MsgNotNumbers]
    ensures NeedsSecond(shape) && ParseInt32(text2).Some? && ParseInt32(text2).value <= 0 ==>
      Messages(shape, text1, text2) == [MsgDimension1, MsgDimension2]
    ensures NeedsSecond(shape) && IsPositiveInt(text2) ==>
      Messages(shape, text1, text2) == [MsgDimension1]
    ensures !Accepts(shape, text1, text2)
  {
  }

  /** With a positive first dimension, a two-dimension shape's dialogs come
      from the second text alone. */
  lemma FirstPositive(shape: Shape, text1: string, text2: string)
    requires IsPositiveInt(text1)
    ensures !NeedsSecond(shape) ==> Messages(shape, text1, text2) == []
    ensures NeedsSecond(shape) && ParseInt32(text2).None? ==>
      Messages(shape, text1, text2) == [MsgNotNumbers]
    ensures NeedsSecond(shape) && ParseInt32(text2).Some? && ParseInt32(text2).value <= 0 ==>
      Messages(shape, text1, text2) == [MsgDimension2]
  {
  }

  /** Texts that passed validation always re-parse at paint time, so the
      render's silent failure path is not taken right after a successful draw
      request, and the primitive matches the shape. */
  lemma AcceptedRenders(shape: Shape, text1: string, text2: string, panelWidth: int, panelHeight: int)
    requires IsInt32(panelWidth) && IsInt32(panelHeight)
    requires Accepts(shape, text1, text2)
    ensures var r := DrawShape(shape, text1, text2, panelWidth, panelHeight);
      && r.Some?
      && (shape == Circle ==> r.value.Oval?)
      && (shape == Triangle ==> r.value.Polygon?)
      && (shape == Rectangle ==> r.value.Rect?)
  {
  }

  /** Rendering does not check signs: "-3" is rejected by validation but a
      paint that reads it still draws, with a negative diameter. */
  lemma RenderSkipsValidation(panelWidth: int, panelHeight: int)
    requires IsInt32(panelWidth) && IsInt32(panelHeight)
    ensures !Accepts(Circle, "-3", "")
    ensures DrawShape(Circle, "-3", "", panelWidth, panelHeight).Some?
    ensures DrawShape(Circle, "-3", "", panelWidth, panelHeight).value.width == -12
  {
  }

  /** A radius of 2^29 is a positive `int`, so validation accepts it, yet the
      paint that follows computes `radius * 2 * scale == 2^31`, which wraps to
      a negative diameter. */
  lemma AcceptedCircleOverflows(text2: string, panelWidth: int, panelHeight: int)
    requires IsInt32(panelWidth) && IsInt32(panelHeight)
    ensures Accepts(Circle, Format(0x2000_0000), text2)
    ensures DrawShape(Circle, Format(0x2000_0000), text2, panelWidth, panelHeight).value.width == IntMin
  {
    ParseFormatRoundTrip(0x2000_0000);
    CircleDiameterOverflow(panelWidth, panelHeight);
  }
}
