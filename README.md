# Shape Drawer, modelled in Dafny

The Shape Drawer is a one-window Swing program (`ShapeDrawerGUI`). The user picks a circle, triangle or
rectangle, types one or two integer dimensions and presses "Draw Shape". The program validates the texts,
showing a dialog for each problem, and on success repaints a panel. The panel's paint routine parses the
texts again and fills one oval, polygon or rectangle centred on the panel, at scale 2.

This project models the logic under the widgets:

- `Wrappers.dfy`: `Option`.
- `JavaInt.dfy`: Java `int` arithmetic. Products, sums and differences wrap modulo 2^32 (`Wrap32`), and
  `/` truncates toward zero (`JDiv`). Dafny's `/` on `int` is Euclidean, which for the divisor 2 used here rounds down.
- `ParseInt.dfy`: `Integer.parseInt` with radix 10 as the pure function `ParseInt32`. It accepts an
  optional sign and then one or more ASCII digits, and the value must fit in an `int`. Its partner is the
  decimal formatter `Format`: parsing a formatted number gives it back.
- `Shapes.dfy`: the three shapes and their selector labels. It also holds the three layouts
  (`drawCircle`, `drawTriangle`, `drawRectangle`) and the paint-time dispatch `drawShape`, which returns
  the primitive it would fill, or `None` when a text fails to parse.
- `Validation.dfy`: what `validateInputs` accepts (`Accepts`) and the dialogs it shows in order
  (`Messages`), with lemmas about both.
- `ShapeDrawer.dfy`: the class `Form.ShapeDrawer` with the window's state: the shape, the two texts, the
  second field's enabled flag, the log of dialogs and a repaint counter. Its methods are the handlers,
  which the event thread runs one after another. The same file holds five end-to-end scenarios as methods.

Three points about the program's behaviour shape the model:

- Java's `/` truncates toward zero, and `JDiv` models it. In every layout the dividend is either the panel
  size, which is never negative in practice, or a doubled dimension. A doubled dimension is even, even
  after wrap-around. So Java's and Dafny's division never give different pixels here (`JDivOfWrappedDouble`,
  `JDivAgreesOnNonnegative`). They differ only on negative odd values (`JDivNegativeOdd`).
- A first text that does not parse jumps to the `catch`, and the second text is never read
  (`FirstNotNumber`).
- The paint routine re-parses the live texts and does not check their sign (`RenderSkipsValidation`).

Panel width and height come from the live widget at paint time. Here they are parameters of `Paint` and
of the layout functions.

## Model

| member | source | states |
|---|---|---|
| `JavaInt.Wrap32` | ShapeDrawerGUI.java:152 | the result is an `int`, congruent to the exact value modulo 2^32, and equal to it when the exact value already fits |
| `JavaInt.JAdd` | ShapeDrawerGUI.java:162 | Java `int` addition: always an `int`, and the exact sum when that fits |
| `JavaInt.JSub` | ShapeDrawerGUI.java:173-174 | Java `int` subtraction: always an `int`, and the exact difference when that fits |
| `JavaInt.JMul` | ShapeDrawerGUI.java:152 | Java `int` multiplication: always an `int`, and the exact product when that fits |
| `JavaInt.JDiv` | ShapeDrawerGUI.java:153-154 | Java division: its magnitude is the magnitudes' quotient rounded down, and it is negative only when the operands' signs differ |
| `JavaInt.JDivAgreesOnNonnegative` | ShapeDrawerGUI.java:153-154 | on a non-negative panel size, Java's `/` equals Dafny's |
| `JavaInt.JDivOfEven` | ShapeDrawerGUI.java:153-154 | halving an even value (a diameter, a doubled side) is exact under both roundings |
| `JavaInt.JDivNegativeOdd` | ShapeDrawerGUI.java:153 | on a negative odd dividend, Java's half is one more than Dafny's Euclidean half |
| `JavaInt.JDivOfWrappedDouble` | ShapeDrawerGUI.java:161-175 | halving a doubled `int`, wrapped or not, gives the same value under Java's and Dafny's `/` |
| `JavaInt.JDivHalfInRange` | ShapeDrawerGUI.java:161-166 | halving an `int` gives a value within [-2^30, 2^30-1], so a centre coordinate plus or minus a half-size cannot overflow |
| `ParseInt.DigitsValue` | ShapeDrawerGUI.java:99 | the value of an n-digit string is below 10^n |
| `ParseInt.ParseInt32` | ShapeDrawerGUI.java:99 | an accepted text is non-empty, its value fits in an `int`, and a negative value comes from a leading '-' |
| `ParseInt.DigitsRoundTrip` | ShapeDrawerGUI.java:99 | reading the digits of a natural number back gives the number |
| `ParseInt.ParseFormatRoundTrip` | ShapeDrawerGUI.java:99 | parsing a number's decimal text gives the number when it fits in an `int`, and fails (NumberFormatException) when it does not |
| `ParseInt.LeadingZeroValue` | ShapeDrawerGUI.java:99 | a leading '0' does not change a digit string's value |
| `ParseInt.ParsePlusAndLeadingZero` | ShapeDrawerGUI.java:99 | "+n" and "0n" parse to n |
| `ParseInt.ParseRejectsNonDigit` | ShapeDrawerGUI.java:99 | any non-digit except a leading sign makes the whole text fail: no trimming and no partial parse |
| `ParseInt.ParseRejectsEmptyAndBareSign` | ShapeDrawerGUI.java:99 | "", "-" and "+" fail to parse |
| `Shapes.ShapeOfLabel` | ShapeDrawerGUI.java:132-139 | the string dispatch names a shape only for that shape's exact selector label |
| `Shapes.LabelDispatch` | ShapeDrawerGUI.java:20 | dispatching on each selector item recovers its shape, so the enumerated shape loses nothing against the string comparisons |
| `Shapes.DrawCircle` | ShapeDrawerGUI.java:150-156 | a circle is one oval with equal width and height, every argument an `int` |
| `Shapes.DrawTriangle` | ShapeDrawerGUI.java:159-168 | a triangle is one polygon with exactly three x and three y coordinates and point count 3 |
| `Shapes.DrawRectangle` | ShapeDrawerGUI.java:171-176 | a rectangle is one filled rect, every argument an `int` |
| `Shapes.DrawShape` | ShapeDrawerGUI.java:127-147 | something is drawn iff the first text parses and, for triangle and rectangle, the second does too; a parse failure draws nothing and raises nothing; the primitive is the selected shape's layout with the first text as radius, base or width and the second as height |
| `Shapes.CircleGeometry` | ShapeDrawerGUI.java:150-155 | without overflow the oval is 4r by 4r with top-left (W/2 - 2r, H/2 - 2r), so its centre is the panel's centre |
| `Shapes.RectangleGeometry` | ShapeDrawerGUI.java:171-176 | without overflow the rect is 2w by 2h with top-left (W/2 - w, H/2 - h), and it reaches W/2 + w, the same distance on both sides of the centre column (likewise for rows) |
| `Shapes.TriangleGeometry` | ShapeDrawerGUI.java:159-168 | without overflow, the base corners share row H/2 + h and mirror each other about the apex column W/2; the apex is on row H/2 - h, strictly above the base when h > 0; there are 3 points |
| `Shapes.CircleDiameterOverflow` | ShapeDrawerGUI.java:152 | for a radius of 2^29, `radius * 2 * scale` wraps to the diameter -2^31 |
| `Validation.Accepts` | ShapeDrawerGUI.java:93-124 | the verdict: acceptance needs a positive first dimension, and for a circle that alone decides it |
| `Validation.Messages` | ShapeDrawerGUI.java:98-115 | the dialogs in the order shown; there are none exactly when validation accepts |
| `Validation.MessagesAreFew` | ShapeDrawerGUI.java:98-115 | at most two dialogs, each one of the three texts; for a circle at most one, and never the "Dimension 2" text |
| `Validation.CircleIgnoresSecondText` | ShapeDrawerGUI.java:105-111 | for a circle, neither the verdict nor the dialogs depend on the second text |
| `Validation.FirstNotNumber` | ShapeDrawerGUI.java:99 | an unparsable first text gives exactly the "valid numbers" dialog, independent of the second text, and rejects |
| `Validation.FirstNotPositive` | ShapeDrawerGUI.java:100-115 | a first dimension <= 0 gives "Dimension 1" first; for triangle and rectangle it is followed by "valid numbers" when the second text fails to parse, "Dimension 2" when it is <= 0, and nothing when it is positive; always rejects |
| `Validation.FirstPositive` | ShapeDrawerGUI.java:105-111 | with a positive first dimension, a circle gets no dialog, and a two-dimension shape gets only the dialog its second text earns |
| `Validation.AcceptedRenders` | ShapeDrawerGUI.java:131-143 | texts that passed validation always re-parse at paint time, drawing the primitive of the selected shape |
| `Validation.AcceptedCircleOverflows` | ShapeDrawerGUI.java:99-111 | the text of 2^29 passes validation as a circle radius, yet the paint that follows draws an oval whose width has wrapped to -2^31 |
| `Validation.RenderSkipsValidation` | ShapeDrawerGUI.java:131-134 | "-3" is rejected by validation, yet a paint that reads it draws an oval of diameter -12 |
| `Form.ShapeDrawer.constructor` | ShapeDrawerGUI.java:20-26 | a new window has Circle selected, both texts empty, the second field disabled, no dialog and no repaint |
| `Form.ShapeDrawer.UpdateInputFields` | ShapeDrawerGUI.java:79-90 | Circle disables the second field and empties it; Triangle and Rectangle enable it and keep its text; nothing else changes |
| `Form.ShapeDrawer.SelectShape` | ShapeDrawerGUI.java:56-61 | a selection sets the shape and runs the update, keeping the first text, and keeps the invariant that the second field is enabled exactly for two-dimension shapes and empty for a circle |
| `Form.ShapeDrawer.EditText1` | ShapeDrawerGUI.java:24 | typing replaces the first text |
| `Form.ShapeDrawer.EditText2` | ShapeDrawerGUI.java:25-26 | typing reaches the second text only while the field is enabled |
| `Form.ShapeDrawer.ValidateInputs` | ShapeDrawerGUI.java:93-124 | returns `Accepts` for the current shape and texts, and appends exactly `Messages` to the dialog log, leaving the form unchanged and its invariant intact |
| `Form.ShapeDrawer.DrawClicked` | ShapeDrawerGUI.java:64-72 | shows the validation dialogs, and requests a repaint iff validation passed; after one, every paint draws something |
| `Form.ShapeDrawer.Paint` | ShapeDrawerGUI.java:32-38 | the panel's paint draws iff the live texts the shape needs parse, and draws the selected shape's layout with field 1 as radius, base or width and field 2 as height |
| `Form.CircleScenario` | ShapeDrawerGUI.java:150-155 | Circle with "10" on a 500x300 panel: no dialog, one repaint, and an oval 40 by 40 at (230, 130) |
| `Form.RectangleScenario` | ShapeDrawerGUI.java:106-115 | Rectangle with "5" and "abc": only the "valid numbers" dialog, and no repaint |
| `Form.TriangleScenario` | ShapeDrawerGUI.java:100-103 | Triangle with "-3" and "4": only the "Dimension 1" dialog, and no repaint |
| `Form.EmptyScenario` | ShapeDrawerGUI.java:112-115 | pressing Draw in a fresh window gives the "valid numbers" dialog, because the empty text does not parse |
| `Form.ReselectScenario` | ShapeDrawerGUI.java:82-89 | going Triangle to Circle to Triangle leaves the second field enabled but emptied |

## Left out

- Frame construction, layout, labels, preferred sizes, title and window size (lines 12-53), and `main` with `invokeLater` (lines 178-185): bootstrap with no logic.
- Listener registration and the event-dispatch thread (lines 56-72): the handlers are methods called in sequence.
- The `selectedShape == null` branch and its "Please select a valid shape." dialog (lines 117-121). The selector always has a selection. With a null selection and a parsable first text, line 105 would throw first. The shape is a non-null three-way datatype.
- `setColor(Color.PINK)` and the rasterisation done by `fillOval`, `fillPolygon` and `fillRect`: library calls. Only the primitive and its `int` arguments are modelled.
- The modality of the dialogs: only their texts and order are kept.
- When Swing repaints: a repaint request is a counter, and a paint is `Paint` evaluated on the current fields whenever the toolkit calls it.
- ParseInt.ParseInt32: accepts only ASCII digits, while `Integer.parseInt` also accepts other Unicode decimal digits.
- JavaInt.JDiv: does not wrap the one overflowing quotient, `Integer.MIN_VALUE / -1`. The source divides only by 2.
