# HandGripperControl in Dafny

This project models the two pieces of logic in HandGripperControl, a program that
turns a hand gesture or a slider position into servo commands for an Arduino-driven
gripper:

- **The finger-count classifier** (`count_fingers` in `hand.py`), in `hand.dfy`,
  module `Hand`. It takes the 21 landmarks of one tracked hand and counts the extended
  fingers. A non-thumb finger counts when its tip (landmark 8, 12, 16 or 20) lies
  strictly above the landmark two places before it, which is its PIP joint (6, 10, 14
  or 18). The thumb counts when its tip (4) lies strictly left of its IP joint (3).
  `CountFingers` is the source's loop over the tip table with one accumulator. It is
  proved equal to `FingerSpec`, a reference sum of five per-finger indicators written
  with the literal joint indices.
- **The servo command channel** (`PyGUI_Gripper_AutoPort.py`), in `wire.dfy` (module
  `Wire`, the pure encoding) and `gripper.dfy` (module `Gripper`, the program state).
  - At start-up the program scans the port list. Every port whose description contains
    `"Arduino"` overwrites the chosen port, so the last such port wins.
  - The program state is the class `Controller`. Its fields are the module globals
    `servo_value`, `txt` and `angles`, and the open `SerialPort`.
  - The serial port is modelled as an append-only byte sequence, `written`.
  - `WriteData` (`write_data`) writes the UTF-8 decimal digits of the angle, then one
    `;` byte, and returns 1.
  - `SliderEvent` (`slider_event`) sets the angle, rebuilds the label
    `portName + "： Servo angle: " + str(angle)` and calls `WriteData`. The colon in
    the label is the full-width U+FF1A.

The host program never reads anything back from the board. `ParseInt` and
`DecodeStream` in `Wire` are reference definitions of what a receiver reads from the
link. They are the partners of the encoder. With them the model proves that the
decimal text and the frames are injective. It also proves that any run of frames reads
back as exactly the angles sent, in order (`DecodeFrames`). The `Controller` keeps a
ghost history `sent` of the angles it has written. Its invariant ties the link to
`Frames(sent)`.

`wrappers.dfy` holds the `Option` type.

Where the system's design description and the code disagree, the model follows the code:

- The scan keeps the **last** matching port, not the first.
- Neither the writer nor the handler clamps the angle. Only the slider's range [0, 60]
  bounds it.
- There are no channel error kinds and no closed state.
- With no matching port, `portName` is never bound. The program then stops with a
  NameError at line 19. By then the window exists (line 14), but the serial port is not
  yet opened (line 24). `Startup` models this case by returning `None`.
- The initial `angles = [0]` is a list that holds the number 0. It is not the digits of
  0 (`b"0"`). The model keeps it as the single byte 0.

## Model

| member | source | states |
|---|---|---|
| `Hand.CountFingers` | hand.py:13-37 | The loop over tips 8, 12, 16, 20 plus the thumb test returns exactly the five-indicator reference count. The result is at most 5. It is 5 iff every finger is extended and 0 iff none is. |
| `Hand.ExtendedAmong` | hand.py:24-28 | The accumulator after visiting a list of tips is at most the number of tips. It is 0 iff no visited tip is above the landmark two before it, and equals the number of tips iff all are. |
| `Hand.TableMatchesFingers` | hand.py:20-28 | Every tip id in the table can be read with `tip_id - 2`. The four loop steps give the index, middle, ring and little-finger terms, with joints 6, 10, 14 and 18. |
| `Hand.LoopThenThumb` | hand.py:20-37 | The loop's count over the whole tip table plus the thumb's indicator is the reference count, at most 5, 5 iff every finger is extended and 0 iff none is. |
| `Hand.AllOrNone` | hand.py:21-37 | The reference count is at most 5. It is 5 iff all five tests hold and 0 iff none holds. |
| `Hand.LevelTipDoesNotCount` | hand.py:27-34 | The comparisons are strict: a tip level with its joint, on the compared axis, does not count. |
| `Hand.ExtendedAmongFrame` | hand.py:24-28 | Two hands that agree on the y coordinates of every visited tip and of the landmark two before it give the same loop count. |
| `Hand.ClassifierReads` | hand.py:20-34 | Two hands that agree on landmarks 3, 4, 6, 8, 10, 12, 14, 16, 18 and 20 get the same count. |
| `Hand.UnreadLandmarkIrrelevant` | hand.py:20-34 | Replacing any landmark other than those ten leaves the count unchanged. |
| `Hand.IndexFingerOnly` | hand.py:24-35 | Index tip above its PIP joint and every other test failing gives a count of 1. |
| `Wire.NatToDecimal` | PyGUI_Gripper_AutoPort.py:30 | `str` of a non-negative integer is non-empty, is all digits, and has no leading zero unless it is "0". |
| `Wire.IntToDecimal` | PyGUI_Gripper_AutoPort.py:30 | `str` of an integer starts with '-' iff the integer is negative, and every other character is a digit. |
| `Wire.ParseNatDecimal` | PyGUI_Gripper_AutoPort.py:30 | Reading the digits of a non-negative integer back gives that integer. |
| `Wire.ParseIntDecimal` | PyGUI_Gripper_AutoPort.py:30 | Reading the decimal text of any integer back gives that integer. |
| `Wire.DecimalInjective` | PyGUI_Gripper_AutoPort.py:30 | Distinct integers have distinct decimal texts. |
| `Wire.Utf8` | PyGUI_Gripper_AutoPort.py:29-30 | UTF-8 of ASCII text has one byte per character, equal to its code point. |
| `Wire.Digits` | PyGUI_Gripper_AutoPort.py:30-32 | The bytes written for an angle are non-empty, contain no `;`, and read back as the angle's decimal text. |
| `Wire.FrameShape` | PyGUI_Gripper_AutoPort.py:29-33 | A frame is the digits followed by exactly one `;`: the last byte is `;` and no earlier byte is. |
| `Wire.FramesAppend` | PyGUI_Gripper_AutoPort.py:32-33 | Sending one more angle appends its frame to the link and leaves the earlier bytes as they were. |
| `Wire.DecodeFrameThen` | PyGUI_Gripper_AutoPort.py:29-33 | A receiver reads the angle of the first frame and then carries on with what follows it. |
| `Wire.DecodeFrames` | PyGUI_Gripper_AutoPort.py:29-33 | Any series of frames on the link reads back as exactly the angles sent, in order. |
| `Wire.FrameRoundTrip` | PyGUI_Gripper_AutoPort.py:29-33 | One frame reads back as its angle. |
| `Wire.FrameInjective` | PyGUI_Gripper_AutoPort.py:29-33 | Distinct angles give distinct frames. |
| `Wire.FrameOf45` | PyGUI_Gripper_AutoPort.py:29-33 | Angle 45 is sent as the bytes `4`, `5`, `;` (52, 53, 59). |
| `Gripper.Contains` | PyGUI_Gripper_AutoPort.py:7 | Python's substring test `sub in s`: it holds whenever `sub` is a prefix of `s`, and only when `sub` is no longer than `s`. |
| `Gripper.ContainsAt` | PyGUI_Gripper_AutoPort.py:7 | The substring test `"Arduino" in description` holds iff the marker starts at some position of the description. |
| `Gripper.LastMatch` | PyGUI_Gripper_AutoPort.py:6-9 | The port left bound after the overwriting scan. Whenever some port is bound, it is the device of a port whose description contains "Arduino". |
| `Gripper.LastMatchNone` | PyGUI_Gripper_AutoPort.py:6-9 | The scan binds no port iff no description contains the marker. |
| `Gripper.LastMatchIsLast` | PyGUI_Gripper_AutoPort.py:6-9 | When port j matches and no later port does, the scan binds port j's device name. |
| `Gripper.ScanPorts` | PyGUI_Gripper_AutoPort.py:5-9 | The loop binds the last matching port's device, or nothing iff no port matches. |
| `Gripper.LabelShape` | PyGUI_Gripper_AutoPort.py:19 | The label text `portName + "： Servo angle: {}".format(angle)` (function `Label`). The text starts with the port name and the infix (full-width colon U+FF1A, then " Servo angle: "), and the rest is `str(angle)`. The same expression is rebuilt at line 40. |
| `Gripper.LabelInjective` | PyGUI_Gripper_AutoPort.py:40 | For one port name, equal label texts mean equal angles. |
| `Gripper.LabelOf45` | PyGUI_Gripper_AutoPort.py:40 | At angle 45 the label reads `<port>： Servo angle: 45`. |
| `Gripper.SerialPort.constructor` | PyGUI_Gripper_AutoPort.py:24 | The port opens on the given device with the given baud rate and timeout, with nothing written yet. |
| `Gripper.SerialPort.Write` | PyGUI_Gripper_AutoPort.py:32-33 | A write appends exactly its bytes to the link and returns their number. |
| `Gripper.Controller.constructor` | PyGUI_Gripper_AutoPort.py:18-24 | Initially the angle is 0, the label is `portName + "： Servo angle: 0"`, `angles` is `[0]`, and the port is opened at 115200 baud with timeout 1 and nothing written. |
| `Gripper.Controller.WriteData` | PyGUI_Gripper_AutoPort.py:26-35 | Appends exactly the angle's digits and then `;` to the link, sets `angles` to the digits, changes neither angle nor label, and returns 1. The link keeps reading back as the history of angles sent. |
| `Gripper.Controller.SliderEvent` | PyGUI_Gripper_AutoPort.py:37-43 | Sets the angle to the slider value unclamped, sets the label to `portName + "： Servo angle: " + str(value)`, and appends that value's frame. Values are in [0, 60] by the slider's range (line 48). |
| `Gripper.Startup` | PyGUI_Gripper_AutoPort.py:5-24 | With no matching port, no controller exists. Otherwise the controller is bound to the last matching port and is in its initial state. |

## Left out

- Video capture and display, and MediaPipe hand detection and drawing (`hand.py` lines 1-11 and 39-76). These are camera I/O and a foreign model. The landmarks are an input to the classifier.
- Landmark coordinates are Python floats, modelled as `real`. This is exact for finite floats, because they are only compared. NaN and the infinities have no counterpart in the model. For example, a NaN coordinate makes `tip.y < pip.y` false at `hand.py` line 27.
- The `z` coordinate of a landmark is carried but never read, as in the source.
- Fewer than 21 landmarks: `CountFingers` requires 21. The source does not handle a short list; indexing it would raise an exception.
- The window, label and slider widgets, `label_width.configure`, `print`, and the event loop (`PyGUI_Gripper_AutoPort.py` lines 11-16, 41-42 and 45-53). Only the handler's state changes are modelled. The label widget always shows `txt`.
- The operating-system port enumeration (line 5). The port list is an input sequence of (device, description) pairs.
- Real serial I/O. The model does not cover opening the device, baud-rate and timeout behaviour, blocking, or write failures (line 24). The link is the byte sequence `written`, and every write succeeds in full.
- Float truncation: the slider passes a float, which `int(value)` truncates. The model takes the angle as an integer.
- `Startup`: the missing-port case ends the program with an unbound name. The model returns `None` instead of modelling the exception.
