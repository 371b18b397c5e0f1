# Magnetic levitation tracker: colour arithmetic, segmentation and calibration in Dafny

This project models the pure logic at the centre of a camera-based object
tracker for a magnetic levitation rig, and proves properties of it:

- **Colour arithmetic** (`color.dfy`, with the `u8` primitives in `bytes.dfy`
  and `Option` in `option.dfy`):
  a `Color` is three bytes stored r, g, b. `+`, `-` and `*` are channel-wise
  saturating, pairwise and with a scalar byte; `/` and `%` truncate and need a
  non-zero divisor channel; negation is `255 - x`. The compound assignments
  rewrite the channels one at a time and are proved equal to the binary forms.
  The constants `Black`, `White`, `Red`, `Green` and `Blue` and the
  constructor `Color(r, g, b)` stand for `new` and the named colours. The
  reference meaning of saturation is `Bytes.Clamp`, the byte nearest to the
  mathematical result.
- **Segmentation and localisation** (`tracking.dfy`, frames in `image.dfy`):
  the tolerance band `lower_upper`, the per-pixel band test with the bounds
  handed over in B, G, R order, the grey-to-BGR replication of the mask, and
  the "first keypoint wins, none gives nothing" reduction. The blob detector is
  a function parameter returning a sequence of keypoints whose coordinate type
  is a type parameter. A frame is a row-major grid of BGR pixels. Any caller
  of `isolate_obj` may hand it an empty frame (0 rows or 0 columns); the
  grey-to-BGR conversion at src/lib.rs:33 then fails and its unwrap panics,
  which the model states as the precondition `NonEmpty` on `GrayToBgr`,
  `IsolateObj` and `ProcessImage`.
- **Calibration state machine** (`calibration.dfy`): two "pick armed" flags
  and two optional stored colours (BGR pixels, as the loop stores them),
  driven by `SelectObject`, `SelectMagnet` and `Position(x, y)` messages. One
  message is handled per loop pass, oldest first (`try_recv`). The pixel
  lookup `at_2d(y, x)` returns nothing outside the frame; the loop unwraps it,
  so every handled click must lie inside the frame (`Handles`), whatever
  the state. The trackbar value-to-message map is modelled too.

The main property chain: a pixel is white in the mask exactly when each of its
channels is within the tolerance of the matching channel of the reference
colour (`Tracking.BandIsTolerance`, carried into `Tracking.IsolateObj`), so the
reference colour itself always matches; and the calibration loop never has
both picks armed, stores only colours sampled at clicks, and after `n` passes
equals a fold of the first `n` queued messages, each handled against the frame
read in its own pass.

Rust's `/` and `%` truncate toward zero; on the non-negative `u8` operands here
that agrees with Dafny's Euclidean operators, so no explicit conversion is needed.

The loop in src/main.rs handles only `SelectObject`, `SelectMagnet` and
`Position`, keeps two independent flags rather than one state value, and only
stores and prints the picked colours: it never calls `process_image` or
`isolate_obj`. The segmentation, which works on BGR frames, is `isolate_obj` in
src/lib.rs:26-33. The `ToggleRaw` message declared at src/gui.rs:12 and the
`Hsv` tolerances of src/gui.rs:1 and src/gui.rs:37-59 belong to user-interface
code that this loop does not use, so they are not modelled. A click with the
magnet pick armed leaves the object flag as it was (src/main.rs:79-82); after
any handled message at most one pick is armed, which `Calibration.Step`
proves (`NotBoth`).

## Model

| member | source | states |
|---|---|---|
| Bytes.SaturatingAdd | src/color.rs:64-66 | `saturating_add` is the byte nearest the true sum and is at least each operand |
| Bytes.SaturatingSub | src/color.rs:85-87 | `saturating_sub` is the byte nearest the true difference and never exceeds the minuend |
| Bytes.SaturatingMul | src/color.rs:106-108 | `saturating_mul` is the byte nearest the true product |
| Bytes.Div | src/color.rs:127-129 | with a non-zero divisor, the quotient `q` satisfies `q*y <= x < (q+1)*y` and `q <= x` |
| Bytes.Rem | src/color.rs:148-150 | with a non-zero divisor, quotient times divisor plus remainder rebuilds `x`, and the remainder is below the divisor |
| Bytes.Invert | src/color.rs:169-171 | `255 - x` and `x` sum to 255 |
| Colors.Add | src/color.rs:59-70 | each channel is the nearest byte to the channel sum, so it never wraps; the result dominates both operands channel-wise |
| Colors.Sub | src/color.rs:80-91 | each channel is the nearest byte to the channel difference, clamped at 0; the result is below the minuend |
| Colors.Mul | src/color.rs:101-112 | each channel is the nearest byte to the channel product |
| Colors.Div | src/color.rs:122-133 | needs every divisor channel non-zero; each channel is the truncated quotient and is at most the dividend channel |
| Colors.Rem | src/color.rs:143-154 | needs every divisor channel non-zero; quotient times divisor plus remainder rebuilds each dividend channel, and each remainder channel is below the divisor channel |
| Colors.Neg | src/color.rs:164-175 | each result channel plus the input channel is 255 |
| Colors.AddScalar | src/color.rs:177-188 | every channel is the nearest byte to channel plus `t`, and is at least the input channel |
| Colors.SubScalar | src/color.rs:198-209 | every channel is the nearest byte to channel minus `t`, and is at most the input channel |
| Colors.MulScalar | src/color.rs:219-230 | every channel is the nearest byte to channel times `t` |
| Colors.DivScalar | src/color.rs:240-251 | needs `t != 0`; every channel is the truncated quotient by `t` |
| Colors.RemScalar | src/color.rs:261-272 | needs `t != 0`; every channel is below `t` and rebuilds the input with the quotient |
| Colors.AddAssign | src/color.rs:72-78 | `+=` leaves the colour equal to `Add` |
| Colors.SubAssign | src/color.rs:93-99 | `-=` leaves the colour equal to `Sub` |
| Colors.MulAssign | src/color.rs:114-120 | `*=` leaves the colour equal to `Mul` |
| Colors.DivAssign | src/color.rs:135-141 | `/=` (non-zero divisor channels) leaves the colour equal to `Div` |
| Colors.RemAssign | src/color.rs:156-162 | `%=` (non-zero divisor channels) leaves the colour equal to `Rem` |
| Colors.AddAssignScalar | src/color.rs:190-196 | `+= u8` leaves the colour equal to `AddScalar` |
| Colors.SubAssignScalar | src/color.rs:211-217 | `-= u8` leaves the colour equal to `SubScalar` |
| Colors.MulAssignScalar | src/color.rs:232-238 | `*= u8` leaves the colour equal to `MulScalar` |
| Colors.DivAssignScalar | src/color.rs:253-259 | `/= u8` (non-zero) leaves the colour equal to `DivScalar` |
| Colors.RemAssignScalar | src/color.rs:274-280 | `%= u8` (non-zero) leaves the colour equal to `RemScalar` |
| Colors.OperatorExamples | src/color.rs:286-298 | `(75,75,75)*(100,100,100)` is white, `50-20=30`, `30-20=10`, `30-40=0` and `10-20=0` per channel |
| Colors.NegInvolution | src/color.rs:164-175 | negating twice gives back the colour |
| Colors.NegOfAdd | src/color.rs:164-175 | inverting a saturated sum equals subtracting the second operand from the inverted first |
| Colors.AddMulCommute | src/color.rs:59-112 | saturating `+` and `*` are commutative |
| Colors.ScalarIsPairwise | src/color.rs:177-272 | each scalar operator equals the pairwise operator against the colour with all channels `t` |
| Colors.ScalarIdentities | src/color.rs:177-251 | `c + 0`, `c - 0`, `c * 1` and `c / 1` are `c` |
| Colors.AddSubRoundTrip | src/color.rs:177-209 | `(c + t) - t == c` exactly when no channel of `c + t` saturated |
| Images.Image.At2d | src/main.rs:77 | yields a pixel iff `(y, x)` is a cell of the grid, and then the row-major cell at row `y`, column `x` |
| Tracking.LowerUpper | src/lib.rs:21-23 | `lower <= c <= upper`; lower channels are `c - t` or collapse to 0 when `c < t`; upper channels are `c + t` or collapse to 255 when that overflows; tolerance 0 gives `(c, c)` |
| Tracking.ToScalar | src/lib.rs:28-29 | the bound passed to the range test lists the colour's channels as B, G, R |
| Tracking.BandIsTolerance | src/lib.rs:26-32 | a frame pixel is inside the reordered band iff each of its B, G, R channels is within `t` of the colour's b, g, r channel |
| Tracking.ReferencePixelMatches | src/lib.rs:26-32 | the pixel carrying the reference colour is always inside the band, for every tolerance |
| Tracking.InRange | src/lib.rs:32 | the mask has the frame's dimensions; a mask byte is 255 iff its pixel is inside the band and 0 iff it is not |
| Tracking.GrayToBgr | src/lib.rs:33 | needs a non-empty mask (the conversion panics otherwise); the replicated image keeps the dimensions and copies each mask byte into all three channels |
| Tracking.IsolateObj | src/lib.rs:25-34 | needs a non-empty frame; the output has the frame's dimensions, equal channels in every pixel, and is white exactly at pixels within tolerance of the colour, black elsewhere |
| Tracking.Get | src/lib.rs:65 | `keypoints.get(0)` yields an element iff the index is in range, and that element |
| Tracking.FirstBall | src/lib.rs:65-71 | no ball iff there are no keypoints; otherwise the ball is keypoint 0's point |
| Tracking.FirstBallIgnoresRest | src/lib.rs:60-71 | keypoints after the first never change the result, which is always present |
| Tracking.ProcessImage | src/lib.rs:50-72 | needs a non-empty frame; the mask is the isolated object; the ball is absent iff the detector reports nothing on that mask, else keypoint 0's coordinates |
| Calibration.Clicked | src/main.rs:77 | for a click inside the frame, the sampled pixel is the cell at row `y`, column `x` (`at_2d(y, x)` takes the row first) |
| Calibration.Step | src/main.rs:66-88 | `SelectObject` arms the object pick and disarms the magnet pick, `SelectMagnet` the reverse, colours untouched; a click stores the pixel as magnet colour if that pick is armed, else as object colour if that pick is armed, disarming it; a click with nothing armed changes nothing; never both armed afterwards; at most one colour changes |
| Calibration.Fold | src/main.rs:66-88 | handling a sequence keeps "never both picks armed", and establishes it after any non-empty sequence |
| Calibration.StoredColorsWereClicked | src/main.rs:76-88 | after any sequence, each stored colour is the old one or the pixel under one of its clicks |
| Calibration.IdleClicksChangeNothing | src/main.rs:76-88 | with no pick armed, any run of clicks leaves the state unchanged |
| Calibration.TryRecv | src/main.rs:66 | `try_recv` yields nothing iff the queue is empty, otherwise the oldest message with the rest still queued |
| Calibration.Iteration | src/main.rs:55-98 | a loop pass with nothing queued changes nothing; otherwise it handles exactly the oldest message and leaves the rest pending in order |
| Calibration.Run | src/main.rs:55-99 | after `n` passes exactly the first `min(n, queued)` messages have been consumed |
| Calibration.FoldPaired | src/main.rs:55-99 | handling messages in order, each against its own pass's frame, keeps "never both armed" and establishes it after any non-empty sequence |
| Calibration.FoldPairedStill | src/main.rs:55-99 | when every pass reads the same frame, the per-pass fold equals the single-frame fold |
| Calibration.RunIsPairedFold | src/main.rs:55-99 | `n` passes, each reading a new frame, leave the state of folding the first `min(n, queued)` messages, message `i` against frame `i` |
| Calibration.RunIsFoldOfPrefix | src/main.rs:55-99 | with a still frame, `n` passes leave the state of folding the first `min(n, queued)` messages in order |
| Calibration.CalibrationSequence | src/main.rs:66-88 | `[SelectObject, click p, SelectMagnet, click q]` from the start state ends with no pick armed, object colour = pixel p, magnet colour = pixel q |
| Calibration.CalibrationLoop | src/main.rs:50-99 | queued at once, that sequence needs four passes: after three the second click is still pending with the magnet pick armed |
| Calibration.TrackbarMessage | src/main.rs:102-108 | value 0 gives `SelectObject`, 2 gives `SelectMagnet`, every other value gives no message |

## Left out

- Camera capture, `imshow`, `poll_key` and the ESC exit, and `convert_mat` (src/main.rs:23-64, 122-130): device I/O and OpenCV format conversion. Frames are given as already 3-channel 8-bit data.
- The blob detector's construction and parameters (src/lib.rs:36-48): a foreign library; the detector is a function parameter, and its internal failure (a panic on `unwrap`) is not modelled.
- `save_img` (src/lib.rs:74-94): floating-point distance and an image file write.
- src/serial.rs: the serial write wraps a port library and `f32::to_be_bytes` (IEEE-754 bit reinterpretation); port selection is interactive console I/O.
- src/gui.rs and the mouse/button callbacks of src/main.rs: windowing and channel glue. Its `ToggleRaw` message and tolerance trackbars are not part of the loop shown in src/main.rs.
- The bounded `sync_channel(10)`, its blocking senders and threading: the channel is a plain sequence of pending messages, all queued before the passes being modelled.
- `r_mut`, `g_mut`, `b_mut` (src/color.rs:44-52): mutable references; datatype update (`c.(r := v)`) plays that role.
- Pixel coordinates and keypoint coordinates are abstract (`I32` clicks, a type parameter for `f32` keypoints); no floating-point behaviour is modelled.
- Tracking.InRange: accepts an empty frame and returns an empty mask; a rejection of empty input by `in_range` itself (its `unwrap` at src/lib.rs:32) is not modelled, but on that input the conversion that follows panics, which `Tracking.IsolateObj` requires away.
- The console logging of the loop and the callbacks (`eprintln!` at src/main.rs:57, `println!` at src/main.rs:81 and 85, `dbg!` at src/main.rs:118): output only, it changes no state.
