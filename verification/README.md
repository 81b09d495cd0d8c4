# Stair lights controller, modelled in Dafny

A MicroPython program drives a WS2812B LED strip on a stairway. A light sensor
says whether it is dark; two motion detectors watch the bottom and the top of
the stairs. At start-up the strip is set OFF and pushed once. Then, forever:
if it is dark and the bottom detector fires, the strip is wiped on in WHITE
from pixel 0 (the top) downwards, held for `SHINE_TIME` seconds, and wiped
off in the same direction; otherwise, if it is dark and the top detector
fires, the same happens from the last pixel upwards; otherwise nothing
happens. The bottom detector wins when both fire.

The model has three modules:

- `Pixels` (pixels.dfy): the colour triple with 8-bit channels, the
  constants `WHITE = (16, 16, 16)` and `OFF = (0, 0, 0)`, the buffer as a
  sequence of colours, and `Painted`, the buffer with one index range
  recoloured, which the fill contracts are stated in.
- `Wipe` (wipe.dfy): the two fill routines `top_to_bottom` and
  `bottom_to_top` as loops over the buffer. Every `write()` of the strip is
  recorded as a snapshot of the buffer in an output trace, so a contract can
  say what each push showed. The loops are proved against the reference
  functions `Forward` and `Backward`. These say, for every pixel count,
  what the buffer ends as, what the k-th push shows and how the call ends.
  Python's behaviour for counts outside the buffer is modelled too.
  A count of zero or less does nothing. A count past the buffer makes
  `top_to_bottom` paint and push every pixel and then raise. It makes
  `bottom_to_top` raise at its first index, before any push.
- `Controller` (controller.dfy): the constants `PIXEL_COUNT = 300`,
  `LIGHT_MINUTES = 3`, `SHINE_TIME = 60 * LIGHT_MINUTES`, the start-up,
  one pass of the polling loop as the function `Step`, and a bounded run over
  a finite list of sensor readings. Observable behaviour is a list of events:
  a sensor sample, a push of the buffer, or a hold of some seconds. Sensor
  samples follow the short-circuit order of the source. The light sensor is
  read first. The bottom detector is read only when it is dark. The top
  detector is read only when it is dark and the bottom one saw nothing.

`Step` requires a buffer of exactly `PIXEL_COUNT` pixels. The program only
ever passes it the one strip, which it builds with `PIXEL_COUNT` pixels, and
no operation changes the buffer's length. With that buffer neither fill can
raise.

## Model

| member | source | states |
|---|---|---|
| Wipe.Reach | main.py:19-20 | the indices `range(pixelCount)` produces that name a pixel of the buffer are exactly 0..m-1, so m pixels are assigned before the range ends or an index falls outside the buffer |
| Wipe.TopToBottom | main.py:12-21 | the loop's buffer, pushes and ending equal `Forward`. Pixels 0..n-1 end in the colour and the rest are untouched. Exactly Reach(len, n) pushes happen, that is max(0, min(n, len)), the k-th showing pixels 0..k coloured. Each push follows the assignment of exactly pixel k, so indices change in ascending order. A count past the buffer raises IndexError at index len after painting the whole buffer |
| Wipe.BottomToTop | main.py:24-33 | the loop's buffer, pushes and ending equal `Backward`. Pixels 0..n-1 end in the colour and the rest are untouched. For a count that fits, exactly max(0, n) pushes happen, the k-th showing pixels n-1-k..n-1 coloured. Each push follows the assignment of exactly pixel n-1-k, so indices change in descending order. A count past the buffer raises IndexError at index n-1 with no push and the buffer unchanged |
| Wipe.SameFinalStrip | main.py:19-33 | for a count that fits the buffer both routines push equally often. They leave the same final buffer exactly when the count fits, or when the buffer already showed the colour everywhere |
| Wipe.ForwardLastWins | main.py:19-21 | a second top-to-bottom fill over the same count leaves the buffer a single fill with the second colour would leave |
| Wipe.BackwardLastWins | main.py:31-33 | the same for two bottom-to-top fills |
| Wipe.FillIdempotent | main.py:19-33 | filling twice with one colour, in either direction, leaves the buffer filling once leaves |
| Wipe.LitThenCleared | main.py:71-77 | a WHITE fill followed by an OFF fill in the same direction leaves pixels 0..n-1 OFF and every other pixel as it was, and both directions end identically |
| Controller.Startup | main.py:64-66 | start-up leaves every pixel OFF, whatever the buffer held, with exactly one push, of that all-OFF buffer |
| Controller.Choose | main.py:68-77 | the top-down sequence runs exactly when dark and bottom motion, the bottom-up one exactly when dark, no bottom motion and top motion, and nothing happens exactly when not dark or no motion at all |
| Controller.Samples | main.py:69-74 | a pass samples only sensors, each at most once, in the order of the source: the light sensor first on every pass, then the bottom detector exactly when dark, then the top detector exactly when dark and no bottom motion; the number of samples is 1, 2 or 3 accordingly |
| Controller.FillCompletes | main.py:71-77 | on the strip of PIXEL_COUNT pixels every whole-strip fill, in either direction and any colour, ends normally and never raises |
| Controller.Sequence | main.py:70-77 | a lighting sequence is PIXEL_COUNT pushes, one hold of 180 seconds (SHINE_TIME, from LIGHT_MINUTES at main.py:40 and main.py:53), then PIXEL_COUNT pushes. The last push before the hold shows the whole strip WHITE, and the last push shows the all-OFF strip the sequence leaves behind |
| Controller.SequenceOrder | main.py:70-77 | both wipes of a lighting sequence run in its direction. For a top-down sequence the k-th push of the WHITE wipe shows pixels 0..k WHITE over the strip as found. For a bottom-up one it shows pixels PIXEL_COUNT-1-k..PIXEL_COUNT-1 WHITE. The k-th push of the OFF wipe shows the same pixels OFF over the all-WHITE strip |
| Controller.Step | main.py:68-77 | a pass pushes or holds exactly when `Choose` picks a sequence. A pass that does neither leaves the buffer unchanged. A pass that lights leaves it all OFF. No sensor is sampled after the first push or hold |
| Controller.StepEvents | main.py:68-77 | a pass that does nothing is exactly its sensor samples with the buffer unchanged; a lighting pass is exactly its samples followed by the whole `Sequence` in the direction `Choose` picks, and leaves that sequence's buffer |
| Controller.DarkGate | main.py:69 | when not dark, a pass samples the light sensor only, pushes nothing, holds nothing and leaves the buffer unchanged, whatever the motion inputs |
| Controller.BottomPriority | main.py:70-74 | with dark and bottom motion the pass is the same whatever the top detector says, never samples it, its first push shows pixel 0 lit, and its events are exactly the light and bottom samples followed by the whole top-down sequence (both wipes top-down) |
| Controller.TopOnly | main.py:74-77 | with dark, top motion and no bottom motion the first push shows the last pixel lit, and the events are exactly the three samples followed by the whole bottom-up sequence (both wipes bottom-up) |
| Controller.LitShape | main.py:70-77 | a lighting pass begins with exactly its `Samples`, then PIXEL_COUNT pushes ending all WHITE, one hold of 180 seconds, then PIXEL_COUNT pushes ending all OFF, and the buffer ends all OFF |
| Controller.Run | main.py:68-77 | a bounded run of passes keeps the buffer at PIXEL_COUNT pixels |
| Controller.RunOne | main.py:68-77 | a run of one reading is exactly the pass for that reading's own light, bottom and top values; with `RunAppend` this fixes every run as the passes for its readings, in order |
| Controller.RunAppend | main.py:68-77 | running one list of readings and then another is the run of the joined list: the passes happen, and their events appear, in reading order |
| Controller.RunKeepsOff | main.py:65-77 | from an all-OFF strip, the strip is all OFF after every bounded run, whatever the readings |
| Controller.Boot | main.py:64-77 | from power-on, the first event is a push of the all-OFF strip, and after any finite run of the loop the strip is all OFF |
| Controller.BootRun | main.py:64-77 | from power-on the program's events are the one start-up push of the all-OFF strip followed by the run of the readings from that all-OFF strip, whatever the buffer held before |
| Controller.StepTally | main.py:70-77 | a pass that lights pushes exactly 2 * PIXEL_COUNT times and holds exactly SHINE_TIME seconds; any other pass pushes and holds nothing |
| Controller.RunTally | main.py:68-77 | over a bounded run, pushes total 2 * PIXEL_COUNT per lighting reading and hold time totals SHINE_TIME per lighting reading |

## Left out

- Pin and NeoPixel construction, GPIO pin numbers and pull-down configuration (main.py:42-46, main.py:56-62): hardware set-up through foreign libraries. Sensor values are plain booleans in the model.
- The WS2812B bit timing behind `write()`: a push is only a snapshot of the buffer appended to the event list.
- The NeoPixel driver is not part of this model. The model assumes that assigning a pixel index past the buffer raises IndexError at that index, and that `fill` sets every pixel.
- Wall-clock time of `time.sleep`: a hold is an event carrying its length in seconds. Nothing can interrupt it, because a pass samples no sensor after its first push.
- The endless `while True` loop and its busy polling: one pass is `Step`, and `Run`/`Boot` cover any finite list of readings.
- A hardware fault escaping the loop, which would halt the program: with the one strip of `PIXEL_COUNT` pixels the fills cannot raise, so `Step` does not model a halted run.
