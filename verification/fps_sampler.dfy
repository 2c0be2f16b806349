/**
 The frame-counter half of the bouncing-ball update step: an 8-bit
 unsigned counter that is incremented once per update and, on reaching 60,
 is reset to 0 while the FPS label is replaced by a fresh reading.

 The reading is opaque (type parameter `F`): how the host measures the
 frame rate, and how the label text is formatted and rendered, are not
 part of this model. A refresh is an event that installs the reading.
 */
module FpsSampler {

  /** Rust's `u8`. */
  newtype U8 = x: int | 0 <= x < 256

  /** The number of updates between two label refreshes. */
  const Period: int := 60

  /** The only failure of an update: the `u8` increment overflowing. */
  datatype UpdateError = FrameCounterOverflow

  datatype Result<T> = Ok(value: T) | Err(error: UpdateError)

  /** The FPS label: the startup text, or the reading of the latest refresh. */
  datatype Label<F> = Placeholder | Reading(fps: F)

  /** The counter part of the state after one update, and whether the label was refreshed. */
  datatype Sample<F> = Sample(frames: U8, fpsLabel: Label<F>, refreshed: bool)

  /**
   `frames += 1` on a `u8`, with the overflow check of a Rust debug build
   (which panics instead of wrapping).
   */
  function Increment(frames: U8): (r: Result<U8>)
    ensures r.Ok? <==> frames as int + 1 < 256
    ensures r.Ok? ==> r.value as int == frames as int + 1
  {
    if frames == 255 then Err(FrameCounterOverflow) else Ok(frames + 1)
  }

  /**
   The counter part of one update: increment, and when the incremented
   counter is 60 or more, reset it to 0 and refresh the label with
   `measured`.
   */
  function Tick<F>(frames: U8, fpsLabel: Label<F>, measured: F): (r: Result<Sample<F>>)
    ensures r.Ok? <==> frames < 255
    ensures r.Ok? ==> (r.value.refreshed <==> frames as int + 1 >= Period)
    ensures r.Ok? && r.value.refreshed ==> r.value.frames == 0 && r.value.fpsLabel == Reading(measured)
    ensures r.Ok? && !r.value.refreshed ==> r.value.frames == frames + 1 && r.value.fpsLabel == fpsLabel
  {
    match Increment(frames)
    case Err(e) => Err(e)
    case Ok(next) =>
      if next as int >= Period then Ok(Sample(0, Reading(measured), true))
      else Ok(Sample(next, fpsLabel, false))
  }

  /** The counter invariant kept by every update. */
  predicate ValidCounter(frames: U8) {
    frames as int < Period
  }

  /**
   From a counter in `[0, 60)` the increment never overflows and the
   counter stays in `[0, 60)`. The label is refreshed exactly when the
   counter was 59, and the counter is then 0; otherwise the counter goes up
   by one and the label is unchanged.
   */
  lemma TickKeepsValid<F>(frames: U8, fpsLabel: Label<F>, measured: F)
    requires ValidCounter(frames)
    ensures Increment(frames).Ok?
    ensures Tick(frames, fpsLabel, measured).Ok?
    ensures ValidCounter(Tick(frames, fpsLabel, measured).value.frames)
    ensures Tick(frames, fpsLabel, measured).value.refreshed <==> frames as int == Period - 1
    ensures Tick(frames, fpsLabel, measured).value.frames as int == (frames as int + 1) % Period
  {
  }
}
