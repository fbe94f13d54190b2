/** Status codes of the codec/container engine, as the engine returns them
    (negative values are errors; two of them are sentinels, not failures). */
module AVError {

  /** AVERROR(EAGAIN) on Linux: "no output now, supply more input". */
  const ErrAgain: int := -11
  /** AVERROR(ENOMEM). */
  const ErrNoMemory: int := -12
  /** AVERROR(EINVAL): returned, among others, by a codec context that was never opened. */
  const ErrInvalid: int := -22
  /** AVERROR_EOF = -MKTAG('E','O','F',' '): "end of stream". */
  const ErrEof: int := -0x2046_4F45
  /** AVERROR_UNKNOWN = -MKTAG('U','N','K','N'). */
  const ErrUnknown: int := -0x4E4B_4E55

  /** The two negative codes that mean "no more output for now", not failure. */
  predicate IsSentinel(code: int) {
    code == ErrAgain || code == ErrEof
  }

  /** A code that a pull may fail with: negative and not one of the sentinels. */
  type FatalCode = c: int | c < 0 && !IsSentinel(c) witness -22

  /** What a submission (send packet / send frame) or a header write may return. */
  type Status = s: int | s <= 0
}

/** How a run of the C++ code ends: with a returned status, or in behaviour the C++ standard
    leaves undefined (a NULL pointer dereferenced, a freed context used). */
module Outcomes {
  datatype Hazard =
    | NullVideoStream      // no video stream in the input, yet its fields are read
    | NullAudioStream      // no audio stream in the input, yet its fields are read
    | NullEncoderContext   // a frame (or the flush) is sent to a video encoder never allocated
    | NoSampleFormats      // the audio encoder lists no sample formats, yet the first is read
    | NullOutputContext    // cleanUp reads the muxer of an output context that is NULL
    | UseAfterCleanUp      // the contexts are used again after cleanUp released them
    | DivisionByZero       // an int division by zero in the frame duration
    | IntOverflow          // a signed int overflow in the frame duration

  datatype Outcome = Returned(code: int) | Undefined(hazard: Hazard)
}
