/** The values the VP9 decode command works on: register state, the
    picture-setup structure, surface keys, memory spans and the decoder's
    normalized picture info. */
module Vp9Types {
  import opened Sizing

  newtype U32 = x: int | 0 <= x < 0x1_0000_0000
  newtype Byte = x: int | 0 <= x < 0x100

  datatype Option<T> = None | Some(value: T)

  /** C#'s `(int)` conversion of a 32-bit unsigned value: values of 2^31 and
      above wrap to negative numbers. */
  function ToInt32(x: U32): (r: int)
    ensures -0x8000_0000 <= r <= INT32_MAX
    ensures r % 0x1_0000_0000 == x as int
    ensures x as int <= INT32_MAX ==> r == x as int
  {
    if x as int <= INT32_MAX then x as int else x as int - 0x1_0000_0000
  }

  /** The four reference roles of a VP9 frame decode, in register order. */
  datatype Slot = Last | Golden | Alt | Current {
    /** Index of the slot's entry in the picture luma/chroma offset registers. */
    function Index(): (i: nat)
      ensures i < 4
    {
      match this
      case Last => 0
      case Golden => 1
      case Alt => 2
      case Current => 3
    }
  }

  /** A surface handle, identified by the key it was rented under from the
      surface cache (luma offset, chroma offset, width, height). */
  datatype Surface = Surface(lumaOffset: U32, chromaOffset: U32, width: nat, height: nat)

  /** A byte range of mapped memory, named by the 32-bit register offset it
      was requested at and its length as the call passed it. */
  datatype Span = Span(offset: U32, length: int)

  /** The input motion vectors handed to the decoder: the empty span, or a
      read-only span of mapped memory. */
  datatype MvsInput = Empty | FromMemory(span: Span)

  /** Raw picture-setup structure (PictureInfo) as far as this core reads
      it; `usePrevInFindMvRefs` is the flag its conversion derives. */
  datatype PictureInfo = PictureInfo(
    lastFrameSize: FrameSize,
    goldenFrameSize: FrameSize,
    altFrameSize: FrameSize,
    currentFrameSize: FrameSize,
    bitstreamSize: U32,
    usePrevInFindMvRefs: bool)
  {
    /** The frame size that belongs to a reference slot. */
    function SizeOf(slot: Slot): FrameSize {
      match slot
      case Last => lastFrameSize
      case Golden => goldenFrameSize
      case Alt => altFrameSize
      case Current => currentFrameSize
    }
  }

  /** Raw entropy-probability tables; their layout is not modelled. */
  datatype EntropyProbs = EntropyProbs(tables: seq<Byte>)

  /** The decoder-native picture info: the converted picture setup plus the
      three reference surfaces and the converted entropy state. */
  datatype Vp9PictureInfo = Vp9PictureInfo(
    usePrevInFindMvRefs: bool,
    lastReference: Option<Surface>,
    goldenReference: Option<Surface>,
    altReference: Option<Surface>,
    entropy: Option<EntropyProbs>)

  /** PictureInfo.Convert, as far as this core depends on it: it carries the
      motion-vector flag over and leaves references and entropy unset. */
  function Convert(picture: PictureInfo): (info: Vp9PictureInfo)
    ensures info.usePrevInFindMvRefs == picture.usePrevInFindMvRefs
    ensures info.lastReference == info.goldenReference == info.altReference == None
    ensures info.entropy == None
  {
    Vp9PictureInfo(picture.usePrevInFindMvRefs, None, None, None, None)
  }

  /** The NVDEC registers this command reads. The picture offset tables are
      fixed register arrays of at least four entries. */
  datatype NvdecRegisters = NvdecRegisters(
    setDrvPicSetupOffset: U32,
    vp9SetProbTabBufOffset: U32,
    setPictureLumaOffset: seq<U32>,
    setPictureChromaOffset: seq<U32>,
    setInBufBaseOffset: U32,
    vp9SetColMvReadBufOffset: U32,
    vp9SetColMvWriteBufOffset: U32,
    vp9SetCtxCounterBufOffset: U32)
  {
    predicate HasPictureSlots() {
      |setPictureLumaOffset| >= 4 && |setPictureChromaOffset| >= 4
    }
  }

  /** Unsafe.SizeOf<BackwardUpdates>(): the byte size of the counts
      structure, a constant of its type. Its field layout is not part of
      this model, so no value is fixed and every property holds for any size. */
  const BACKWARD_UPDATES_SIZE: nat

  /** The byte image of one BackwardUpdates structure. */
  type BackwardUpdatesImage = s: seq<Byte> | |s| == BACKWARD_UPDATES_SIZE
    witness seq(BACKWARD_UPDATES_SIZE, _ => 0 as Byte)

  /** What the opaque VP9 decoder yields: its boolean result and the backward
      update counts it leaves in the picture info, as the byte image of the
      BackwardUpdates structure built from them. */
  datatype DecoderOutcome = DecoderOutcome(success: bool, backwardUpdates: BackwardUpdatesImage)
}
