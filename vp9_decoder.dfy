/** The VP9 frame-decode command of the NVDEC emulator: read the picture setup
    and entropy tables, rent the last, golden, alt and current surfaces, size
    the motion-vector buffers from the current frame, call the decoder, write
    the current surface back when decoding succeeded, always export the
    backward-update counts, and return the four surfaces to the cache. */
module Vp9Decoder {
  import opened Sizing
  import opened Vp9Types
  import opened Effects
  import opened MappedMemory
  import opened Resources

  /** The reference slots in the order they are rented and put back. */
  const SLOTS: seq<Slot> := [Last, Golden, Alt, Current]

  // ---------------------------------------------------------------------
  // The specification of one decode command, as the events it causes.
  // ---------------------------------------------------------------------

  /** The surface key of a slot: its register offsets and its frame size. */
  function SlotSurface(state: NvdecRegisters, picture: PictureInfo, slot: Slot): Surface
    requires state.HasPictureSlots()
  {
    var size := picture.SizeOf(slot);
    Surface(state.setPictureLumaOffset[slot.Index()], state.setPictureChromaOffset[slot.Index()],
            size.width, size.height)
  }

  /** The picture info handed to the decoder. */
  function DecoderInfo(state: NvdecRegisters, picture: PictureInfo, entropy: EntropyProbs): Vp9PictureInfo
    requires state.HasPictureSlots()
  {
    Convert(picture).(
      lastReference := Some(SlotSurface(state, picture, Last)),
      goldenReference := Some(SlotSurface(state, picture, Golden)),
      altReference := Some(SlotSurface(state, picture, Alt)),
      entropy := Some(entropy))
  }

  function BitstreamSpan(state: NvdecRegisters, picture: PictureInfo): Span {
    Span(state.setInBufBaseOffset, ToInt32(picture.bitstreamSize))
  }

  function MvsInputSpan(state: NvdecRegisters, picture: PictureInfo): Span {
    Span(state.vp9SetColMvReadBufOffset, MvBufferBytes(picture.currentFrameSize))
  }

  function MvsOutputRegion(state: NvdecRegisters, picture: PictureInfo): Span {
    Span(state.vp9SetColMvWriteBufOffset, MvBufferBytes(picture.currentFrameSize))
  }

  function MvsInputOf(state: NvdecRegisters, picture: PictureInfo): MvsInput {
    if picture.usePrevInFindMvRefs then FromMemory(MvsInputSpan(state, picture)) else Empty
  }

  /** The two structures read first: the picture setup, then the tables. */
  function Ingest(state: NvdecRegisters): seq<Event> {
    [DeviceRead(PictureSetup, state.setDrvPicSetupOffset), DeviceRead(ProbabilityTables, state.vp9SetProbTabBufOffset)]
  }

  function Rents(state: NvdecRegisters, picture: PictureInfo): seq<Event>
    requires state.HasPictureSlots()
  {
    [Rent(Last, SlotSurface(state, picture, Last)),
     Rent(Golden, SlotSurface(state, picture, Golden)),
     Rent(Alt, SlotSurface(state, picture, Alt)),
     Rent(Current, SlotSurface(state, picture, Current))]
  }

  function Puts(state: NvdecRegisters, picture: PictureInfo): seq<Event>
    requires state.HasPictureSlots()
  {
    [Put(Last, SlotSurface(state, picture, Last)),
     Put(Golden, SlotSurface(state, picture, Golden)),
     Put(Alt, SlotSurface(state, picture, Alt)),
     Put(Current, SlotSurface(state, picture, Current))]
  }

  /** The spans fetched before decoding: the bitstream, then the input
      motion vectors when the picture asks for them, then the output
      motion-vector region. */
  function Fetches(state: NvdecRegisters, picture: PictureInfo): seq<Event> {
    [GetSpan(BitstreamSpan(state, picture))]
    + (if picture.usePrevInFindMvRefs then [GetSpan(MvsInputSpan(state, picture))] else [])
    + [WritableRegion(MvsOutputRegion(state, picture))]
  }

  function Invocation(state: NvdecRegisters, picture: PictureInfo, entropy: EntropyProbs): seq<Event>
    requires state.HasPictureSlots()
  {
    [DecodeCall(DecoderInfo(state, picture, entropy), SlotSurface(state, picture, Current),
                BitstreamSpan(state, picture), MvsInputOf(state, picture), MvsOutputRegion(state, picture))]
  }

  /** The exports after decoding: the current surface when decoding
      succeeded, then the backward-update counts in any case. */
  function Exports(state: NvdecRegisters, picture: PictureInfo, outcome: DecoderOutcome): seq<Event>
    requires state.HasPictureSlots()
  {
    (if outcome.success
     then [WriteSurface(SlotSurface(state, picture, Current),
                        state.setPictureLumaOffset[3], state.setPictureChromaOffset[3])]
     else [])
    + [WritableRegion(Span(state.vp9SetCtxCounterBufOffset, BACKWARD_UPDATES_SIZE)),
       StoreBackwardUpdates(state.vp9SetCtxCounterBufOffset, outcome.backwardUpdates)]
  }

  /** Every call one decode command makes, in order, given the picture setup
      and entropy tables it reads and the decoder's outcome. */
  function DecodeEffects(state: NvdecRegisters, picture: PictureInfo, entropy: EntropyProbs,
                         outcome: DecoderOutcome): seq<Event>
    requires state.HasPictureSlots()
  {
    Ingest(state)
    + Rents(state, picture)
    + Fetches(state, picture)
    + Invocation(state, picture, entropy)
    + Exports(state, picture, outcome)
    + Puts(state, picture)
  }

  // ---------------------------------------------------------------------
  // The decode command.
  // ---------------------------------------------------------------------

  /** Vp9Decoder.Decode. */
  method Decode(rm: ResourceManager, state: NvdecRegisters, outcome: DecoderOutcome)
    requires state.HasPictureSlots()
    modifies rm
    ensures rm.log == old(rm.log) + DecodeEffects(state, rm.pictureSetupAt(state.setDrvPicSetupOffset),
                                                  rm.probTablesAt(state.vp9SetProbTabBufOffset), outcome)
  {
    ghost var log0 := rm.log;
    var pictureInfo := rm.ReadPictureInfo(state.setDrvPicSetupOffset);
    var entropy := rm.ReadEntropyProbs(state.vp9SetProbTabBufOffset);
    ghost var ingest := Ingest(state);
    assert rm.log == log0 + ingest;

    var lastSurface, goldenSurface, altSurface, currentSurface := RentSurfaces(rm, state, pictureInfo);
    assert rm.log == log0 + ingest + Rents(state, pictureInfo);
    ghost var log1 := rm.log;

    var info := Convert(pictureInfo);
    info := info.(lastReference := Some(lastSurface));
    info := info.(goldenReference := Some(goldenSurface));
    info := info.(altReference := Some(altSurface));
    info := info.(entropy := Some(entropy));

    var bitstream := rm.DeviceGetSpan(state.setInBufBaseOffset, ToInt32(pictureInfo.bitstreamSize));

    var mvsIn := Empty;
    if info.usePrevInFindMvRefs {
      mvsIn := GetMvsInput(rm, pictureInfo.currentFrameSize, state.vp9SetColMvReadBufOffset);
    }

    var miCols := DivRoundUp(pictureInfo.currentFrameSize.width, MI_SIZE);
    var miRows := DivRoundUp(pictureInfo.currentFrameSize.height, MI_SIZE);

    var mvsOut := rm.GetWritableRegion(state.vp9SetColMvWriteBufOffset, miRows * miCols * MV_RECORD_SIZE);

    assert rm.log == log1 + Fetches(state, pictureInfo);
    assert info == DecoderInfo(state, pictureInfo, entropy);
    ghost var log2 := rm.log;

    var lumaOffset := state.setPictureLumaOffset[3];
    var chromaOffset := state.setPictureChromaOffset[3];

    var ok := rm.InvokeDecoder(info, currentSurface, bitstream, mvsIn, mvsOut, outcome);
    if ok {
      rm.WriteSurface(currentSurface, lumaOffset, chromaOffset);
    }

    WriteBackwardUpdates(rm, state.vp9SetCtxCounterBufOffset, outcome.backwardUpdates);
    assert rm.log == log2 + Invocation(state, pictureInfo, entropy) + Exports(state, pictureInfo, outcome);
    ghost var log3 := rm.log;

    PutSurfaces(rm, lastSurface, goldenSurface, altSurface, currentSurface);
    assert rm.log == log3 + Puts(state, pictureInfo);
    assert rm.log == log0 + ingest + Rents(state, pictureInfo) + Fetches(state, pictureInfo)
      + Invocation(state, pictureInfo, entropy) + Exports(state, pictureInfo, outcome) + Puts(state, pictureInfo);
    assert DecodeEffects(state, pictureInfo, entropy, outcome) == ingest + Rents(state, pictureInfo) + Fetches(state, pictureInfo)
      + Invocation(state, pictureInfo, entropy) + Exports(state, pictureInfo, outcome) + Puts(state, pictureInfo);
    TraceOfPhases(log0, ingest, Rents(state, pictureInfo), Fetches(state, pictureInfo),
                  Invocation(state, pictureInfo, entropy), Exports(state, pictureInfo, outcome),
                  Puts(state, pictureInfo));
  }

  /** The four cache rents at the head of Decode: slot k under the luma and
      chroma offsets of register entry k and the slot's frame size. */
  method RentSurfaces(rm: ResourceManager, state: NvdecRegisters, pictureInfo: PictureInfo)
    returns (lastSurface: Surface, goldenSurface: Surface, altSurface: Surface, currentSurface: Surface)
    requires state.HasPictureSlots()
    modifies rm
    ensures lastSurface == SlotSurface(state, pictureInfo, Last)
    ensures goldenSurface == SlotSurface(state, pictureInfo, Golden)
    ensures altSurface == SlotSurface(state, pictureInfo, Alt)
    ensures currentSurface == SlotSurface(state, pictureInfo, Current)
    ensures rm.log == old(rm.log) + Rents(state, pictureInfo)
  {
    lastSurface := rm.CacheGet(Last, state.setPictureLumaOffset[0], state.setPictureChromaOffset[0], pictureInfo.lastFrameSize);
    goldenSurface := rm.CacheGet(Golden, state.setPictureLumaOffset[1], state.setPictureChromaOffset[1], pictureInfo.goldenFrameSize);
    altSurface := rm.CacheGet(Alt, state.setPictureLumaOffset[2], state.setPictureChromaOffset[2], pictureInfo.altFrameSize);
    currentSurface := rm.CacheGet(Current, state.setPictureLumaOffset[3], state.setPictureChromaOffset[3], pictureInfo.currentFrameSize);
  }

  /** The four cache puts at the end of Decode, in rent order. */
  method PutSurfaces(rm: ResourceManager, lastSurface: Surface, goldenSurface: Surface, altSurface: Surface, currentSurface: Surface)
    modifies rm
    ensures rm.log == old(rm.log) + [Put(Last, lastSurface), Put(Golden, goldenSurface), Put(Alt, altSurface), Put(Current, currentSurface)]
  {
    rm.CachePut(Last, lastSurface);
    rm.CachePut(Golden, goldenSurface);
    rm.CachePut(Alt, altSurface);
    rm.CachePut(Current, currentSurface);
  }

  /** Appending the phases one after another appends their concatenation. */
  lemma TraceOfPhases(log: seq<Event>, a: seq<Event>, b: seq<Event>, c: seq<Event>, d: seq<Event>,
                      e: seq<Event>, f: seq<Event>)
    ensures log + a + b + c + d + e + f == log + (a + b + c + d + e + f)
  {
  }

  /** Vp9Decoder.GetMvsInput: the input motion vectors, a span of one record
      per mode-info cell of the frame of the given size. */
  method GetMvsInput(rm: ResourceManager, size: FrameSize, offset: U32) returns (mvs: MvsInput)
    modifies rm
    ensures mvs == FromMemory(Span(offset, MvBufferBytes(size)))
    ensures rm.log == old(rm.log) + [GetSpan(mvs.span)]
  {
    var miCols := DivRoundUp(size.width, MI_SIZE);
    var miRows := DivRoundUp(size.height, MI_SIZE);
    var span := rm.DeviceGetSpan(offset, miRows * miCols * MV_RECORD_SIZE);
    mvs := FromMemory(span);
  }

  /** Vp9Decoder.WriteBackwardUpdates: a writable region of exactly the
      structure's size, overwritten in full with the counts' image. */
  method WriteBackwardUpdates(rm: ResourceManager, offset: U32, counts: BackwardUpdatesImage)
    modifies rm
    ensures rm.log == old(rm.log) + [WritableRegion(Span(offset, BACKWARD_UPDATES_SIZE)), StoreBackwardUpdates(offset, counts)]
  {
    var region := rm.GetWritableRegion(offset, BACKWARD_UPDATES_SIZE);
    rm.StoreBackwardUpdates(region.offset, counts);
  }
}
