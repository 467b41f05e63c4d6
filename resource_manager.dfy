/** The collaborators of the decode command: the GPU memory manager, the
    surface cache and the VP9 decoder. Their internals are not modelled;
    each call is recorded, in order, in the resource manager's log. */
module Resources {
  import opened Sizing
  import opened Vp9Types
  import opened Effects

  class ResourceManager {
    /** The picture-setup structure mapped memory holds at each offset. */
    const pictureSetupAt: U32 -> PictureInfo
    /** The entropy-probability tables mapped memory holds at each offset. */
    const probTablesAt: U32 -> EntropyProbs
    /** Every call made on the collaborators so far, oldest first. */
    var log: seq<Event>

    constructor (pictureSetupAt: U32 -> PictureInfo, probTablesAt: U32 -> EntropyProbs)
      ensures this.pictureSetupAt == pictureSetupAt && this.probTablesAt == probTablesAt
      ensures log == []
    {
      this.pictureSetupAt := pictureSetupAt;
      this.probTablesAt := probTablesAt;
      log := [];
    }

    /** Gmm.DeviceRead<PictureInfo>. */
    method ReadPictureInfo(offset: U32) returns (picture: PictureInfo)
      modifies this
      ensures picture == pictureSetupAt(offset)
      ensures log == old(log) + [DeviceRead(PictureSetup, offset)]
    {
      picture := pictureSetupAt(offset);
      log := log + [DeviceRead(PictureSetup, offset)];
    }

    /** Gmm.DeviceRead<EntropyProbs>. */
    method ReadEntropyProbs(offset: U32) returns (entropy: EntropyProbs)
      modifies this
      ensures entropy == probTablesAt(offset)
      ensures log == old(log) + [DeviceRead(ProbabilityTables, offset)]
    {
      entropy := probTablesAt(offset);
      log := log + [DeviceRead(ProbabilityTables, offset)];
    }

    /** Cache.Get: the surface rented under the key (luma, chroma, size);
        `slot` only labels the record with the role the caller rents it for. */
    method CacheGet(slot: Slot, lumaOffset: U32, chromaOffset: U32, size: FrameSize) returns (surface: Surface)
      modifies this
      ensures surface == Surface(lumaOffset, chromaOffset, size.width, size.height)
      ensures log == old(log) + [Rent(slot, surface)]
    {
      surface := Surface(lumaOffset, chromaOffset, size.width, size.height);
      log := log + [Rent(slot, surface)];
    }

    /** Cache.Put: the surface goes back to the cache. */
    method CachePut(slot: Slot, surface: Surface)
      modifies this
      ensures log == old(log) + [Put(slot, surface)]
    {
      log := log + [Put(slot, surface)];
    }

    /** Gmm.DeviceGetSpan: a read-only view of `length` bytes at `offset`. */
    method DeviceGetSpan(offset: U32, length: int) returns (span: Span)
      modifies this
      ensures span == Span(offset, length)
      ensures log == old(log) + [GetSpan(span)]
    {
      span := Span(offset, length);
      log := log + [GetSpan(span)];
    }

    /** Gmm.GetWritableRegion at ExtendOffset(offset), `length` bytes long. */
    method GetWritableRegion(offset: U32, length: nat) returns (region: Span)
      modifies this
      ensures region == Span(offset, length)
      ensures log == old(log) + [WritableRegion(region)]
    {
      region := Span(offset, length);
      log := log + [WritableRegion(region)];
    }

    /** The opaque VP9 decoder: it is handed the picture info, the target
        surface, the bitstream and both motion-vector buffers, and reports
        `outcome.success`. */
    method InvokeDecoder(info: Vp9PictureInfo, target: Surface, bitstream: Span, mvsIn: MvsInput, mvsOut: Span,
                         outcome: DecoderOutcome) returns (ok: bool)
      modifies this
      ensures ok == outcome.success
      ensures log == old(log) + [DecodeCall(info, target, bitstream, mvsIn, mvsOut)]
    {
      ok := outcome.success;
      log := log + [DecodeCall(info, target, bitstream, mvsIn, mvsOut)];
    }

    /** SurfaceWriter.Write: the surface's planes go to mapped memory at the
        given luma and chroma offsets. */
    method WriteSurface(surface: Surface, lumaOffset: U32, chromaOffset: U32)
      modifies this
      ensures log == old(log) + [Event.WriteSurface(surface, lumaOffset, chromaOffset)]
    {
      log := log + [Event.WriteSurface(surface, lumaOffset, chromaOffset)];
    }

    /** Assignment of a whole BackwardUpdates structure through the writable
        region at ExtendOffset(offset). */
    method StoreBackwardUpdates(offset: U32, image: BackwardUpdatesImage)
      modifies this
      ensures log == old(log) + [Event.StoreBackwardUpdates(offset, image)]
    {
      log := log + [Event.StoreBackwardUpdates(offset, image)];
    }
  }
}
