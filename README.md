# VP9 frame-decode command of the NVDEC emulator

This project models `Vp9Decoder.Decode` and its two helpers in Dafny. `Vp9Decoder.Decode` carries out one VP9 frame-decode command of the emulated NVDEC video engine. Each command does the following, in order:

1. It reads the picture-setup structure and the entropy-probability tables from GPU mapped memory.
2. It rents four surfaces from the surface cache: last, golden, alt and current.
3. It converts the picture setup into the decoder's picture info and hands it the three references and the entropy tables.
4. It fetches the bitstream. When the picture uses the previous frame's motion vectors, it also fetches the input motion vectors. It takes a writable region for the output motion vectors. Both motion-vector buffers are sized from the current frame.
5. It calls the opaque VP9 decoder.
6. It writes the current surface back to memory only if decoding succeeded.
7. It always exports the backward-update counts.
8. It returns the four surfaces to the cache.

The collaborators are the memory manager, the surface cache, the surface writer and the decoder. Their internals are not visible, so they are modelled as the methods of the class `Resources.ResourceManager`. Each method appends one `Event` to the class's `log`. `Vp9Decoder.Decode` is an imperative method over that object. It is proved to append exactly `DecodeEffects(...)`: the concatenation of the phases Ingest, Rents, Fetches, Invocation, Exports and Puts. Two inputs decide which of these events occur:
- the decoder's boolean result, passed in as `DecoderOutcome`;
- the `usePrevInFindMvRefs` flag of the picture setup.

The module `Vp9DecoderProperties` proves what the command promises about that trace:
- rents and puts balance;
- the stages run in a fixed order;
- the pixel export depends on the outcome;
- the counter export happens on every outcome and overwrites its whole region;
- the decoder receives the right references.

The proofs filter the trace by the kind of event (`Effects.Filter`) and relate kinds by order (`Effects.AllBefore`). The memory effect of the counter store is applied by `MappedMemory.ApplyStores`.

The module `Sizing` holds the motion-vector grid arithmetic: ceiling division by the 8-pixel cell and 16 bytes per record. Its lemmas show the following:
- the grid covers the frame;
- the grid is tight;
- the byte length fits a C# `int` for 16-bit dimensions;
- a 1920x1080 frame needs 518,400 bytes.

Files: `sizing.dfy`, `vp9_types.dfy`, `effects.dfy`, `mapped_memory.dfy`, `resource_manager.dfy`, `vp9_decoder.dfy`, `vp9_decoder_properties.dfy`.

## Model

| member | source | states |
|---|---|---|
| Sizing.DivRoundUp | src/Ryujinx.Graphics.Nvdec/Vp9Decoder.cs:50-51 | The cell count `r` covers the value without a spare cell: `value <= r*divisor < value + divisor`. |
| Sizing.DivRoundUpIsLeast | src/Ryujinx.Graphics.Nvdec/Vp9Decoder.cs:50-51 | No smaller count of cells covers the value: any `n` with `n*divisor >= value` is at least DivRoundUp. |
| Sizing.DivRoundUpUnique | src/Ryujinx.Graphics.Nvdec/Vp9Decoder.cs:50-51 | The two bounds determine the count, so DivRoundUp is exactly the ceiling of `value / divisor`. |
| Sizing.MvRecordOfPixelInBuffer | src/Ryujinx.Graphics.Nvdec/Vp9Decoder.cs:50-55 | Every pixel of the current frame falls in an 8x8 cell inside the miCols x miRows grid. That cell's 16-byte record lies wholly inside the `miRows*miCols*16`-byte motion-vector buffer. |
| Sizing.MvGridIsTight | src/Ryujinx.Graphics.Nvdec/Vp9Decoder.cs:50-51 | The grid has no spare column or row: the last column starts inside the frame's width and the last row inside its height. |
| Sizing.MvBufferFitsInt32 | src/Ryujinx.Graphics.Nvdec/Vp9Decoder.cs:53 | With width and height at most 65535, `miRows*miCols*16` is at most 2^30, so the `int` product cannot overflow. |
| Sizing.MvBufferOf1080p | src/Ryujinx.Graphics.Nvdec/Vp9Decoder.cs:50-53 | A 1920x1080 frame gives 240 columns, 135 rows and a 518,400-byte buffer. |
| Vp9Types.ToInt32 | src/Ryujinx.Graphics.Nvdec/Vp9Decoder.cs:41 | The `(int)` cast of the bitstream size lies in the signed 32-bit range and equals the input modulo 2^32. Values up to 2^31-1 are kept as they are. |
| MappedMemory.Store | src/Ryujinx.Graphics.Nvdec/Vp9Decoder.cs:85-87 | After the store, the bytes of the target region are exactly the stored image. Every other mapped byte is unchanged, and no byte outside the region becomes mapped. |
| MappedMemory.LoadAfterStore | src/Ryujinx.Graphics.Nvdec/Vp9Decoder.cs:87 | Reading the region back after the whole-structure assignment yields the stored image, whatever the region held before. |
| Resources.ResourceManager.ReadPictureInfo | src/Ryujinx.Graphics.Nvdec/Vp9Decoder.cs:20 | Returns the picture setup held at the given offset and logs one picture-setup device read at that offset. |
| Resources.ResourceManager.ReadEntropyProbs | src/Ryujinx.Graphics.Nvdec/Vp9Decoder.cs:21 | Returns the entropy tables held at the given offset and logs one table read at that offset. |
| Resources.ResourceManager.CacheGet | src/Ryujinx.Graphics.Nvdec/Vp9Decoder.cs:23-26 | Returns the surface identified by the key (luma, chroma, width, height) and logs one rent of it. |
| Resources.ResourceManager.CachePut | src/Ryujinx.Graphics.Nvdec/Vp9Decoder.cs:67 | Logs one put of the surface and changes nothing else. |
| Resources.ResourceManager.DeviceGetSpan | src/Ryujinx.Graphics.Nvdec/Vp9Decoder.cs:41 | Returns the span of the given offset and length and logs one span fetch of it. |
| Resources.ResourceManager.GetWritableRegion | src/Ryujinx.Graphics.Nvdec/Vp9Decoder.cs:53 | Returns the region of the given offset and length and logs one writable-region request of it. |
| Resources.ResourceManager.InvokeDecoder | src/Ryujinx.Graphics.Nvdec/Vp9Decoder.cs:60 | Reports the decoder's outcome and logs one decoder call with its five arguments. |
| Resources.ResourceManager.WriteSurface | src/Ryujinx.Graphics.Nvdec/Vp9Decoder.cs:62 | Logs one surface write of the surface at the given luma and chroma offsets. |
| Resources.ResourceManager.StoreBackwardUpdates | src/Ryujinx.Graphics.Nvdec/Vp9Decoder.cs:87 | Logs one whole-structure store of the counts' image at the counter offset. |
| Vp9Decoder.Decode | src/Ryujinx.Graphics.Nvdec/Vp9Decoder.cs:18-71 | The log grows by exactly `DecodeEffects` of the registers, the structures read at their offsets and the decoder's outcome. In order, those effects are: two reads, four rents, the fetches, one decoder call, the exports and four puts. The properties below are proved about this trace. |
| Vp9Decoder.RentSurfaces | src/Ryujinx.Graphics.Nvdec/Vp9Decoder.cs:28-31 | Rents last, golden, alt and current in that order. Slot k uses register entry k's luma and chroma offsets and that slot's frame size, and the method returns those four surfaces. |
| Vp9Decoder.PutSurfaces | src/Ryujinx.Graphics.Nvdec/Vp9Decoder.cs:67-70 | Puts the four given surfaces back in the order last, golden, alt, current, and does nothing else. |
| Vp9Decoder.GetMvsInput | src/Ryujinx.Graphics.Nvdec/Vp9Decoder.cs:73-79 | Returns the span at the read-buffer offset of `MvBufferBytes(size)` bytes, that is `ceil(h/8)*ceil(w/8)*16`. It logs exactly that one span fetch. |
| Vp9Decoder.WriteBackwardUpdates | src/Ryujinx.Graphics.Nvdec/Vp9Decoder.cs:81-88 | Takes one writable region at the counter offset whose length is the fixed size of the BackwardUpdates structure (`BACKWARD_UPDATES_SIZE`), whatever the counts. It then stores the whole image, of that same size by its type, into the region. |
| Vp9DecoderProperties.RentsOfDecode | src/Ryujinx.Graphics.Nvdec/Vp9Decoder.cs:23-31 | The rents in the whole decode trace are exactly the four slot rents, in slot order. No other phase rents. |
| Vp9DecoderProperties.PutsOfDecode | src/Ryujinx.Graphics.Nvdec/Vp9Decoder.cs:67-70 | The puts in the whole trace are exactly the four slot puts, in slot order, on both outcomes. |
| Vp9DecoderProperties.CallsOfDecode | src/Ryujinx.Graphics.Nvdec/Vp9Decoder.cs:60 | The trace holds exactly one decoder call. Its arguments are the completed picture info, the current surface, the bitstream span and both motion-vector buffers. |
| Vp9DecoderProperties.WritesOfDecode | src/Ryujinx.Graphics.Nvdec/Vp9Decoder.cs:60-63 | The surface writes in the trace are one write of the current surface at the slot-3 offsets when decoding succeeded, and none otherwise. |
| Vp9DecoderProperties.StoresOfDecode | src/Ryujinx.Graphics.Nvdec/Vp9Decoder.cs:65 | The trace holds exactly one counter store, of the decoder's counts at the counter offset, whatever the outcome. |
| Vp9DecoderProperties.RegionsOfDecode | src/Ryujinx.Graphics.Nvdec/Vp9Decoder.cs:53-65 | The trace takes exactly two writable regions: first the output motion-vector region, then the counter region of the fixed `BACKWARD_UPDATES_SIZE` length, on both outcomes. |
| Vp9DecoderProperties.SpansOfDecode | src/Ryujinx.Graphics.Nvdec/Vp9Decoder.cs:41-48 | The span fetches are the bitstream, then the input motion vectors if and only if the picture uses them. |
| Vp9DecoderProperties.RentsAndPutsBalanced | src/Ryujinx.Graphics.Nvdec/Vp9Decoder.cs:28-70 | Exactly four rents and four puts happen, both in the order last, golden, alt, current. Rent k uses register entry k and slot k's frame size, and put k returns the surface rented for slot k. This holds whatever the decoder's outcome. |
| Vp9DecoderProperties.StagesInOrder | src/Ryujinx.Graphics.Nvdec/Vp9Decoder.cs:20-70 | There is exactly one decoder call. Both structure reads precede every rent. Every rent and every span fetch precedes the decoder call. The decoder call precedes the surface write, the counter store and every put, so the counters are exported after decoding on both outcomes. The surface write precedes the counter store, the counter store precedes every put, and every rent precedes every put. |
| Vp9DecoderProperties.ReadsBeforeRents | src/Ryujinx.Graphics.Nvdec/Vp9Decoder.cs:20-31 | Both structure reads precede every rent. |
| Vp9DecoderProperties.RentsBeforeDecoding | src/Ryujinx.Graphics.Nvdec/Vp9Decoder.cs:28-60 | Every rent precedes every decoder call. |
| Vp9DecoderProperties.FetchesBeforeDecoding | src/Ryujinx.Graphics.Nvdec/Vp9Decoder.cs:41-60 | Every span fetch precedes every decoder call. |
| Vp9DecoderProperties.DecodingBeforeSurfaceWrite | src/Ryujinx.Graphics.Nvdec/Vp9Decoder.cs:60-62 | The decoder call precedes every surface write. |
| Vp9DecoderProperties.DecodingBeforeStore | src/Ryujinx.Graphics.Nvdec/Vp9Decoder.cs:60-65 | The decoder call precedes the counter store, whether or not decoding succeeded. |
| Vp9DecoderProperties.DecodingBeforePuts | src/Ryujinx.Graphics.Nvdec/Vp9Decoder.cs:60-70 | The decoder call precedes every put, whether or not decoding succeeded. |
| Vp9DecoderProperties.ExportsOrdered | src/Ryujinx.Graphics.Nvdec/Vp9Decoder.cs:60-65 | Within the exports, the surface write precedes the counter store. |
| Vp9DecoderProperties.SurfaceWriteBeforeStore | src/Ryujinx.Graphics.Nvdec/Vp9Decoder.cs:60-65 | Every surface write precedes every counter store. |
| Vp9DecoderProperties.StoreBeforePuts | src/Ryujinx.Graphics.Nvdec/Vp9Decoder.cs:65-70 | The counter store precedes every put. |
| Vp9DecoderProperties.RentsBeforePuts | src/Ryujinx.Graphics.Nvdec/Vp9Decoder.cs:28-70 | Every rent precedes every put. |
| Vp9DecoderProperties.SurfaceWrittenIffDecoded | src/Ryujinx.Graphics.Nvdec/Vp9Decoder.cs:57-63 | There is one surface write if the decoder succeeded and none otherwise. The write is of the rented current surface, at the slot-3 luma and chroma offsets, which are the key that surface was rented under. |
| Vp9DecoderProperties.CountsExportedOnEveryOutcome | src/Ryujinx.Graphics.Nvdec/Vp9Decoder.cs:65-88 | On both outcomes the counts are stored exactly once, at the counter offset. The only writable regions are the output motion-vector region and a counter region of exactly the structure's fixed size `BACKWARD_UPDATES_SIZE`. |
| Vp9DecoderProperties.ExportsStore | src/Ryujinx.Graphics.Nvdec/Vp9Decoder.cs:60-65 | The exports change the modelled memory exactly as one store of the counts' image at the counter address would. In this model the surface write touches no memory; see Left out. |
| Vp9DecoderProperties.CountsRegionOverwritten | src/Ryujinx.Graphics.Nvdec/Vp9Decoder.cs:83-87 | After the command, the whole counter region of `BACKWARD_UPDATES_SIZE` bytes reads back as exactly the decoder's counts, whatever it held before, so the export is a whole overwrite, not a merge. Every other byte of the modelled memory is unchanged. This holds on both outcomes. |
| Vp9DecoderProperties.DecoderGetsRentedReferences | src/Ryujinx.Graphics.Nvdec/Vp9Decoder.cs:33-60 | The decoder's last, golden and alt references are the first three rented surfaces. The current rented surface is only the target. The decoder also gets the read entropy tables, the picture's flag, and the bitstream span at the input-buffer offset of the `(int)`-cast size. |
| Vp9DecoderProperties.MvInputOnlyWhenFlagged | src/Ryujinx.Graphics.Nvdec/Vp9Decoder.cs:43-48 | The input is absent (`Empty`) if and only if the flag is clear. When the flag is set, it is the read-buffer span of `MvBufferBytes` length, which is zero for a zero-width or zero-height frame. The read buffer is fetched only when the flag is set, and the bitstream is the only other span fetched. |
| Vp9DecoderProperties.MvBuffersSizedByCurrentFrame | src/Ryujinx.Graphics.Nvdec/Vp9Decoder.cs:47-55 | The output region is always taken at the write-buffer offset, with length `ceil(h/8)*ceil(w/8)*16` of the current frame. When the input span is read, it has the same length, whatever the reference frames' sizes. |

## Left out

- The VP9 decoder itself (entropy decoding, prediction, loop filtering) is an opaque call. Its result and the counts it leaves behind are the input `DecoderOutcome`.
- Convert: of `PictureInfo.Convert`, only the `UsePrevInFindMvRefs` flag is modelled. Its other field mappings, and those of `EntropyProbs.Convert`, are not part of this model. The converted entropy state is represented by the tables that were read.
- The byte layout of `BackwardUpdates` built from the counts is not modelled. The counts are the byte image the decoder outcome supplies. Its type, `BackwardUpdatesImage`, fixes its length to `BACKWARD_UPDATES_SIZE`, the structure's size. That constant's value depends on the layout, so it is left open and the properties hold for every value.
- `SurfaceWriter.Write` plane layout is not modelled. A surface write is a logged event that changes no bytes of the modelled memory, although in the source it writes the surface's planes to mapped memory.
- `ExtendOffset` address translation is the parameter `extend` of `MappedMemory.ApplyStores`. Spans and regions are named by the raw register offset they were requested at. The modelled memory holds only the counter store's bytes. The output motion vectors the decoder writes into its region are not modelled.
- `DeviceRead`, `DeviceGetSpan` and `MemoryMarshal.Cast` are modelled as logged calls. The structures read are given by the resource manager's functions `pictureSetupAt` and `probTablesAt`.
- Surface cache pooling, reference counting and aliasing of rented surfaces are not modelled. A surface is identified by its rent key, and the cache's thread safety is out of scope.
- Exception paths are not modelled. The source has no try/finally around lines 28-70, so a rent or decoder that throws would leak the surfaces already rented. The model, like the code, has no release-on-failure path.
- Geometry is not validated. The source rejects no zero or malformed frame size before taking the regions, and neither does the model. Frame dimensions are `nat`.
- Writable-region disposal is not modelled. The motion-vector region's `using` scope ends after the puts, while the counter region is released inside `WriteBackwardUpdates`.
- Vp9Decoder.Decode: the `int` product `miRows * miCols * 16` is computed on unbounded integers. `Sizing.MvBufferFitsInt32` shows it cannot overflow for 16-bit dimensions. The field types of `FrameSize` are not part of this model.
- Vp9Decoder.Decode: requires the two picture offset register arrays to have at least four entries (`HasPictureSlots`). In the source these are fixed-size register arrays indexed 0..3.
- The slot label on rent and put events is an annotation of this model. The cache's `Get` takes no slot, and its `Put` takes only the surface.
- Two behaviours one might expect of this command are not in the code:
  - releasing already-rented surfaces when acquisition fails;
  - rejecting malformed geometry before allocating regions.

  The model follows the code.
