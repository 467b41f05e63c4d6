/** What one VP9 decode command guarantees about the calls it makes: rent and
    put balance, the order of the stages, the conditional pixel export, the
    unconditional counter export, and the inputs the decoder is handed. */
module Vp9DecoderProperties {
  import opened Sizing
  import opened Vp9Types
  import opened Effects
  import opened MappedMemory
  import opened Vp9Decoder

  // ---------------------------------------------------------------------
  // Each phase of the decode trace filtered by each kind of event.
  // ---------------------------------------------------------------------

  lemma IngestKinds(state: NvdecRegisters)
    ensures forall k :: Filter(Ingest(state), k) == if k == ReadKind then Ingest(state) else []
  {
    var t := Ingest(state);
    FilterAll(t, ReadKind);
    forall k | k != ReadKind
      ensures Filter(t, k) == []
    {
      FilterNone(t, k);
    }
  }

  lemma RentsKinds(state: NvdecRegisters, picture: PictureInfo)
    requires state.HasPictureSlots()
    ensures forall k :: Filter(Rents(state, picture), k) == if k == RentKind then Rents(state, picture) else []
  {
    var t := Rents(state, picture);
    FilterAll(t, RentKind);
    forall k | k != RentKind
      ensures Filter(t, k) == []
    {
      FilterNone(t, k);
    }
  }

  lemma PutsKinds(state: NvdecRegisters, picture: PictureInfo)
    requires state.HasPictureSlots()
    ensures forall k :: Filter(Puts(state, picture), k) == if k == PutKind then Puts(state, picture) else []
  {
    var t := Puts(state, picture);
    FilterAll(t, PutKind);
    forall k | k != PutKind
      ensures Filter(t, k) == []
    {
      FilterNone(t, k);
    }
  }

  lemma InvocationKinds(state: NvdecRegisters, picture: PictureInfo, entropy: EntropyProbs)
    requires state.HasPictureSlots()
    ensures forall k :: Filter(Invocation(state, picture, entropy), k)
                     == if k == CallKind then Invocation(state, picture, entropy) else []
  {
    var t := Invocation(state, picture, entropy);
    FilterAll(t, CallKind);
    forall k | k != CallKind
      ensures Filter(t, k) == []
    {
      FilterNone(t, k);
    }
  }

  lemma FetchesKinds(state: NvdecRegisters, picture: PictureInfo)
    ensures Filter(Fetches(state, picture), SpanKind)
         == [GetSpan(BitstreamSpan(state, picture))]
            + (if picture.usePrevInFindMvRefs then [GetSpan(MvsInputSpan(state, picture))] else [])
    ensures Filter(Fetches(state, picture), RegionKind) == [WritableRegion(MvsOutputRegion(state, picture))]
    ensures forall k :: k != SpanKind && k != RegionKind ==> Filter(Fetches(state, picture), k) == []
  {
    var bitstream := [GetSpan(BitstreamSpan(state, picture))];
    var mvsIn := if picture.usePrevInFindMvRefs then [GetSpan(MvsInputSpan(state, picture))] else [];
    var region := [WritableRegion(MvsOutputRegion(state, picture))];
    FilterThreeParts(bitstream, mvsIn, region, SpanKind, SpanKind, RegionKind);
    assert Filter(Fetches(state, picture), SpanKind) == bitstream + mvsIn + [];
    assert Filter(Fetches(state, picture), RegionKind) == [] + [] + region;
  }

  lemma ExportsKinds(state: NvdecRegisters, picture: PictureInfo, outcome: DecoderOutcome)
    requires state.HasPictureSlots()
    ensures Filter(Exports(state, picture, outcome), WriteKind)
         == if outcome.success
            then [WriteSurface(SlotSurface(state, picture, Current),
                               state.setPictureLumaOffset[3], state.setPictureChromaOffset[3])]
            else []
    ensures Filter(Exports(state, picture, outcome), RegionKind)
         == [WritableRegion(Span(state.vp9SetCtxCounterBufOffset, BACKWARD_UPDATES_SIZE))]
    ensures Filter(Exports(state, picture, outcome), StoreKind)
         == [StoreBackwardUpdates(state.vp9SetCtxCounterBufOffset, outcome.backwardUpdates)]
    ensures forall k :: k != WriteKind && k != RegionKind && k != StoreKind ==> Filter(Exports(state, picture, outcome), k) == []
  {
    var write := if outcome.success
      then [WriteSurface(SlotSurface(state, picture, Current),
                         state.setPictureLumaOffset[3], state.setPictureChromaOffset[3])]
      else [];
    var region := [WritableRegion(Span(state.vp9SetCtxCounterBufOffset, BACKWARD_UPDATES_SIZE))];
    var store := [StoreBackwardUpdates(state.vp9SetCtxCounterBufOffset, outcome.backwardUpdates)];
    assert Exports(state, picture, outcome) == write + region + store;
    FilterThreeParts(write, region, store, WriteKind, RegionKind, StoreKind);
    assert Filter(Exports(state, picture, outcome), WriteKind) == write + [] + [];
    assert Filter(Exports(state, picture, outcome), RegionKind) == [] + region + [];
    assert Filter(Exports(state, picture, outcome), StoreKind) == [] + [] + store;
  }

  /** The decode trace filtered by any kind is the concatenation of its
      phases filtered by it. */
  lemma FilterDecodeEffects(state: NvdecRegisters, picture: PictureInfo, entropy: EntropyProbs,
                            outcome: DecoderOutcome, k: Kind)
    requires state.HasPictureSlots()
    ensures Filter(DecodeEffects(state, picture, entropy, outcome), k)
         == Filter(Ingest(state), k) + Filter(Rents(state, picture), k) + Filter(Fetches(state, picture), k)
            + Filter(Invocation(state, picture, entropy), k) + Filter(Exports(state, picture, outcome), k)
            + Filter(Puts(state, picture), k)
  {
    var ingest, rents, fetches := Ingest(state), Rents(state, picture), Fetches(state, picture);
    var invocation, exports, puts := Invocation(state, picture, entropy), Exports(state, picture, outcome), Puts(state, picture);
    FilterConcat(ingest, rents, k);
    FilterConcat(ingest + rents, fetches, k);
    FilterConcat(ingest + rents + fetches, invocation, k);
    FilterConcat(ingest + rents + fetches + invocation, exports, k);
    FilterConcat(ingest + rents + fetches + invocation + exports, puts, k);
  }

  /** Six phases of which all but one, or all but the third and fifth, are
      empty concatenate to what is left. */
  lemma DropEmptyPhases(whole: seq<Event>, a: seq<Event>, b: seq<Event>, c: seq<Event>, d: seq<Event>,
                        e: seq<Event>, f: seq<Event>)
    requires whole == a + b + c + d + e + f
    ensures a == [] && c == [] && d == [] && e == [] && f == [] ==> whole == b
    ensures a == [] && b == [] && d == [] && e == [] && f == [] ==> whole == c
    ensures a == [] && b == [] && c == [] && e == [] && f == [] ==> whole == d
    ensures a == [] && b == [] && c == [] && d == [] && f == [] ==> whole == e
    ensures a == [] && b == [] && c == [] && d == [] && e == [] ==> whole == f
    ensures a == [] && b == [] && d == [] && f == [] ==> whole == c + e
  {
  }

  /** The rents of a decode command are exactly the rent phase. */
  lemma RentsOfDecode(state: NvdecRegisters, picture: PictureInfo, entropy: EntropyProbs, outcome: DecoderOutcome)
    requires state.HasPictureSlots()
    ensures Filter(DecodeEffects(state, picture, entropy, outcome), RentKind)
         == Rents(state, picture)
  {
    FilterDecodeEffects(state, picture, entropy, outcome, RentKind);
    IngestKinds(state);
    RentsKinds(state, picture);
    FetchesKinds(state, picture);
    InvocationKinds(state, picture, entropy);
    ExportsKinds(state, picture, outcome);
    PutsKinds(state, picture);
    DropEmptyPhases(Filter(DecodeEffects(state, picture, entropy, outcome), RentKind),
                Filter(Ingest(state), RentKind), Filter(Rents(state, picture), RentKind),
                Filter(Fetches(state, picture), RentKind), Filter(Invocation(state, picture, entropy), RentKind),
                Filter(Exports(state, picture, outcome), RentKind), Filter(Puts(state, picture), RentKind));
  }

  /** The puts of a decode command are exactly the put phase. */
  lemma PutsOfDecode(state: NvdecRegisters, picture: PictureInfo, entropy: EntropyProbs, outcome: DecoderOutcome)
    requires state.HasPictureSlots()
    ensures Filter(DecodeEffects(state, picture, entropy, outcome), PutKind)
         == Puts(state, picture)
  {
    FilterDecodeEffects(state, picture, entropy, outcome, PutKind);
    IngestKinds(state);
    RentsKinds(state, picture);
    FetchesKinds(state, picture);
    InvocationKinds(state, picture, entropy);
    ExportsKinds(state, picture, outcome);
    PutsKinds(state, picture);
    DropEmptyPhases(Filter(DecodeEffects(state, picture, entropy, outcome), PutKind),
                Filter(Ingest(state), PutKind), Filter(Rents(state, picture), PutKind),
                Filter(Fetches(state, picture), PutKind), Filter(Invocation(state, picture, entropy), PutKind),
                Filter(Exports(state, picture, outcome), PutKind), Filter(Puts(state, picture), PutKind));
  }

  /** A decode command calls the decoder exactly once. */
  lemma CallsOfDecode(state: NvdecRegisters, picture: PictureInfo, entropy: EntropyProbs, outcome: DecoderOutcome)
    requires state.HasPictureSlots()
    ensures Filter(DecodeEffects(state, picture, entropy, outcome), CallKind)
         == Invocation(state, picture, entropy)
  {
    FilterDecodeEffects(state, picture, entropy, outcome, CallKind);
    IngestKinds(state);
    RentsKinds(state, picture);
    FetchesKinds(state, picture);
    InvocationKinds(state, picture, entropy);
    ExportsKinds(state, picture, outcome);
    PutsKinds(state, picture);
    DropEmptyPhases(Filter(DecodeEffects(state, picture, entropy, outcome), CallKind),
                Filter(Ingest(state), CallKind), Filter(Rents(state, picture), CallKind),
                Filter(Fetches(state, picture), CallKind), Filter(Invocation(state, picture, entropy), CallKind),
                Filter(Exports(state, picture, outcome), CallKind), Filter(Puts(state, picture), CallKind));
  }

  /** The surface write of a decode command happens on success only. */
  lemma WritesOfDecode(state: NvdecRegisters, picture: PictureInfo, entropy: EntropyProbs, outcome: DecoderOutcome)
    requires state.HasPictureSlots()
    ensures Filter(DecodeEffects(state, picture, entropy, outcome), WriteKind)
         == if outcome.success
            then [WriteSurface(SlotSurface(state, picture, Current),
                               state.setPictureLumaOffset[3], state.setPictureChromaOffset[3])]
            else []
  {
    FilterDecodeEffects(state, picture, entropy, outcome, WriteKind);
    IngestKinds(state);
    RentsKinds(state, picture);
    FetchesKinds(state, picture);
    InvocationKinds(state, picture, entropy);
    ExportsKinds(state, picture, outcome);
    PutsKinds(state, picture);
    DropEmptyPhases(Filter(DecodeEffects(state, picture, entropy, outcome), WriteKind),
                Filter(Ingest(state), WriteKind), Filter(Rents(state, picture), WriteKind),
                Filter(Fetches(state, picture), WriteKind), Filter(Invocation(state, picture, entropy), WriteKind),
                Filter(Exports(state, picture, outcome), WriteKind), Filter(Puts(state, picture), WriteKind));
  }

  /** A decode command stores the counts exactly once. */
  lemma StoresOfDecode(state: NvdecRegisters, picture: PictureInfo, entropy: EntropyProbs, outcome: DecoderOutcome)
    requires state.HasPictureSlots()
    ensures Filter(DecodeEffects(state, picture, entropy, outcome), StoreKind)
         == [StoreBackwardUpdates(state.vp9SetCtxCounterBufOffset, outcome.backwardUpdates)]
  {
    FilterDecodeEffects(state, picture, entropy, outcome, StoreKind);
    IngestKinds(state);
    RentsKinds(state, picture);
    FetchesKinds(state, picture);
    InvocationKinds(state, picture, entropy);
    ExportsKinds(state, picture, outcome);
    PutsKinds(state, picture);
    DropEmptyPhases(Filter(DecodeEffects(state, picture, entropy, outcome), StoreKind),
                Filter(Ingest(state), StoreKind), Filter(Rents(state, picture), StoreKind),
                Filter(Fetches(state, picture), StoreKind), Filter(Invocation(state, picture, entropy), StoreKind),
                Filter(Exports(state, picture, outcome), StoreKind), Filter(Puts(state, picture), StoreKind));
  }

  /** A decode command takes two writable regions: the output motion
      vectors, then the counts. */
  lemma RegionsOfDecode(state: NvdecRegisters, picture: PictureInfo, entropy: EntropyProbs, outcome: DecoderOutcome)
    requires state.HasPictureSlots()
    ensures Filter(DecodeEffects(state, picture, entropy, outcome), RegionKind)
         == [WritableRegion(MvsOutputRegion(state, picture))]
            + [WritableRegion(Span(state.vp9SetCtxCounterBufOffset, BACKWARD_UPDATES_SIZE))]
  {
    FilterDecodeEffects(state, picture, entropy, outcome, RegionKind);
    IngestKinds(state);
    RentsKinds(state, picture);
    FetchesKinds(state, picture);
    InvocationKinds(state, picture, entropy);
    ExportsKinds(state, picture, outcome);
    PutsKinds(state, picture);
    DropEmptyPhases(Filter(DecodeEffects(state, picture, entropy, outcome), RegionKind),
                Filter(Ingest(state), RegionKind), Filter(Rents(state, picture), RegionKind),
                Filter(Fetches(state, picture), RegionKind), Filter(Invocation(state, picture, entropy), RegionKind),
                Filter(Exports(state, picture, outcome), RegionKind), Filter(Puts(state, picture), RegionKind));
  }

  /** A decode command reads the bitstream span, then the input motion
      vectors when the picture uses them. */
  lemma SpansOfDecode(state: NvdecRegisters, picture: PictureInfo, entropy: EntropyProbs, outcome: DecoderOutcome)
    requires state.HasPictureSlots()
    ensures Filter(DecodeEffects(state, picture, entropy, outcome), SpanKind)
         == [GetSpan(BitstreamSpan(state, picture))]
            + (if picture.usePrevInFindMvRefs then [GetSpan(MvsInputSpan(state, picture))] else [])
  {
    FilterDecodeEffects(state, picture, entropy, outcome, SpanKind);
    IngestKinds(state);
    RentsKinds(state, picture);
    FetchesKinds(state, picture);
    InvocationKinds(state, picture, entropy);
    ExportsKinds(state, picture, outcome);
    PutsKinds(state, picture);
    DropEmptyPhases(Filter(DecodeEffects(state, picture, entropy, outcome), SpanKind),
                Filter(Ingest(state), SpanKind), Filter(Rents(state, picture), SpanKind),
                Filter(Fetches(state, picture), SpanKind), Filter(Invocation(state, picture, entropy), SpanKind),
                Filter(Exports(state, picture, outcome), SpanKind), Filter(Puts(state, picture), SpanKind));
  }

  /** Exactly four surfaces are rented and exactly four put back, both in the
      order last, golden, alt, current; slot k is rented under the luma and
      chroma offsets of register entry k and the frame size of that slot, and
      each put returns the surface rented for the same slot. */
  lemma RentsAndPutsBalanced(state: NvdecRegisters, picture: PictureInfo, entropy: EntropyProbs,
                             outcome: DecoderOutcome)
    requires state.HasPictureSlots()
    ensures var e := DecodeEffects(state, picture, entropy, outcome);
            var rents := Filter(e, RentKind);
            var puts := Filter(e, PutKind);
            |rents| == 4 && |puts| == 4 &&
            forall k :: 0 <= k < 4 ==>
              rents[k] == Rent(SLOTS[k], Surface(state.setPictureLumaOffset[k], state.setPictureChromaOffset[k],
                                                 picture.SizeOf(SLOTS[k]).width, picture.SizeOf(SLOTS[k]).height))
              && puts[k] == Put(SLOTS[k], rents[k].surface)
  {
    RentsOfDecode(state, picture, entropy, outcome);
    PutsOfDecode(state, picture, entropy, outcome);
  }

  /** The stages run in their fixed order on both outcomes: both structure
      reads before every rent, every rent and every span fetch before the one
      decoder call, the decoder call before the surface write, the counter
      store and every put, the surface write before the counter store, the
      counter store before every put, and every rent before every put. */
  lemma StagesInOrder(state: NvdecRegisters, picture: PictureInfo, entropy: EntropyProbs,
                      outcome: DecoderOutcome)
    requires state.HasPictureSlots()
    ensures var e := DecodeEffects(state, picture, entropy, outcome);
            |Filter(e, CallKind)| == 1
            && AllBefore(e, ReadKind, RentKind)
            && AllBefore(e, RentKind, CallKind)
            && AllBefore(e, SpanKind, CallKind)
            && AllBefore(e, CallKind, WriteKind)
            && AllBefore(e, CallKind, StoreKind)
            && AllBefore(e, CallKind, PutKind)
            && AllBefore(e, WriteKind, StoreKind)
            && AllBefore(e, StoreKind, PutKind)
            && AllBefore(e, RentKind, PutKind)
  {
    CallsOfDecode(state, picture, entropy, outcome);
    ReadsBeforeRents(state, picture, entropy, outcome);
    RentsBeforeDecoding(state, picture, entropy, outcome);
    FetchesBeforeDecoding(state, picture, entropy, outcome);
    DecodingBeforeSurfaceWrite(state, picture, entropy, outcome);
    DecodingBeforeStore(state, picture, entropy, outcome);
    DecodingBeforePuts(state, picture, entropy, outcome);
    SurfaceWriteBeforeStore(state, picture, entropy, outcome);
    StoreBeforePuts(state, picture, entropy, outcome);
    RentsBeforePuts(state, picture, entropy, outcome);
  }

  /** Which phases hold no event of kind `k`. */
  lemma AbsentKinds(state: NvdecRegisters, picture: PictureInfo, entropy: EntropyProbs, outcome: DecoderOutcome,
                    k: Kind)
    requires state.HasPictureSlots()
    ensures k != ReadKind ==> Filter(Ingest(state), k) == []
    ensures k != RentKind ==> Filter(Rents(state, picture), k) == []
    ensures k != SpanKind && k != RegionKind ==> Filter(Fetches(state, picture), k) == []
    ensures k != CallKind ==> Filter(Invocation(state, picture, entropy), k) == []
    ensures k != WriteKind && k != RegionKind && k != StoreKind ==> Filter(Exports(state, picture, outcome), k) == []
    ensures k != PutKind ==> Filter(Puts(state, picture), k) == []
  {
    AbsentEarly(state, picture, k);
    AbsentLate(state, picture, entropy, outcome, k);
  }

  lemma AbsentEarly(state: NvdecRegisters, picture: PictureInfo, k: Kind)
    requires state.HasPictureSlots()
    ensures k != ReadKind ==> Filter(Ingest(state), k) == []
    ensures k != RentKind ==> Filter(Rents(state, picture), k) == []
    ensures k != SpanKind && k != RegionKind ==> Filter(Fetches(state, picture), k) == []
  {
    if k != ReadKind { IngestKinds(state); }
    if k != RentKind { RentsKinds(state, picture); }
    if k != SpanKind && k != RegionKind { FetchesKinds(state, picture); }
  }

  lemma AbsentLate(state: NvdecRegisters, picture: PictureInfo, entropy: EntropyProbs, outcome: DecoderOutcome, k: Kind)
    requires state.HasPictureSlots()
    ensures k != CallKind ==> Filter(Invocation(state, picture, entropy), k) == []
    ensures k != WriteKind && k != RegionKind && k != StoreKind ==> Filter(Exports(state, picture, outcome), k) == []
    ensures k != PutKind ==> Filter(Puts(state, picture), k) == []
  {
    if k != CallKind { InvocationKinds(state, picture, entropy); }
    if k != WriteKind && k != RegionKind && k != StoreKind { ExportsKinds(state, picture, outcome); }
    if k != PutKind { PutsKinds(state, picture); }
  }

  /** Both structure reads precede every rent. */
  lemma ReadsBeforeRents(state: NvdecRegisters, picture: PictureInfo, entropy: EntropyProbs, outcome: DecoderOutcome)
    requires state.HasPictureSlots()
    ensures AllBefore(DecodeEffects(state, picture, entropy, outcome), ReadKind, RentKind)
  {
    AbsentKinds(state, picture, entropy, outcome, ReadKind);
    AbsentKinds(state, picture, entropy, outcome, RentKind);
    AllBeforeVacuous(Ingest(state), ReadKind, RentKind);
    AllBeforePhases(Ingest(state), Rents(state, picture), Fetches(state, picture), Invocation(state, picture, entropy),
                    Exports(state, picture, outcome), Puts(state, picture), ReadKind, RentKind, 0);
  }

  lemma RentsBeforeDecoding(state: NvdecRegisters, picture: PictureInfo, entropy: EntropyProbs, outcome: DecoderOutcome)
    requires state.HasPictureSlots()
    ensures AllBefore(DecodeEffects(state, picture, entropy, outcome), RentKind, CallKind)
  {
    AbsentKinds(state, picture, entropy, outcome, RentKind);
    AbsentKinds(state, picture, entropy, outcome, CallKind);
    AllBeforeVacuous(Invocation(state, picture, entropy), RentKind, CallKind);
    AllBeforePhases(Ingest(state), Rents(state, picture), Fetches(state, picture), Invocation(state, picture, entropy),
                    Exports(state, picture, outcome), Puts(state, picture), RentKind, CallKind, 3);
  }

  lemma FetchesBeforeDecoding(state: NvdecRegisters, picture: PictureInfo, entropy: EntropyProbs, outcome: DecoderOutcome)
    requires state.HasPictureSlots()
    ensures AllBefore(DecodeEffects(state, picture, entropy, outcome), SpanKind, CallKind)
  {
    AbsentKinds(state, picture, entropy, outcome, SpanKind);
    AbsentKinds(state, picture, entropy, outcome, CallKind);
    AllBeforeVacuous(Invocation(state, picture, entropy), SpanKind, CallKind);
    AllBeforePhases(Ingest(state), Rents(state, picture), Fetches(state, picture), Invocation(state, picture, entropy),
                    Exports(state, picture, outcome), Puts(state, picture), SpanKind, CallKind, 3);
  }

  lemma DecodingBeforeSurfaceWrite(state: NvdecRegisters, picture: PictureInfo, entropy: EntropyProbs,
                                   outcome: DecoderOutcome)
    requires state.HasPictureSlots()
    ensures AllBefore(DecodeEffects(state, picture, entropy, outcome), CallKind, WriteKind)
  {
    AbsentKinds(state, picture, entropy, outcome, CallKind);
    AbsentKinds(state, picture, entropy, outcome, WriteKind);
    AllBeforeVacuous(Invocation(state, picture, entropy), CallKind, WriteKind);
    AllBeforePhases(Ingest(state), Rents(state, picture), Fetches(state, picture), Invocation(state, picture, entropy),
                    Exports(state, picture, outcome), Puts(state, picture), CallKind, WriteKind, 3);
  }

  /** The decoder call precedes the counter store, whether or not a surface
      write sits between them. */
  lemma DecodingBeforeStore(state: NvdecRegisters, picture: PictureInfo, entropy: EntropyProbs, outcome: DecoderOutcome)
    requires state.HasPictureSlots()
    ensures AllBefore(DecodeEffects(state, picture, entropy, outcome), CallKind, StoreKind)
  {
    AbsentKinds(state, picture, entropy, outcome, CallKind);
    AbsentKinds(state, picture, entropy, outcome, StoreKind);
    AllBeforeVacuous(Invocation(state, picture, entropy), CallKind, StoreKind);
    AllBeforePhases(Ingest(state), Rents(state, picture), Fetches(state, picture), Invocation(state, picture, entropy),
                    Exports(state, picture, outcome), Puts(state, picture), CallKind, StoreKind, 3);
  }

  /** The decoder call precedes every put, on both outcomes. */
  lemma DecodingBeforePuts(state: NvdecRegisters, picture: PictureInfo, entropy: EntropyProbs, outcome: DecoderOutcome)
    requires state.HasPictureSlots()
    ensures AllBefore(DecodeEffects(state, picture, entropy, outcome), CallKind, PutKind)
  {
    AbsentKinds(state, picture, entropy, outcome, CallKind);
    AbsentKinds(state, picture, entropy, outcome, PutKind);
    AllBeforeVacuous(Invocation(state, picture, entropy), CallKind, PutKind);
    AllBeforePhases(Ingest(state), Rents(state, picture), Fetches(state, picture), Invocation(state, picture, entropy),
                    Exports(state, picture, outcome), Puts(state, picture), CallKind, PutKind, 3);
  }

  /** Within the exports, the surface write precedes the counter store. */
  lemma ExportsOrdered(state: NvdecRegisters, picture: PictureInfo, outcome: DecoderOutcome)
    requires state.HasPictureSlots()
    ensures AllBefore(Exports(state, picture, outcome), WriteKind, StoreKind)
  {
    var write := if outcome.success
      then [WriteSurface(SlotSurface(state, picture, Current),
                         state.setPictureLumaOffset[3], state.setPictureChromaOffset[3])]
      else [];
    var counts := [WritableRegion(Span(state.vp9SetCtxCounterBufOffset, BACKWARD_UPDATES_SIZE)),
                   StoreBackwardUpdates(state.vp9SetCtxCounterBufOffset, outcome.backwardUpdates)];
    assert Exports(state, picture, outcome) == write + counts;
    FilterNone(counts, WriteKind);
    FilterNone(write, StoreKind);
    AllBeforeVacuous(write, WriteKind, StoreKind);
    AllBeforeExtend(write, counts, WriteKind, StoreKind);
  }

  lemma SurfaceWriteBeforeStore(state: NvdecRegisters, picture: PictureInfo, entropy: EntropyProbs,
                                outcome: DecoderOutcome)
    requires state.HasPictureSlots()
    ensures AllBefore(DecodeEffects(state, picture, entropy, outcome), WriteKind, StoreKind)
  {
    AbsentKinds(state, picture, entropy, outcome, WriteKind);
    AbsentKinds(state, picture, entropy, outcome, StoreKind);
    ExportsOrdered(state, picture, outcome);
    AllBeforePhases(Ingest(state), Rents(state, picture), Fetches(state, picture), Invocation(state, picture, entropy),
                    Exports(state, picture, outcome), Puts(state, picture), WriteKind, StoreKind, 4);
  }

  /** The counter store precedes every put. */
  lemma StoreBeforePuts(state: NvdecRegisters, picture: PictureInfo, entropy: EntropyProbs, outcome: DecoderOutcome)
    requires state.HasPictureSlots()
    ensures AllBefore(DecodeEffects(state, picture, entropy, outcome), StoreKind, PutKind)
  {
    AbsentKinds(state, picture, entropy, outcome, StoreKind);
    AbsentKinds(state, picture, entropy, outcome, PutKind);
    AllBeforeVacuous(Puts(state, picture), StoreKind, PutKind);
    AllBeforePhases(Ingest(state), Rents(state, picture), Fetches(state, picture), Invocation(state, picture, entropy),
                    Exports(state, picture, outcome), Puts(state, picture), StoreKind, PutKind, 5);
  }

  /** Every rent precedes every put. */
  lemma RentsBeforePuts(state: NvdecRegisters, picture: PictureInfo, entropy: EntropyProbs, outcome: DecoderOutcome)
    requires state.HasPictureSlots()
    ensures AllBefore(DecodeEffects(state, picture, entropy, outcome), RentKind, PutKind)
  {
    AbsentKinds(state, picture, entropy, outcome, RentKind);
    AbsentKinds(state, picture, entropy, outcome, PutKind);
    AllBeforeVacuous(Puts(state, picture), RentKind, PutKind);
    AllBeforePhases(Ingest(state), Rents(state, picture), Fetches(state, picture), Invocation(state, picture, entropy),
                    Exports(state, picture, outcome), Puts(state, picture), RentKind, PutKind, 5);
  }

  /** The decoded surface is written back if and only if the decoder
      succeeded, and then exactly once, under the slot-3 luma and chroma
      offsets, which are the key the current surface was rented under. */
  lemma SurfaceWrittenIffDecoded(state: NvdecRegisters, picture: PictureInfo, entropy: EntropyProbs,
                                 outcome: DecoderOutcome)
    requires state.HasPictureSlots()
    ensures var e := DecodeEffects(state, picture, entropy, outcome);
            var writes := Filter(e, WriteKind);
            var rents := Filter(e, RentKind);
            |writes| == (if outcome.success then 1 else 0)
            && |rents| == 4 && rents[3].Rent? && rents[3].slot == Current
            && forall w :: w in writes ==>
                 w.WriteSurface?
                 && w.surface == rents[3].surface
                 && w.lumaOffset == state.setPictureLumaOffset[3] == rents[3].surface.lumaOffset
                 && w.chromaOffset == state.setPictureChromaOffset[3] == rents[3].surface.chromaOffset
  {
    RentsOfDecode(state, picture, entropy, outcome);
    WritesOfDecode(state, picture, entropy, outcome);
  }

  /** On both outcomes the backward-update counts are exported exactly once:
      a writable region of exactly the structure's size is taken at the
      counter offset and the counts' image is stored into it. */
  lemma CountsExportedOnEveryOutcome(state: NvdecRegisters, picture: PictureInfo, entropy: EntropyProbs,
                                     outcome: DecoderOutcome)
    requires state.HasPictureSlots()
    ensures var e := DecodeEffects(state, picture, entropy, outcome);
            Filter(e, StoreKind) == [StoreBackwardUpdates(state.vp9SetCtxCounterBufOffset, outcome.backwardUpdates)]
            && Filter(e, RegionKind)
               == [WritableRegion(Span(state.vp9SetColMvWriteBufOffset, MvBufferBytes(picture.currentFrameSize))),
                   WritableRegion(Span(state.vp9SetCtxCounterBufOffset, BACKWARD_UPDATES_SIZE))]
  {
    StoresOfDecode(state, picture, entropy, outcome);
    RegionsOfDecode(state, picture, entropy, outcome);
  }

  /** After the command, the whole counter region, of the structure's fixed
      size, holds exactly the decoder's counts whatever it held before (a
      whole overwrite, not a merge), and every other byte of the modelled
      memory is as it was, on both outcomes. */
  lemma CountsRegionOverwritten(mem: Memory, extend: U32 -> nat, state: NvdecRegisters, picture: PictureInfo,
                                entropy: EntropyProbs, outcome: DecoderOutcome)
    requires state.HasPictureSlots()
    ensures var after := ApplyStores(mem, extend, DecodeEffects(state, picture, entropy, outcome));
            var base := extend(state.vp9SetCtxCounterBufOffset);
            var image: seq<Byte> := outcome.backwardUpdates;
            Load(after, base, BACKWARD_UPDATES_SIZE) == Some(image)
            && forall a :: a in mem && !(base <= a < base + BACKWARD_UPDATES_SIZE) ==> a in after && after[a] == mem[a]
  {
    var offset := state.vp9SetCtxCounterBufOffset;
    var image: seq<Byte> := outcome.backwardUpdates;
    AbsentKinds(state, picture, entropy, outcome, StoreKind);
    ApplyStoresOfPhases(mem, extend, Ingest(state), Rents(state, picture), Fetches(state, picture),
                        Invocation(state, picture, entropy), Exports(state, picture, outcome), Puts(state, picture));
    ExportsStore(mem, extend, state, picture, outcome);
    LoadAfterStore(mem, extend(offset), image);
  }

  /** The exports change memory exactly by storing the counts at the counter
      region. */
  lemma ExportsStore(mem: Memory, extend: U32 -> nat, state: NvdecRegisters, picture: PictureInfo,
                     outcome: DecoderOutcome)
    requires state.HasPictureSlots()
    ensures ApplyStores(mem, extend, Exports(state, picture, outcome))
         == Store(mem, extend(state.vp9SetCtxCounterBufOffset), outcome.backwardUpdates)
  {
    var write := if outcome.success
      then [WriteSurface(SlotSurface(state, picture, Current),
                         state.setPictureLumaOffset[3], state.setPictureChromaOffset[3])]
      else [];
    var counts := [WritableRegion(Span(state.vp9SetCtxCounterBufOffset, BACKWARD_UPDATES_SIZE)),
                   StoreBackwardUpdates(state.vp9SetCtxCounterBufOffset, outcome.backwardUpdates)];
    assert Exports(state, picture, outcome) == write + counts;
    ApplyStoresConcat(mem, extend, write, counts);
    FilterNone(write, StoreKind);
    ApplyStoresWithoutStores(mem, extend, write);
    var stored := Store(mem, extend(state.vp9SetCtxCounterBufOffset), outcome.backwardUpdates);
    assert counts[1..][1..] == [];
    assert ApplyStores(mem, extend, counts[1..]) == ApplyStores(stored, extend, counts[1..][1..]);
    assert ApplyStores(mem, extend, counts) == ApplyStores(mem, extend, counts[1..]);
  }

  /** The decoder gets the three rented references as last, golden and alt,
      the rented current surface only as its target, the converted entropy
      tables, and the bitstream span of the picture's stated size. */
  lemma DecoderGetsRentedReferences(state: NvdecRegisters, picture: PictureInfo, entropy: EntropyProbs,
                                    outcome: DecoderOutcome)
    requires state.HasPictureSlots()
    ensures var e := DecodeEffects(state, picture, entropy, outcome);
            var calls := Filter(e, CallKind);
            var rents := Filter(e, RentKind);
            |calls| == 1 && calls[0].DecodeCall?
            && |rents| == 4 && rents[0].Rent? && rents[1].Rent? && rents[2].Rent? && rents[3].Rent?
            && calls[0].info.lastReference == Some(rents[0].surface)
            && calls[0].info.goldenReference == Some(rents[1].surface)
            && calls[0].info.altReference == Some(rents[2].surface)
            && calls[0].target == rents[3].surface
            && calls[0].info.entropy == Some(entropy)
            && calls[0].info.usePrevInFindMvRefs == picture.usePrevInFindMvRefs
            && calls[0].bitstream == Span(state.setInBufBaseOffset, ToInt32(picture.bitstreamSize))
  {
    RentsOfDecode(state, picture, entropy, outcome);
    CallsOfDecode(state, picture, entropy, outcome);
  }

  /** The input motion vectors are the empty span exactly when the picture
      does not use the previous frame's vectors; only then is no read of
      the motion-vector read buffer issued, the bitstream being the only
      span read. */
  lemma MvInputOnlyWhenFlagged(state: NvdecRegisters, picture: PictureInfo, entropy: EntropyProbs,
                               outcome: DecoderOutcome)
    requires state.HasPictureSlots()
    ensures var e := DecodeEffects(state, picture, entropy, outcome);
            var calls := Filter(e, CallKind);
            var input := Span(state.vp9SetColMvReadBufOffset, MvBufferBytes(picture.currentFrameSize));
            |calls| == 1 && calls[0].DecodeCall?
            && (calls[0].mvsIn == Empty <==> !picture.usePrevInFindMvRefs)
            && (picture.usePrevInFindMvRefs ==> calls[0].mvsIn == FromMemory(input))
            && Filter(e, SpanKind)
               == [GetSpan(calls[0].bitstream)] + (if picture.usePrevInFindMvRefs then [GetSpan(input)] else [])
  {
    CallsOfDecode(state, picture, entropy, outcome);
    SpansOfDecode(state, picture, entropy, outcome);
  }

  /** Both motion-vector buffers are sized from the current frame: the
      output region, always taken at the write-buffer offset, and the input
      span, when read, are both one 16-byte record per 8x8 cell of the
      current frame, whatever the reference frames' sizes. */
  lemma MvBuffersSizedByCurrentFrame(state: NvdecRegisters, picture: PictureInfo, entropy: EntropyProbs,
                                     outcome: DecoderOutcome)
    requires state.HasPictureSlots()
    ensures var e := DecodeEffects(state, picture, entropy, outcome);
            var calls := Filter(e, CallKind);
            var size := picture.currentFrameSize;
            |calls| == 1 && calls[0].DecodeCall?
            && calls[0].mvsOut.offset == state.vp9SetColMvWriteBufOffset
            && calls[0].mvsOut.length
               == DivRoundUp(size.height, MI_SIZE) * DivRoundUp(size.width, MI_SIZE) * MV_RECORD_SIZE
            && WritableRegion(calls[0].mvsOut) in e
            && (calls[0].mvsIn.FromMemory? ==> calls[0].mvsIn.span.length == calls[0].mvsOut.length)
  {
    CallsOfDecode(state, picture, entropy, outcome);
    assert WritableRegion(MvsOutputRegion(state, picture)) in Fetches(state, picture);
  }
}
