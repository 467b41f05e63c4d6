/** The observable effects of a decode command, as a trace of events, and the
    vocabulary used to state properties of such traces. */
module Effects {
  import opened Vp9Types

  /** Which fixed-layout structure a device read fetched. */
  datatype Structure = PictureSetup | ProbabilityTables

  /** One call this core makes on its collaborators. Writable regions are
      named by the register offset that is widened (ExtendOffset) into the
      address; device reads and spans by the offset they are given. */
  datatype Event =
    | DeviceRead(structure: Structure, offset: U32)
    | Rent(slot: Slot, surface: Surface)
    | GetSpan(span: Span)
    | WritableRegion(region: Span)
    | DecodeCall(info: Vp9PictureInfo, target: Surface, bitstream: Span, mvsIn: MvsInput, mvsOut: Span)
    | WriteSurface(surface: Surface, lumaOffset: U32, chromaOffset: U32)
    | StoreBackwardUpdates(offset: U32, image: BackwardUpdatesImage)
    | Put(slot: Slot, surface: Surface)

  /** The kind of an event, by which traces are filtered and ordered. */
  datatype Kind = ReadKind | RentKind | SpanKind | RegionKind | CallKind | WriteKind | StoreKind | PutKind

  function KindOf(e: Event): Kind {
    match e
    case DeviceRead(_, _) => ReadKind
    case Rent(_, _) => RentKind
    case GetSpan(_) => SpanKind
    case WritableRegion(_) => RegionKind
    case DecodeCall(_, _, _, _, _) => CallKind
    case WriteSurface(_, _, _) => WriteKind
    case StoreBackwardUpdates(_, _) => StoreKind
    case Put(_, _) => PutKind
  }

  /** The events of a trace of kind `k`, in trace order. */
  function Filter(trace: seq<Event>, k: Kind): (r: seq<Event>)
    ensures |r| <= |trace|
  {
    if trace == [] then [] else Keep(trace[0], k) + Filter(trace[1..], k)
  }

  /** The filtered trace holds exactly the trace's events that are of kind `k`. */
  lemma {:induction false} FilterMembers(trace: seq<Event>, k: Kind, e: Event)
    ensures e in Filter(trace, k) <==> e in trace && KindOf(e) == k
  {
    if trace != [] {
      FilterMembers(trace[1..], k, e);
      assert trace == [trace[0]] + trace[1..];
    }
  }

  lemma {:induction false} FilterConcat(a: seq<Event>, b: seq<Event>, k: Kind)
    ensures Filter(a + b, k) == Filter(a, k) + Filter(b, k)
  {
    if a == [] {
      assert a + b == b;
    } else {
      var ab := a + b;
      assert ab[0] == a[0];
      assert ab[1..] == a[1..] + b;
      FilterConcat(a[1..], b, k);
      calc {
        Filter(ab, k);
        Keep(a[0], k) + Filter(a[1..] + b, k);
        Keep(a[0], k) + (Filter(a[1..], k) + Filter(b, k));
        (Keep(a[0], k) + Filter(a[1..], k)) + Filter(b, k);
        Filter(a, k) + Filter(b, k);
      }
    }
  }

  /** The one-event trace `[e]` filtered by kind `k`. */
  function Keep(e: Event, k: Kind): seq<Event> {
    if KindOf(e) == k then [e] else []
  }

  /** A trace whose events are all of kind `k` is its own filter. */
  lemma {:induction false} FilterAll(trace: seq<Event>, k: Kind)
    requires forall i :: 0 <= i < |trace| ==> KindOf(trace[i]) == k
    ensures Filter(trace, k) == trace
  {
    if trace != [] {
      assert forall i :: 0 <= i < |trace| - 1 ==> trace[1..][i] == trace[i + 1];
      FilterAll(trace[1..], k);
      assert trace == [trace[0]] + trace[1..];
    }
  }

  /** A trace without events of kind `k` filters to nothing. */
  lemma {:induction false} FilterNone(trace: seq<Event>, k: Kind)
    requires forall i :: 0 <= i < |trace| ==> KindOf(trace[i]) != k
    ensures Filter(trace, k) == []
  {
    if trace != [] {
      assert forall i :: 0 <= i < |trace| - 1 ==> trace[1..][i] == trace[i + 1];
      FilterNone(trace[1..], k);
    }
  }

  /** A trace of a single kind filters to itself or to nothing. */
  lemma FilterUniform(x: seq<Event>, kx: Kind, k: Kind)
    requires forall i :: 0 <= i < |x| ==> KindOf(x[i]) == kx
    ensures Filter(x, k) == if k == kx then x else []
  {
    if k == kx { FilterAll(x, k); } else { FilterNone(x, k); }
  }

  /** A trace of three parts, each of a single kind, filtered by any kind. */
  lemma FilterThreeParts(x: seq<Event>, y: seq<Event>, z: seq<Event>, kx: Kind, ky: Kind, kz: Kind)
    requires forall i :: 0 <= i < |x| ==> KindOf(x[i]) == kx
    requires forall i :: 0 <= i < |y| ==> KindOf(y[i]) == ky
    requires forall i :: 0 <= i < |z| ==> KindOf(z[i]) == kz
    ensures forall k :: Filter(x + y + z, k)
                     == (if k == kx then x else []) + (if k == ky then y else []) + (if k == kz then z else [])
  {
    forall k
      ensures Filter(x + y + z, k)
           == (if k == kx then x else []) + (if k == ky then y else []) + (if k == kz then z else [])
    {
      FilterConcat(x + y, z, k);
      FilterConcat(x, y, k);
      FilterUniform(x, kx, k);
      FilterUniform(y, ky, k);
      FilterUniform(z, kz, k);
    }
  }

  /** Every event of kind `k` comes before every event of kind `l`. */
  predicate AllBefore(trace: seq<Event>, k: Kind, l: Kind) {
    forall i, j :: 0 <= i < |trace| && 0 <= j < |trace| && KindOf(trace[i]) == k && KindOf(trace[j]) == l ==> i < j
  }

  /** A trace without events of kind `k`, or without events of kind `l`, orders them trivially. */
  lemma AllBeforeVacuous(t: seq<Event>, k: Kind, l: Kind)
    requires Filter(t, k) == [] || Filter(t, l) == []
    ensures AllBefore(t, k, l)
  {
    if Filter(t, k) == [] {
      forall i | 0 <= i < |t| ensures KindOf(t[i]) != k { FilterMembers(t, k, t[i]); }
    } else {
      forall j | 0 <= j < |t| ensures KindOf(t[j]) != l { FilterMembers(t, l, t[j]); }
    }
  }

  /** Appending events none of which is of kind `k` keeps every `k` event
      before every `l` event. */
  lemma AllBeforeExtend(t: seq<Event>, b: seq<Event>, k: Kind, l: Kind)
    requires AllBefore(t, k, l)
    requires Filter(b, k) == []
    ensures AllBefore(t + b, k, l)
  {
    var tb := t + b;
    forall i | |t| <= i < |tb|
      ensures KindOf(tb[i]) != k
    {
      assert tb[i] == b[i - |t|];
      FilterMembers(b, k, tb[i]);
    }
    assert forall k :: 0 <= k < |t| ==> tb[k] == t[k];
  }

  /** Appending a trace that orders `k` before `l`, after a trace without
      `l` events, keeps the order. */
  lemma AllBeforeJoin(t: seq<Event>, b: seq<Event>, k: Kind, l: Kind)
    requires Filter(t, l) == []
    requires AllBefore(b, k, l)
    ensures AllBefore(t + b, k, l)
  {
    var tb := t + b;
    forall j | 0 <= j < |t|
      ensures KindOf(tb[j]) != l
    {
      assert tb[j] == t[j];
      FilterMembers(t, l, tb[j]);
    }
    assert forall k :: |t| <= k < |tb| ==> tb[k] == b[k - |t|];
  }

  /** One step of a left-to-right concatenation: both parts order `k` before
      `l`, and either no `l` event precedes the new part or the new part has
      no `k` event. */
  lemma AllBeforeStep(t: seq<Event>, x: seq<Event>, k: Kind, l: Kind)
    requires AllBefore(t, k, l) && AllBefore(x, k, l)
    requires Filter(t, l) == [] || Filter(x, k) == []
    ensures AllBefore(t + x, k, l)
    ensures Filter(t, l) == [] && Filter(x, l) == [] ==> Filter(t + x, l) == []
  {
    if Filter(t, l) == [] {
      AllBeforeJoin(t, x, k, l);
    } else {
      AllBeforeExtend(t, x, k, l);
    }
    FilterConcat(t, x, l);
  }

  /** A trace made of six phases orders every `k` event before every `l`
      event when the phase numbered `n` does so, no earlier phase has an `l`
      event and no later phase has a `k` event. */
  lemma AllBeforePhases(a: seq<Event>, b: seq<Event>, c: seq<Event>, d: seq<Event>, e: seq<Event>,
                        f: seq<Event>, k: Kind, l: Kind, n: nat)
    requires n < 6
    requires n > 0 ==> Filter(a, l) == []
    requires n > 1 ==> Filter(b, l) == []
    requires n > 2 ==> Filter(c, l) == []
    requires n > 3 ==> Filter(d, l) == []
    requires n > 4 ==> Filter(e, l) == []
    requires n < 1 ==> Filter(b, k) == []
    requires n < 2 ==> Filter(c, k) == []
    requires n < 3 ==> Filter(d, k) == []
    requires n < 4 ==> Filter(e, k) == []
    requires n < 5 ==> Filter(f, k) == []
    requires n == 0 ==> AllBefore(a, k, l)
    requires n == 1 ==> AllBefore(b, k, l)
    requires n == 2 ==> AllBefore(c, k, l)
    requires n == 3 ==> AllBefore(d, k, l)
    requires n == 4 ==> AllBefore(e, k, l)
    requires n == 5 ==> AllBefore(f, k, l)
    ensures AllBefore(a + b + c + d + e + f, k, l)
  {
    if n != 0 { AllBeforeVacuous(a, k, l); }
    if n != 1 { AllBeforeVacuous(b, k, l); }
    if n != 2 { AllBeforeVacuous(c, k, l); }
    if n != 3 { AllBeforeVacuous(d, k, l); }
    if n != 4 { AllBeforeVacuous(e, k, l); }
    if n != 5 { AllBeforeVacuous(f, k, l); }
    AllBeforeStep(a, b, k, l);
    AllBeforeStep(a + b, c, k, l);
    AllBeforeStep(a + b + c, d, k, l);
    AllBeforeStep(a + b + c + d, e, k, l);
    AllBeforeStep(a + b + c + d + e, f, k, l);
  }

  /** Two traces without events of kind `k` concatenate to one. */
  lemma FilterNoneConcat(a: seq<Event>, b: seq<Event>, k: Kind)
    requires Filter(a, k) == [] && Filter(b, k) == []
    ensures Filter(a + b, k) == []
  {
    FilterConcat(a, b, k);
  }
}
