/** The cross-process error codec (runtime/process_link_state.go): what of an error tree
crosses a process link, and that it crosses any number of links unchanged. */
module ErrorCodec {
  import opened Options

  datatype Cancellation = Deadline | Canceled

  /** What a transport outcome and a typed failure carry. */
  datatype Outcome = Outcome(outcome: string, status: int, message: string)

  datatype Failure = Failure(code: string, message: string, meta: map<string, string>)

  /** An error tree. Transport outcomes and typed failures are pointers: `id` is their
      identity. A wrapper and a join have their own text. */
  datatype Err =
    | Transport(id: nat, outcome: Outcome, cause: Option<Err>)
    | Typed(id: nat, failure: Failure, cause: Option<Err>)
    | Sentinel(cancellation: Cancellation)
    | Plain(message: string)
    | Wrap(message: string, inner: Err)
    | Join(message: string, parts: seq<Err>)

  /** processLinkError. */
  datatype Wire =
    | TransportWire(outcome: Outcome, next: Option<Wire>)
    | TypedWire(failure: Failure, next: Option<Wire>)
    | CancelWire(cancellation: Cancellation, message: string)
    | TextWire(message: string)

  // ----- walking a tree, depth first and outer errors first -----

  function Size(e: Err): nat
    decreases e, 0
  {
    match e
    case Transport(_, _, cause) => 1 + (if cause.None? then 0 else Size(cause.value))
    case Typed(_, _, cause) => 1 + (if cause.None? then 0 else Size(cause.value))
    case Wrap(_, inner) => 1 + Size(inner)
    case Join(_, parts) => 1 + SizeAll(parts)
    case _ => 1
  }

  function SizeAll(parts: seq<Err>): nat
    decreases parts, 1
  {
    if parts == [] then 0 else Size(parts[0]) + SizeAll(parts[1..])
  }

  /** The errors an error unwraps to. */
  function Unwrapped(e: Err): (parts: seq<Err>)
    ensures SizeAll(parts) < Size(e)
  {
    match e
    case Transport(_, _, cause) => One(cause)
    case Typed(_, _, cause) => One(cause)
    case Wrap(_, inner) => assert [inner][1..] == []; [inner]
    case Join(_, parts) => parts
    case _ => []
  }

  function One(cause: Option<Err>): (parts: seq<Err>)
    ensures SizeAll(parts) == if cause.None? then 0 else Size(cause.value)
  {
    if cause.None? then [] else assert [cause.value][1..] == []; [cause.value]
  }

  /** errors.AsType: the first error of a type. */
  function FirstTransport(e: Err): (found: Option<Err>)
    ensures found.Some? ==> found.value.Transport? && Size(found.value) <= Size(e)
    decreases Size(e), 0
  {
    if e.Transport? then Some(e) else FirstTransportIn(Unwrapped(e))
  }

  function FirstTransportIn(parts: seq<Err>): (found: Option<Err>)
    ensures found.Some? ==> found.value.Transport? && Size(found.value) <= SizeAll(parts)
    decreases SizeAll(parts), 1, |parts|
  {
    if parts == [] then None
    else if FirstTransport(parts[0]).Some? then FirstTransport(parts[0])
    else FirstTransportIn(parts[1..])
  }

  function FirstTyped(e: Err): (found: Option<Err>)
    ensures found.Some? ==> found.value.Typed? && Size(found.value) <= Size(e)
    decreases Size(e), 0
  {
    if e.Typed? then Some(e) else FirstTypedIn(Unwrapped(e))
  }

  function FirstTypedIn(parts: seq<Err>): (found: Option<Err>)
    ensures found.Some? ==> found.value.Typed? && Size(found.value) <= SizeAll(parts)
    decreases SizeAll(parts), 1, |parts|
  {
    if parts == [] then None
    else if FirstTyped(parts[0]).Some? then FirstTyped(parts[0])
    else FirstTypedIn(parts[1..])
  }

  /** errors.Is for a typed failure: that pointer is in the tree. */
  predicate HasTyped(e: Err, id: nat)
    decreases Size(e), 0
  {
    (e.Typed? && e.id == id) || HasTypedIn(Unwrapped(e), id)
  }

  predicate HasTypedIn(parts: seq<Err>, id: nat)
    decreases SizeAll(parts), 1, |parts|
  {
    parts != [] && (HasTyped(parts[0], id) || HasTypedIn(parts[1..], id))
  }

  /** errors.Is for context.Canceled and context.DeadlineExceeded. */
  predicate Is(e: Err, c: Cancellation)
    decreases Size(e), 0
  {
    e == Sentinel(c) || IsIn(Unwrapped(e), c)
  }

  predicate IsIn(parts: seq<Err>, c: Cancellation)
    decreases SizeAll(parts), 1, |parts|
  {
    parts != [] && (Is(parts[0], c) || IsIn(parts[1..], c))
  }

  /** Error(). */
  function Text(e: Err): string {
    match e
    case Transport(_, outcome, _) => if outcome.message != "" then outcome.message else outcome.outcome
    case Typed(_, failure, _) => if failure.message != "" then failure.message else if failure.code != "" then failure.code else "unknown"
    case Sentinel(Deadline) => "context deadline exceeded"
    case Sentinel(Canceled) => "context canceled"
    case Plain(message) => message
    case Wrap(message, _) => message
    case Join(message, _) => message
  }

  // ----- the codec -----

  /** The transport outcome or typed failure that newProcessLinkError encodes: of the
      first of each, the outer one. */
  function Chosen(e: Err): (found: Option<Err>)
    ensures found.Some? ==> (found.value.Transport? || found.value.Typed?) && Size(found.value) <= Size(e)
  {
    var transport, typed := FirstTransport(e), FirstTyped(e);
    if transport.None? then typed
    else if typed.None? || HasTyped(transport.value, typed.value.id) then transport
    else typed
  }

  /** newProcessLinkError. */
  function Encode(e: Err): Wire
    decreases Size(e)
  {
    match Chosen(e)
    case Some(Transport(_, outcome, cause)) => TransportWire(outcome, if cause.None? then None else Some(Encode(cause.value)))
    case Some(Typed(_, failure, cause)) => TypedWire(failure, if cause.None? then None else Some(Encode(cause.value)))
    case None =>
      if Is(e, Deadline) then CancelWire(Deadline, Text(e))
      else if Is(e, Canceled) then CancelWire(Canceled, Text(e))
      else TextWire(Text(e))
  }

  /** processLinkError.err; every decoded pointer is new, here numbered by depth. */
  function Decode(w: Wire, depth: nat): Err {
    match w
    case TransportWire(outcome, next) => Transport(depth, outcome, if next.None? then None else Some(Decode(next.value, depth + 1)))
    case TypedWire(failure, next) => Typed(depth, failure, if next.None? then None else Some(Decode(next.value, depth + 1)))
    case CancelWire(cancellation, message) => Wrap(message, Sentinel(cancellation))
    case TextWire(message) => Plain(message)
  }

  // ----- stability -----

  /** What a decoded error unwraps to. */
  lemma DecodeShape(w: Wire, depth: nat)
    ensures var e := Decode(w, depth);
            Unwrapped(e) ==
            if w.TransportWire? || w.TypedWire? then if w.next.None? then [] else [Decode(w.next.value, depth + 1)]
            else if w.CancelWire? then [Sentinel(w.cancellation)]
            else []
  {
  }

  /** Walking a single error is walking a list of it. */
  lemma WalkOne(e: Err, id: nat, c: Cancellation)
    ensures FirstTransportIn([e]) == FirstTransport(e) && FirstTypedIn([e]) == FirstTyped(e)
    ensures HasTypedIn([e], id) == HasTyped(e, id) && IsIn([e], c) == Is(e, c)
  {
    assert [e][1..] == [];
    assert FirstTransportIn([]).None? && FirstTypedIn([]).None? && !HasTypedIn([], id) && !IsIn([], c);
  }

  lemma WalkLeaf(e: Err, id: nat, c: Cancellation)
    requires e.Sentinel? || e.Plain?
    ensures FirstTransport(e).None? && FirstTyped(e).None? && !HasTyped(e, id) && (Is(e, c) <==> e == Sentinel(c))
  {
    assert Unwrapped(e) == [];
    assert FirstTransportIn([]).None? && FirstTypedIn([]).None? && !HasTypedIn([], id) && !IsIn([], c);
  }

  /** A decoded cancellation is a wrapper of the context's own error. */
  lemma WalkCancel(message: string, cancellation: Cancellation, id: nat, c: Cancellation)
    ensures var e := Wrap(message, Sentinel(cancellation));
            FirstTransport(e).None? && FirstTyped(e).None? && !HasTyped(e, id) && (Is(e, c) <==> cancellation == c)
  {
    var e := Wrap(message, Sentinel(cancellation));
    assert Unwrapped(e) == [Sentinel(cancellation)];
    WalkLeaf(Sentinel(cancellation), id, c);
    WalkOne(Sentinel(cancellation), id, c);
  }

  lemma {:induction false} DecodedIds(w: Wire, depth: nat, id: nat)
    requires id < depth
    ensures !HasTyped(Decode(w, depth), id)
    decreases w
  {
    DecodeShape(w, depth);
    match w {
      case CancelWire(cancellation, message) => WalkCancel(message, cancellation, id, Deadline);
      case TextWire(message) => WalkLeaf(Plain(message), id, Deadline);
      case _ =>
        if w.next.Some? {
          DecodedIds(w.next.value, depth + 1, id);
          WalkOne(Decode(w.next.value, depth + 1), id, Deadline);
        } else {
          assert !HasTypedIn([], id);
        }
    }
  }

  lemma {:induction false} DecodedTransportIds(w: Wire, depth: nat, id: nat)
    requires id < depth
    ensures FirstTransport(Decode(w, depth)).Some? ==> !HasTyped(FirstTransport(Decode(w, depth)).value, id)
    decreases w
  {
    DecodeShape(w, depth);
    match w {
      case TransportWire(_, _) => DecodedIds(w, depth, id);
      case CancelWire(cancellation, message) => WalkCancel(message, cancellation, id, Deadline);
      case TextWire(message) => WalkLeaf(Plain(message), id, Deadline);
      case TypedWire(_, next) =>
        if next.Some? {
          DecodedTransportIds(next.value, depth + 1, id);
          WalkOne(Decode(next.value, depth + 1), id, Deadline);
        } else {
          assert FirstTransportIn([]).None?;
        }
    }
  }

  /** A decoded outcome or failure is the one its encoding chooses. */
  lemma DecodedChosen(w: Wire, depth: nat)
    ensures Chosen(Decode(w, depth)) == if w.TransportWire? || w.TypedWire? then Some(Decode(w, depth)) else None
  {
    DecodeShape(w, depth);
    match w {
      case TransportWire(_, _) => TypedBelow(Decode(w, depth));
      case CancelWire(cancellation, message) => WalkCancel(message, cancellation, 0, Deadline);
      case TextWire(message) => WalkLeaf(Plain(message), 0, Deadline);
      case TypedWire(_, next) =>
        if next.Some? {
          DecodedTransportIds(next.value, depth + 1, depth);
          WalkOne(Decode(next.value, depth + 1), depth, Deadline);
        } else {
          assert FirstTransportIn([]).None?;
        }
    }
  }

  /** The first typed failure of a tree is in the tree. */
  lemma {:induction false} TypedBelow(e: Err)
    ensures FirstTyped(e).Some? ==> HasTyped(e, FirstTyped(e).value.id)
    decreases Size(e), 0
  {
    if !e.Typed? {
      TypedBelowIn(Unwrapped(e));
    }
  }

  lemma {:induction false} TypedBelowIn(parts: seq<Err>)
    ensures FirstTypedIn(parts).Some? ==> HasTypedIn(parts, FirstTypedIn(parts).value.id)
    decreases SizeAll(parts), 1, |parts|
  {
    if parts != [] {
      TypedBelow(parts[0]);
      TypedBelowIn(parts[1..]);
    }
  }

  lemma DecodedIs(w: Wire, depth: nat, c: Cancellation)
    requires w.CancelWire? || w.TextWire?
    ensures Is(Decode(w, depth), c) <==> w.CancelWire? && w.cancellation == c
  {
    match w
    case CancelWire(cancellation, message) => WalkCancel(message, cancellation, 0, c);
    case TextWire(message) => WalkLeaf(Plain(message), 0, c);
  }

  /** Every wire error is what encoding its decoding gives back. */
  lemma {:induction false} EncodeDecode(w: Wire, depth: nat)
    ensures Encode(Decode(w, depth)) == w
    decreases w
  {
    DecodedChosen(w, depth);
    if w.TransportWire? || w.TypedWire? {
      if w.next.Some? {
        EncodeDecode(w.next.value, depth + 1);
      }
    } else {
      DecodedIs(w, depth, Deadline);
      DecodedIs(w, depth, Canceled);
    }
  }

  /** An error after crossing some process links. */
  function Hops(e: Err, hops: nat): Err {
    if hops == 0 then e else Decode(Encode(Hops(e, hops - 1)), 0)
  }

  /** Any number of hops sends the wire error of the first. */
  lemma {:induction false} HopsAreStable(e: Err, hops: nat)
    ensures Encode(Hops(e, hops)) == Encode(e)
    ensures hops > 0 ==> Hops(e, hops) == Decode(Encode(e), 0)
  {
    if hops > 0 {
      HopsAreStable(e, hops - 1);
      EncodeDecode(Encode(e), 0);
    }
  }

  // ----- what crosses a link -----

  /** The cancellation a wire error ends in. */
  function WireEnd(w: Wire): Option<Cancellation> {
    match w
    case TransportWire(_, next) => if next.None? then None else WireEnd(next.value)
    case TypedWire(_, next) => if next.None? then None else WireEnd(next.value)
    case CancelWire(cancellation, _) => Some(cancellation)
    case TextWire(_) => None
  }

  lemma {:induction false} DecodedEnd(w: Wire, depth: nat, c: Cancellation)
    ensures Is(Decode(w, depth), c) <==> WireEnd(w) == Some(c)
    decreases w
  {
    DecodeShape(w, depth);
    if w.CancelWire? || w.TextWire? {
      DecodedIs(w, depth, c);
    } else if w.next.Some? {
      DecodedEnd(w.next.value, depth + 1, c);
      WalkOne(Decode(w.next.value, depth + 1), 0, c);
    } else {
      assert !IsIn([], c);
    }
  }

  /** What holds of a transport outcome or typed failure found holds of the tree. */
  lemma {:induction false} TransportWithin(e: Err, id: nat, c: Cancellation)
    requires FirstTransport(e).Some?
    ensures HasTyped(FirstTransport(e).value, id) ==> HasTyped(e, id)
    ensures Is(FirstTransport(e).value, c) ==> Is(e, c)
    decreases Size(e), 0
  {
    if !e.Transport? {
      TransportWithinIn(Unwrapped(e), id, c);
    }
  }

  lemma {:induction false} TransportWithinIn(parts: seq<Err>, id: nat, c: Cancellation)
    requires FirstTransportIn(parts).Some?
    ensures HasTyped(FirstTransportIn(parts).value, id) ==> HasTypedIn(parts, id)
    ensures Is(FirstTransportIn(parts).value, c) ==> IsIn(parts, c)
    decreases SizeAll(parts), 1, |parts|
  {
    if FirstTransport(parts[0]).Some? {
      TransportWithin(parts[0], id, c);
    } else {
      TransportWithinIn(parts[1..], id, c);
    }
  }

  lemma {:induction false} TypedWithin(e: Err, c: Cancellation)
    requires FirstTyped(e).Some?
    ensures Is(FirstTyped(e).value, c) ==> Is(e, c)
    decreases Size(e), 0
  {
    if !e.Typed? {
      TypedWithinIn(Unwrapped(e), c);
    }
  }

  lemma {:induction false} TypedWithinIn(parts: seq<Err>, c: Cancellation)
    requires FirstTypedIn(parts).Some?
    ensures Is(FirstTypedIn(parts).value, c) ==> IsIn(parts, c)
    decreases SizeAll(parts), 1, |parts|
  {
    if FirstTyped(parts[0]).Some? {
      TypedWithin(parts[0], c);
    } else {
      TypedWithinIn(parts[1..], c);
    }
  }

  lemma ChosenWithin(e: Err, c: Cancellation)
    requires Chosen(e).Some? && Is(Chosen(e).value, c)
    ensures Is(e, c)
  {
    if Chosen(e).value.Transport? {
      TransportWithin(e, 0, c);
    } else {
      TypedWithin(e, c);
    }
  }

  /** A link never invents a cancellation. */
  lemma {:induction false} EndIsReal(e: Err, c: Cancellation)
    requires WireEnd(Encode(e)) == Some(c)
    ensures Is(e, c)
    decreases Size(e)
  {
    if Chosen(e).Some? {
      var chosen := Chosen(e).value;
      EndIsReal(chosen.cause.value, c);
      assert Unwrapped(chosen) == [chosen.cause.value];
      WalkOne(chosen.cause.value, 0, c);
      ChosenWithin(e, c);
    }
  }

  /** What is left of an error below the outcomes and failures that are encoded. */
  function Leaf(e: Err): Option<Err>
    decreases Size(e)
  {
    match Chosen(e)
    case Some(chosen) => if chosen.cause.None? then None else Leaf(chosen.cause.value)
    case None => Some(e)
  }

  /** The leaf is that cancellation; an expired deadline comes first. */
  predicate LeafIs(e: Err, c: Cancellation) {
    Leaf(e).Some? && Is(Leaf(e).value, c) && (c == Canceled ==> !Is(Leaf(e).value, Deadline))
  }

  lemma {:induction false} EndIsLeaf(e: Err, c: Cancellation)
    ensures WireEnd(Encode(e)) == Some(c) <==> LeafIs(e, c)
    decreases Size(e)
  {
    if Chosen(e).Some? && Chosen(e).value.cause.Some? {
      EndIsLeaf(Chosen(e).value.cause.value, c);
    }
  }

  /** A cancellation crosses process links exactly when the leaf is that
      cancellation: the links keep errors.Is if and only if it is, whenever the error
      is that cancellation at all. */
  lemma CancellationCrossesIff(e: Err, hops: nat, c: Cancellation)
    requires hops > 0
    ensures Is(Hops(e, hops), c) ==> Is(e, c)
    ensures (Is(Hops(e, hops), c) <==> Is(e, c)) <==> (Is(e, c) ==> LeafIs(e, c))
  {
    HopsAreStable(e, hops);
    DecodedEnd(Encode(e), 0, c);
    EndIsLeaf(e, c);
    if WireEnd(Encode(e)) == Some(c) {
      EndIsReal(e, c);
    }
  }

  /** A joined cancellation beside a typed failure does not cross. */
  lemma JoinedCancellationIsLost(failure: Failure)
    ensures var e := Join("", [Typed(0, failure, None), Sentinel(Canceled)]);
            Is(e, Canceled) && !Is(Hops(e, 1), Canceled)
  {
    var typed := Typed(0, failure, None);
    var parts := [typed, Sentinel(Canceled)];
    var e := Join("", parts);
    assert parts[1..] == [Sentinel(Canceled)];
    WalkOne(Sentinel(Canceled), 0, Canceled);
    WalkLeaf(Sentinel(Canceled), 0, Canceled);
    assert Unwrapped(e) == parts && Unwrapped(typed) == [];
    assert FirstTransportIn([]).None?;
    assert FirstTransport(typed).None? && FirstTransportIn(parts).None?;
    assert FirstTypedIn(parts) == Some(typed);
    assert Chosen(e) == Some(typed);
    assert Leaf(e).None?;
    CancellationCrossesIff(e, 1, Canceled);
  }

  // ----- chains -----

  /** An error without joins, none of whose failures is among its own causes. */
  predicate Chain(e: Err)
    decreases e
  {
    match e
    case Transport(_, _, cause) => cause.None? || Chain(cause.value)
    case Typed(id, _, cause) => cause.None? || (Chain(cause.value) && !HasTyped(cause.value, id))
    case Wrap(_, inner) => Chain(inner)
    case Join(_, _) => false
    case _ => true
  }

  datatype Node = OutcomeNode(outcome: Outcome) | FailureNode(failure: Failure)

  /** The outcomes and failures of a chain, outermost first. */
  function Nodes(e: Err): seq<Node> {
    match e
    case Transport(_, outcome, cause) => [OutcomeNode(outcome)] + (if cause.None? then [] else Nodes(cause.value))
    case Typed(_, failure, cause) => [FailureNode(failure)] + (if cause.None? then [] else Nodes(cause.value))
    case Wrap(_, inner) => Nodes(inner)
    case _ => []
  }

  function WireNodes(w: Wire): seq<Node> {
    match w
    case TransportWire(outcome, next) => [OutcomeNode(outcome)] + (if next.None? then [] else WireNodes(next.value))
    case TypedWire(failure, next) => [FailureNode(failure)] + (if next.None? then [] else WireNodes(next.value))
    case _ => []
  }

  lemma ChainChosen(e: Err)
    requires Chain(e)
    ensures Chosen(e) == if e.Transport? || e.Typed? then Some(e) else if e.Wrap? then Chosen(e.inner) else None
  {
    match e {
      case Transport(_, _, _) => TypedBelow(e);
      case Typed(id, _, cause) =>
        if cause.Some? {
          WalkOne(cause.value, id, Deadline);
          assert Unwrapped(e) == [cause.value];
          if FirstTransport(cause.value).Some? {
            TransportWithin(cause.value, id, Deadline);
          }
        } else {
          assert Unwrapped(e) == [] && FirstTransportIn([]).None?;
        }
      case Wrap(_, inner) =>
        WalkOne(inner, 0, Deadline);
        assert Unwrapped(e) == [inner];
      case Sentinel(_) => WalkLeaf(e, 0, Deadline);
      case Plain(_) => WalkLeaf(e, 0, Deadline);
    }
  }

  predicate Below(e: Err, c: Cancellation) {
    match e
    case Transport(_, _, cause) => cause.Some? && Is(cause.value, c)
    case Typed(_, _, cause) => cause.Some? && Is(cause.value, c)
    case Wrap(_, inner) => Is(inner, c)
    case _ => e == Sentinel(c)
  }

  lemma ChainIs(e: Err, c: Cancellation)
    requires Chain(e)
    ensures Is(e, c) <==> Below(e, c)
  {
    if e.Wrap? {
      assert Unwrapped(e) == [e.inner];
      WalkOne(e.inner, 0, c);
    } else if e.Sentinel? || e.Plain? {
      WalkLeaf(e, 0, c);
    } else if e.Transport? || e.Typed? {
      if e.cause.Some? {
        assert Unwrapped(e) == [e.cause.value];
        WalkOne(e.cause.value, 0, c);
      } else {
        assert Unwrapped(e) == [] && !IsIn([], c);
      }
    }
  }

  lemma {:induction false} ChainEncodes(e: Err, c: Cancellation)
    requires Chain(e)
    ensures WireNodes(Encode(e)) == Nodes(e)
    ensures Is(e, c) <==> WireEnd(Encode(e)) == Some(c)
    decreases e
  {
    ChainChosen(e);
    ChainIs(e, c);
    if e.Wrap? {
      WrapEncodes(e, c);
    } else if e.Sentinel? || e.Plain? {
      ChainIs(e, Deadline);
      ChainIs(e, Canceled);
    } else if (e.Transport? || e.Typed?) && e.cause.Some? {
      ChainEncodes(e.cause.value, c);
    }
  }

  lemma {:induction false} WrapEncodes(e: Err, c: Cancellation)
    requires Chain(e) && e.Wrap?
    ensures WireNodes(Encode(e)) == Nodes(e)
    ensures Is(e, c) <==> WireEnd(Encode(e)) == Some(c)
    decreases e, 0
  {
    ChainChosen(e);
    ChainIs(e, Deadline);
    ChainIs(e, Canceled);
    ChainEncodes(e.inner, Deadline);
    ChainEncodes(e.inner, Canceled);
  }

  /** Any number of process links keeps every transport outcome and typed failure of a
      chain, in order, and whether it is a cancellation or an expired deadline. */
  lemma ChainsCross(e: Err, hops: nat, c: Cancellation)
    requires Chain(e)
    ensures Nodes(Hops(e, hops)) == Nodes(e) && (Is(Hops(e, hops), c) <==> Is(e, c))
  {
    if hops > 0 {
      HopsAreStable(e, hops);
      ChainEncodes(e, c);
      DecodedEnd(Encode(e), 0, c);
      DecodedNodes(Encode(e), 0);
    }
  }

  lemma {:induction false} DecodedNodes(w: Wire, depth: nat)
    ensures Nodes(Decode(w, depth)) == WireNodes(w)
    decreases w
  {
    if (w.TransportWire? || w.TypedWire?) && w.next.Some? {
      DecodedNodes(w.next.value, depth + 1);
    }
  }
}
