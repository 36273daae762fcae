/** What crosses a process link of any error tree (runtime/process_link_state.go): the
typed failures always, when no failure is shared; a transport outcome only when no typed
failure stands beside it. */
module ErrorTrees {
  import opened Options
  import opened ErrorCodec

  // ----- trees without shared failures -----

  /** No typed failure occurs twice. */
  ghost predicate Distinct(e: Err)
    decreases Size(e), 0
  {
    DistinctIn(Unwrapped(e)) && (e.Typed? ==> !HasTypedIn(Unwrapped(e), e.id))
  }

  ghost predicate DistinctIn(parts: seq<Err>)
    decreases SizeAll(parts), 1, |parts|
  {
    parts != [] ==> Distinct(parts[0]) && DistinctIn(parts[1..]) && Apart(parts[0], parts[1..])
  }

  ghost predicate Apart(e: Err, parts: seq<Err>) {
    forall id :: HasTyped(e, id) ==> !HasTypedIn(parts, id)
  }

  lemma {:induction false} DistinctTransport(e: Err)
    requires Distinct(e) && FirstTransport(e).Some?
    ensures Distinct(FirstTransport(e).value)
    decreases Size(e), 0
  {
    if !e.Transport? {
      DistinctTransportIn(Unwrapped(e));
    }
  }

  lemma {:induction false} DistinctTransportIn(parts: seq<Err>)
    requires DistinctIn(parts) && FirstTransportIn(parts).Some?
    ensures Distinct(FirstTransportIn(parts).value)
    decreases SizeAll(parts), 1, |parts|
  {
    if FirstTransport(parts[0]).Some? {
      DistinctTransport(parts[0]);
    } else {
      DistinctTransportIn(parts[1..]);
    }
  }

  lemma {:induction false} DistinctTyped(e: Err)
    requires Distinct(e) && FirstTyped(e).Some?
    ensures Distinct(FirstTyped(e).value)
    decreases Size(e), 0
  {
    if !e.Typed? {
      DistinctTypedIn(Unwrapped(e));
    }
  }

  lemma {:induction false} DistinctTypedIn(parts: seq<Err>)
    requires DistinctIn(parts) && FirstTypedIn(parts).Some?
    ensures Distinct(FirstTypedIn(parts).value)
    decreases SizeAll(parts), 1, |parts|
  {
    if FirstTyped(parts[0]).Some? {
      DistinctTyped(parts[0]);
    } else {
      DistinctTypedIn(parts[1..]);
    }
  }

  lemma DistinctCause(e: Err)
    requires Distinct(e) && (e.Transport? || e.Typed?) && e.cause.Some?
    ensures Distinct(e.cause.value)
  {
    assert Unwrapped(e) == [e.cause.value];
  }

  /** A tree with a typed failure has a first one. */
  lemma {:induction false} FirstTypedFound(e: Err, id: nat)
    requires HasTyped(e, id)
    ensures FirstTyped(e).Some?
    decreases Size(e), 0
  {
    if !e.Typed? {
      FirstTypedFoundIn(Unwrapped(e), id);
    }
  }

  lemma {:induction false} FirstTypedFoundIn(parts: seq<Err>, id: nat)
    requires HasTypedIn(parts, id)
    ensures FirstTypedIn(parts).Some?
    decreases SizeAll(parts), 1, |parts|
  {
    if HasTyped(parts[0], id) {
      FirstTypedFound(parts[0], id);
    } else {
      FirstTypedFoundIn(parts[1..], id);
    }
  }

  /** What a walk finds below an outcome or a failure is what it finds in its cause. */
  lemma WalkCause(e: Err)
    requires (e.Transport? || e.Typed?) && e.cause.Some?
    ensures e.Transport? ==> FirstTyped(e) == FirstTyped(e.cause.value)
    ensures e.Typed? ==> FirstTransport(e) == FirstTransport(e.cause.value)
  {
    assert Unwrapped(e) == [e.cause.value];
    WalkOne(e.cause.value, 0, Deadline);
  }

  lemma WalkNoCause(e: Err)
    requires (e.Transport? || e.Typed?) && e.cause.None?
    ensures e.Transport? ==> FirstTyped(e).None?
    ensures e.Typed? ==> FirstTransport(e).None?
  {
    assert Unwrapped(e) == [];
  }

  /** Where no failure is shared, a first transport that holds the first typed failure
      holds it as its own first. */
  lemma {:induction false} FirstInside(e: Err)
    requires Distinct(e) && FirstTransport(e).Some? && FirstTyped(e).Some?
    requires HasTyped(FirstTransport(e).value, FirstTyped(e).value.id)
    ensures FirstTyped(FirstTransport(e).value) == FirstTyped(e)
    decreases Size(e), 0
  {
    if e.Typed? {
      TransportWithinIn(Unwrapped(e), e.id, Deadline);
      assert false;
    } else if !e.Transport? {
      FirstInsideIn(Unwrapped(e));
    }
  }

  lemma {:induction false} FirstInsideIn(parts: seq<Err>)
    requires DistinctIn(parts) && FirstTransportIn(parts).Some? && FirstTypedIn(parts).Some?
    requires HasTyped(FirstTransportIn(parts).value, FirstTypedIn(parts).value.id)
    ensures FirstTyped(FirstTransportIn(parts).value) == FirstTypedIn(parts)
    decreases SizeAll(parts), 1, |parts|
  {
    var first, rest, id := parts[0], parts[1..], FirstTypedIn(parts).value.id;
    if FirstTransport(first).Some? {
      TransportWithin(first, id, Deadline);
      FirstTypedFound(first, id);
      FirstInside(first);
    } else {
      TransportWithinIn(rest, id, Deadline);
      if FirstTyped(first).Some? {
        TypedBelow(first);
        assert false;
      }
      FirstInsideIn(rest);
    }
  }

  /** A transport that is followed holds a typed failure exactly when the tree does, if
      it is the one chosen. */
  lemma NoTypedInside(e: Err)
    requires FirstTyped(e).None? && FirstTransport(e).Some?
    ensures FirstTyped(FirstTransport(e).value).None?
  {
    var inside := FirstTyped(FirstTransport(e).value);
    if inside.Some? {
      TypedBelow(FirstTransport(e).value);
      TransportWithin(e, inside.value.id, Deadline);
      FirstTypedFound(e, inside.value.id);
    }
  }

  // ----- the typed failures of a tree -----

  /** The outermost typed failure, and its nested typed causes. */
  function TypedChain(e: Err): seq<Failure>
    decreases Size(e)
  {
    match FirstTyped(e)
    case None => []
    case Some(typed) => [typed.failure] + (if typed.cause.None? then [] else TypedChain(typed.cause.value))
  }

  function WireTyped(w: Wire): seq<Failure> {
    match w
    case TransportWire(_, next) => if next.None? then [] else WireTyped(next.value)
    case TypedWire(failure, next) => [failure] + (if next.None? then [] else WireTyped(next.value))
    case _ => []
  }

  lemma SameFirst(a: Err, b: Err)
    requires FirstTyped(a) == FirstTyped(b)
    ensures TypedChain(a) == TypedChain(b)
  {
  }

  lemma {:induction false} EncodedTyped(e: Err)
    requires Distinct(e)
    ensures WireTyped(Encode(e)) == TypedChain(e)
    decreases Size(e)
  {
    if Chosen(e).Some? {
      var chosen := Chosen(e).value;
      if chosen.Transport? {
        TransportKeepsFirst(e);
        DistinctTransport(e);
        if chosen.cause.Some? {
          DistinctCause(chosen);
          WalkCause(chosen);
          SameFirst(e, chosen.cause.value);
          EncodedTyped(chosen.cause.value);
        } else {
          WalkNoCause(chosen);
        }
      } else {
        DistinctTyped(e);
        if chosen.cause.Some? {
          DistinctCause(chosen);
          EncodedTyped(chosen.cause.value);
        }
      }
    }
  }

  /** A transport that is encoded holds the first typed failure of the tree, if any. */
  lemma TransportKeepsFirst(e: Err)
    requires Distinct(e) && Chosen(e).Some? && Chosen(e).value.Transport?
    ensures FirstTyped(Chosen(e).value) == FirstTyped(e)
  {
    if FirstTyped(e).Some? {
      FirstInside(e);
    } else {
      NoTypedInside(e);
    }
  }

  lemma {:induction false} DecodedTyped(w: Wire, depth: nat)
    ensures TypedChain(Decode(w, depth)) == WireTyped(w)
    decreases w
  {
    var e := Decode(w, depth);
    match w {
      case TransportWire(_, next) =>
        if next.Some? {
          WalkCause(e);
          SameFirst(e, e.cause.value);
          DecodedTyped(next.value, depth + 1);
        } else {
          WalkNoCause(e);
        }
      case TypedWire(_, next) =>
        if next.Some? {
          DecodedTyped(next.value, depth + 1);
        }
      case CancelWire(cancellation, message) => WalkCancel(message, cancellation, 0, Deadline);
      case TextWire(message) => WalkLeaf(Plain(message), 0, Deadline);
    }
  }

  /** Any number of process links keeps the outermost typed failure of any error tree
      and its nested typed causes, joins included, when no failure is shared. */
  lemma TypedFailuresCross(e: Err, hops: nat)
    requires Distinct(e)
    ensures TypedChain(Hops(e, hops)) == TypedChain(e)
  {
    HopsAreStable(e, hops);
    if hops > 0 {
      EncodedTyped(e);
      DecodedTyped(Encode(e), 0);
    }
  }

  // ----- shared failures -----

  /** The typed failure that arrives: the first one, unless the first transport holds it
      too; then the one that arrives of that transport's cause. */
  function ArrivingTyped(e: Err): (typed: Option<Err>)
    ensures typed.Some? ==> typed.value.Typed?
    decreases Size(e)
  {
    var typed, transport := FirstTyped(e), FirstTransport(e);
    if typed.None? || transport.None? || !HasTyped(transport.value, typed.value.id) || transport.value.cause.None? then typed
    else ArrivingTyped(transport.value.cause.value)
  }

  function FailureOf(typed: Option<Err>): Option<Failure>
    requires typed.Some? ==> typed.value.Typed?
  {
    if typed.None? then None else Some(typed.value.failure)
  }

  function FirstWireTyped(w: Wire): Option<Failure> {
    if WireTyped(w) == [] then None else Some(WireTyped(w)[0])
  }

  lemma {:induction false} EncodedArriving(e: Err)
    ensures FirstWireTyped(Encode(e)) == FailureOf(ArrivingTyped(e))
    decreases Size(e)
  {
    if Chosen(e).Some? && Chosen(e).value.Transport? {
      var chosen := Chosen(e).value;
      if FirstTyped(e).None? {
        NoTypedInside(e);
      }
      if chosen.cause.Some? {
        EncodedArriving(chosen.cause.value);
        WalkCause(chosen);
      } else if FirstTyped(e).Some? {
        WalkNoCause(chosen);
        FirstTypedFound(chosen, FirstTyped(e).value.id);
        assert false;
      }
    }
  }

  lemma FirstOfChain(e: Err)
    ensures FailureOf(FirstTyped(e)) == if TypedChain(e) == [] then None else Some(TypedChain(e)[0])
  {
  }

  lemma {:induction false} ArrivesFirst(e: Err)
    requires Distinct(e)
    ensures ArrivingTyped(e) == FirstTyped(e)
    decreases Size(e)
  {
    var typed, transport := FirstTyped(e), FirstTransport(e);
    if typed.Some? && transport.Some? && HasTyped(transport.value, typed.value.id) && transport.value.cause.Some? {
      FirstInside(e);
      DistinctTransport(e);
      DistinctCause(transport.value);
      WalkCause(transport.value);
      ArrivesFirst(transport.value.cause.value);
    }
  }

  /** The first typed failure of any tree crosses any number of links if and only if the
      one that arrives is the same; where no failure is shared it always is. */
  lemma FirstTypedCrossesIff(e: Err, hops: nat)
    requires hops > 0
    ensures FailureOf(FirstTyped(Hops(e, hops))) == FailureOf(ArrivingTyped(e))
    ensures FailureOf(FirstTyped(Hops(e, hops))) == FailureOf(FirstTyped(e)) <==> FailureOf(ArrivingTyped(e)) == FailureOf(FirstTyped(e))
    ensures Distinct(e) ==> FailureOf(FirstTyped(Hops(e, hops))) == FailureOf(FirstTyped(e))
  {
    HopsAreStable(e, hops);
    EncodedArriving(e);
    DecodedTyped(Encode(e), 0);
    FirstOfChain(Decode(Encode(e), 0));
    if Distinct(e) {
      ArrivesFirst(e);
    }
  }

  // ----- transport outcomes -----

  /** The transport outcome that arrives: the first one, if there is no typed failure or
      it holds the first; otherwise the one that arrives of that failure's cause. */
  function ArrivingTransport(e: Err): (transport: Option<Err>)
    ensures transport.Some? ==> transport.value.Transport?
    decreases Size(e)
  {
    var typed, transport := FirstTyped(e), FirstTransport(e);
    if transport.None? || typed.None? || HasTyped(transport.value, typed.value.id) then transport
    else if typed.value.cause.None? then None
    else ArrivingTransport(typed.value.cause.value)
  }

  function OutcomeOf(transport: Option<Err>): Option<Outcome>
    requires transport.Some? ==> transport.value.Transport?
  {
    if transport.None? then None else Some(transport.value.outcome)
  }

  function FirstWireTransport(w: Wire): Option<Outcome> {
    match w
    case TransportWire(outcome, _) => Some(outcome)
    case TypedWire(_, next) => if next.None? then None else FirstWireTransport(next.value)
    case _ => None
  }

  lemma {:induction false} EncodedTransport(e: Err)
    ensures FirstWireTransport(Encode(e)) == OutcomeOf(ArrivingTransport(e))
    decreases Size(e)
  {
    if Chosen(e).Some? && Chosen(e).value.Typed? && Chosen(e).value.cause.Some? {
      var typed := Chosen(e).value;
      EncodedTransport(typed.cause.value);
      if FirstTransport(e).None? {
        NoTransportBelow(e);
        WalkCause(typed);
        NothingArrives(typed.cause.value);
      }
    }
  }

  lemma {:induction false} NoTransportBelow(e: Err)
    requires FirstTransport(e).None? && FirstTyped(e).Some?
    ensures FirstTransport(FirstTyped(e).value).None?
    decreases Size(e), 0
  {
    if !e.Typed? {
      NoTransportBelowIn(Unwrapped(e));
    }
  }

  lemma {:induction false} NoTransportBelowIn(parts: seq<Err>)
    requires FirstTransportIn(parts).None? && FirstTypedIn(parts).Some?
    ensures FirstTransport(FirstTypedIn(parts).value).None?
    decreases SizeAll(parts), 1, |parts|
  {
    if FirstTyped(parts[0]).Some? {
      NoTransportBelow(parts[0]);
    } else {
      NoTransportBelowIn(parts[1..]);
    }
  }

  lemma NothingArrives(e: Err)
    requires FirstTransport(e).None?
    ensures ArrivingTransport(e).None?
  {
  }

  lemma {:induction false} DecodedTransport(w: Wire, depth: nat)
    ensures OutcomeOf(FirstTransport(Decode(w, depth))) == FirstWireTransport(w)
    decreases w
  {
    var e := Decode(w, depth);
    match w {
      case TransportWire(_, next) =>
      case TypedWire(_, next) =>
        if next.Some? {
          WalkCause(e);
          DecodedTransport(next.value, depth + 1);
        } else {
          WalkNoCause(e);
        }
      case CancelWire(cancellation, message) => WalkCancel(message, cancellation, 0, Deadline);
      case TextWire(message) => WalkLeaf(Plain(message), 0, Deadline);
    }
  }

  /** The first transport outcome of any tree crosses any number of links if and only if
      the one that arrives has it. */
  lemma FirstTransportCrossesIff(e: Err, hops: nat)
    requires hops > 0
    ensures OutcomeOf(FirstTransport(Hops(e, hops))) == OutcomeOf(ArrivingTransport(e))
    ensures OutcomeOf(FirstTransport(Hops(e, hops))) == OutcomeOf(FirstTransport(e)) <==> OutcomeOf(ArrivingTransport(e)) == OutcomeOf(FirstTransport(e))
  {
    HopsAreStable(e, hops);
    EncodedTransport(e);
    DecodedTransport(Encode(e), 0);
  }

  // ----- where a typed failure stands beside the outcome -----

  /** No typed failure stands beside the first transport: before it in the walk there are
      only failures above it, and none joins it from behind unless one is above or below. */
  ghost predicate Clear(e: Err)
    decreases Size(e), 0
  {
    e.Transport? || ClearIn(Unwrapped(e))
  }

  ghost predicate ClearIn(parts: seq<Err>)
    decreases SizeAll(parts), 1, |parts|
  {
    if parts == [] then true
    else if FirstTransport(parts[0]).Some? then Clear(parts[0]) && (FirstTyped(parts[0]).Some? || FirstTypedIn(parts[1..]).None?)
    else FirstTyped(parts[0]).None? && ClearIn(parts[1..])
  }

  /** What arrives depends on the first outcome and the first failure only. */
  lemma ArrivesAlike(a: Err, b: Err)
    requires FirstTransport(a) == FirstTransport(b) && FirstTyped(a) == FirstTyped(b)
    ensures ArrivingTransport(a) == ArrivingTransport(b)
  {
  }

  lemma ArrivesUntyped(e: Err)
    requires FirstTyped(e).None?
    ensures ArrivingTransport(e) == FirstTransport(e)
  {
  }

  /** The part of a list that holds the first transport, when all before it hold nothing. */
  lemma {:induction false} ClearPart(parts: seq<Err>) returns (part: Err)
    requires ClearIn(parts) && FirstTransportIn(parts).Some? && FirstTypedIn(parts).Some?
    ensures FirstTransport(part) == FirstTransportIn(parts) && FirstTyped(part) == FirstTypedIn(parts)
    ensures Clear(part) && Size(part) <= SizeAll(parts)
    decreases |parts|
  {
    if FirstTransport(parts[0]).Some? {
      part := parts[0];
    } else {
      part := ClearPart(parts[1..]);
    }
  }

  /** A clear first outcome arrives. */
  lemma {:induction false} ClearArrives(e: Err)
    requires Clear(e) && FirstTransport(e).Some?
    ensures ArrivingTransport(e) == FirstTransport(e)
    decreases Size(e)
  {
    if FirstTyped(e).None? {
      ArrivesUntyped(e);
    } else if e.Transport? {
      TypedBelow(e);
    } else if e.Typed? {
      if e.cause.Some? {
        WalkCause(e);
        assert Unwrapped(e) == [e.cause.value];
        ClearArrives(e.cause.value);
      } else {
        WalkNoCause(e);
      }
    } else {
      var part := ClearPart(Unwrapped(e));
      ClearArrives(part);
      ArrivesAlike(e, part);
    }
  }

  predicate HasTransport(e: Err, id: nat)
    decreases Size(e), 0
  {
    (e.Transport? && e.id == id) || HasTransportIn(Unwrapped(e), id)
  }

  predicate HasTransportIn(parts: seq<Err>, id: nat)
    decreases SizeAll(parts), 1, |parts|
  {
    parts != [] && (HasTransport(parts[0], id) || HasTransportIn(parts[1..], id))
  }

  /** No transport outcome occurs twice. */
  ghost predicate DistinctOutcomes(e: Err)
    decreases Size(e), 0
  {
    DistinctOutcomesIn(Unwrapped(e))
  }

  ghost predicate DistinctOutcomesIn(parts: seq<Err>)
    decreases SizeAll(parts), 1, |parts|
  {
    parts != [] ==>
      && DistinctOutcomes(parts[0]) && DistinctOutcomesIn(parts[1..])
      && forall id :: HasTransport(parts[0], id) ==> !HasTransportIn(parts[1..], id)
  }

  lemma {:induction false} TransportBelow(e: Err)
    ensures FirstTransport(e).Some? ==> HasTransport(e, FirstTransport(e).value.id)
    decreases Size(e), 0
  {
    if !e.Transport? {
      TransportBelowIn(Unwrapped(e));
    }
  }

  lemma {:induction false} TransportBelowIn(parts: seq<Err>)
    ensures FirstTransportIn(parts).Some? ==> HasTransportIn(parts, FirstTransportIn(parts).value.id)
    decreases SizeAll(parts), 1, |parts|
  {
    if parts != [] {
      TransportBelow(parts[0]);
      TransportBelowIn(parts[1..]);
    }
  }

  lemma {:induction false} BelowTyped(e: Err, id: nat)
    requires FirstTyped(e).Some? && HasTransport(FirstTyped(e).value, id)
    ensures HasTransport(e, id)
    decreases Size(e), 0
  {
    if !e.Typed? {
      BelowTypedIn(Unwrapped(e), id);
    }
  }

  lemma {:induction false} BelowTypedIn(parts: seq<Err>, id: nat)
    requires FirstTypedIn(parts).Some? && HasTransport(FirstTypedIn(parts).value, id)
    ensures HasTransportIn(parts, id)
    decreases SizeAll(parts), 1, |parts|
  {
    if FirstTyped(parts[0]).Some? {
      BelowTyped(parts[0], id);
    } else {
      BelowTypedIn(parts[1..], id);
    }
  }

  lemma OneTransport(e: Err, id: nat)
    ensures HasTransportIn([e], id) == HasTransport(e, id)
  {
    assert !HasTransportIn([], id);
  }

  /** What arrives comes from the tree. */
  lemma {:induction false} ArrivingBelow(e: Err)
    ensures ArrivingTransport(e).Some? ==> HasTransport(e, ArrivingTransport(e).value.id)
    decreases Size(e)
  {
    TransportBelow(e);
    if FirstTyped(e).Some? && FirstTyped(e).value.cause.Some? && ArrivingTransport(e) != FirstTransport(e) && ArrivingTransport(e).Some? {
      var typed, arriving := FirstTyped(e).value, ArrivingTransport(e).value;
      ArrivingBelow(typed.cause.value);
      assert Unwrapped(typed) == [typed.cause.value];
      OneTransport(typed.cause.value, arriving.id);
      BelowTyped(e, arriving.id);
    }
  }

  /** Where nothing is shared, an outcome with a typed failure beside it does not arrive. */
  lemma {:induction false} BesideIsLost(e: Err)
    requires Distinct(e) && DistinctOutcomes(e) && FirstTransport(e).Some? && !Clear(e)
    ensures ArrivingTransport(e) != FirstTransport(e)
    decreases Size(e), 0
  {
    if e.Typed? {
      if e.cause.Some? {
        WalkCause(e);
        assert Unwrapped(e) == [e.cause.value];
        TransportWithinIn(Unwrapped(e), e.id, Deadline);
        OneClear(e.cause.value);
        BesideIsLost(e.cause.value);
      } else {
        WalkNoCause(e);
      }
    } else {
      BesideIsLostIn(e, Unwrapped(e));
    }
  }

  lemma OneClear(e: Err)
    ensures ClearIn([e]) <==> if FirstTransport(e).Some? then Clear(e) else FirstTyped(e).None?
    ensures DistinctIn([e]) ==> Distinct(e)
    ensures DistinctOutcomesIn([e]) ==> DistinctOutcomes(e)
  {
    assert [e][1..] == [];
    assert FirstTypedIn([]).None?;
  }

  /** `e` finds first what the list finds first. */
  lemma {:induction false} BesideIsLostIn(e: Err, parts: seq<Err>)
    requires DistinctIn(parts) && DistinctOutcomesIn(parts) && FirstTransportIn(parts).Some? && !ClearIn(parts)
    requires FirstTransport(e) == FirstTransportIn(parts) && FirstTyped(e) == FirstTypedIn(parts)
    ensures ArrivingTransport(e) != FirstTransport(e)
    decreases SizeAll(parts), 1, |parts|
  {
    var first, rest := parts[0], parts[1..];
    if FirstTransport(first).None? {
      if FirstTyped(first).Some? {
        EarlierFailure(e, first, rest);
      } else {
        BesideIsLostIn(e, rest);
      }
    } else if FirstTyped(first).Some? {
      BesideIsLost(first);
      ArrivesAlike(e, first);
    } else {
      if !Clear(first) {
        UntypedIsClear(first);
      }
      LaterFailure(e, first, rest);
    }
  }

  lemma {:induction false} UntypedIsClear(e: Err)
    requires FirstTyped(e).None?
    ensures Clear(e)
    decreases Size(e), 0
  {
    if !e.Transport? {
      UntypedIsClearIn(Unwrapped(e));
    }
  }

  lemma {:induction false} UntypedIsClearIn(parts: seq<Err>)
    requires FirstTypedIn(parts).None?
    ensures ClearIn(parts)
    decreases SizeAll(parts), 1, |parts|
  {
    if parts != [] {
      UntypedIsClear(parts[0]);
      UntypedIsClearIn(parts[1..]);
    }
  }

  /** A typed failure in an earlier part: nothing of the later ones arrives. */
  lemma EarlierFailure(e: Err, first: Err, rest: seq<Err>)
    requires Apart(first, rest) && FirstTransport(first).None? && FirstTyped(first).Some? && FirstTransportIn(rest).Some?
    requires FirstTransport(e) == FirstTransportIn(rest) && FirstTyped(e) == FirstTyped(first)
    ensures ArrivingTransport(e).None?
  {
    var typed := FirstTyped(first).value;
    TypedBelow(first);
    TransportWithinIn(rest, typed.id, Deadline);
    NoTransportBelow(first);
    if typed.cause.Some? {
      WalkCause(typed);
      NothingArrives(typed.cause.value);
    }
  }

  /** A typed failure in a later part, and none with the transport: what arrives is below
      that failure. */
  lemma LaterFailure(e: Err, first: Err, rest: seq<Err>)
    requires (forall id :: HasTransport(first, id) ==> !HasTransportIn(rest, id))
    requires FirstTransport(first).Some? && FirstTyped(first).None? && FirstTypedIn(rest).Some?
    requires FirstTransport(e) == FirstTransport(first) && FirstTyped(e) == FirstTypedIn(rest)
    ensures ArrivingTransport(e) != FirstTransport(e)
  {
    var typed, transport := FirstTypedIn(rest).value, FirstTransport(first).value;
    NoTypedInside(first);
    if HasTyped(transport, typed.id) {
      FirstTypedFound(transport, typed.id);
    }
    if typed.cause.Some? && ArrivingTransport(typed.cause.value).Some? {
      var arriving := ArrivingTransport(typed.cause.value).value;
      ArrivingBelow(typed.cause.value);
      assert Unwrapped(typed) == [typed.cause.value];
      OneTransport(typed.cause.value, arriving.id);
      BelowTypedIn(rest, arriving.id);
      TransportBelow(first);
    }
  }

  /** The first transport outcome crosses whenever no typed failure stands beside it, in
      any tree; and where nothing is shared it is the one that arrives only then. */
  lemma OutcomeCrossesIffClear(e: Err, hops: nat)
    requires hops > 0 && FirstTransport(e).Some?
    ensures OutcomeOf(FirstTransport(Hops(e, hops))) == OutcomeOf(ArrivingTransport(e))
    ensures Clear(e) ==> OutcomeOf(FirstTransport(Hops(e, hops))) == OutcomeOf(FirstTransport(e))
    ensures Distinct(e) && DistinctOutcomes(e) ==> (ArrivingTransport(e) == FirstTransport(e) <==> Clear(e))
  {
    FirstTransportCrossesIff(e, hops);
    if Clear(e) {
      ClearArrives(e);
    } else if Distinct(e) && DistinctOutcomes(e) {
      BesideIsLost(e);
    }
  }

  // ----- what is lost -----

  /** Walking a join of two errors. */
  lemma JoinTwo(a: Err, b: Err, id: nat)
    ensures var e := Join("", [a, b]);
            && FirstTransport(e) == (if FirstTransport(a).Some? then FirstTransport(a) else FirstTransport(b))
            && FirstTyped(e) == (if FirstTyped(a).Some? then FirstTyped(a) else FirstTyped(b))
            && HasTyped(e, id) == (HasTyped(a, id) || HasTyped(b, id))
  {
    var parts := [a, b];
    assert Unwrapped(Join("", parts)) == parts && parts[1..] == [b];
    WalkOne(b, id, Deadline);
  }

  /** Walking an outcome or a failure without a cause. */
  lemma Bare(e: Err, id: nat)
    requires (e.Transport? || e.Typed?) && e.cause.None?
    ensures FirstTransport(e) == (if e.Transport? then Some(e) else None) && FirstTyped(e) == (if e.Typed? then Some(e) else None)
    ensures HasTyped(e, id) <==> e.Typed? && e.id == id
  {
    assert Unwrapped(e) == [];
    assert !HasTypedIn([], id);
  }

  /** A transport outcome joined beside a typed failure is lost. */
  lemma JoinedOutcomeIsLost(outcome: Outcome, failure: Failure)
    ensures var e := Join("", [Transport(0, outcome, None), Typed(1, failure, None)]);
            && OutcomeOf(FirstTransport(e)) == Some(outcome) && OutcomeOf(FirstTransport(Hops(e, 1))) == None
            && ArrivingTransport(e).None?
  {
    var transport, typed := Transport(0, outcome, None), Typed(1, failure, None);
    Bare(transport, 1);
    Bare(typed, 1);
    JoinTwo(transport, typed, 1);
    FirstTransportCrossesIff(Join("", [transport, typed]), 1);
  }

  /** So is one below the first typed failure, beside another. */
  lemma NestedOutcomeIsLost(outcome: Outcome, failure: Failure, other: Failure)
    ensures var e := Typed(2, other, Some(Join("", [Transport(0, outcome, None), Typed(1, failure, None)])));
            OutcomeOf(FirstTransport(e)) == Some(outcome) && OutcomeOf(FirstTransport(Hops(e, 1))) == None
  {
    var transport, typed := Transport(0, outcome, None), Typed(1, failure, None);
    var join := Join("", [transport, typed]);
    var e := Typed(2, other, Some(join));
    JoinedOutcomeIsLost(outcome, failure);
    Bare(transport, 2);
    Bare(typed, 2);
    JoinTwo(transport, typed, 2);
    WalkCause(e);
    assert FirstTransport(e) == Some(transport) && FirstTyped(e) == Some(e);
    FirstTransportCrossesIff(e, 1);
  }

  /** A typed failure that the first transport shares, below another one, arrives after
      that other one. */
  lemma SharedFailureIsOvertaken(outcome: Outcome, failure: Failure, other: Failure)
    ensures var shared := Typed(1, failure, None);
            var e := Join("", [shared, Transport(0, outcome, Some(Join("", [Typed(2, other, None), shared])))]);
            FailureOf(FirstTyped(e)) == Some(failure) && FailureOf(FirstTyped(Hops(e, 1))) == Some(other)
  {
    var shared, overtaking := Typed(1, failure, None), Typed(2, other, None);
    var inner := Join("", [overtaking, shared]);
    var transport := Transport(0, outcome, Some(inner));
    Bare(shared, 1);
    Bare(overtaking, 1);
    JoinTwo(overtaking, shared, 1);
    JoinTwo(shared, transport, 1);
    WalkOne(inner, 1, Deadline);
    assert Unwrapped(transport) == [inner];
    assert HasTyped(transport, 1);
    assert ArrivingTyped(inner) == Some(overtaking);
    assert ArrivingTyped(Join("", [shared, transport])) == ArrivingTyped(inner);
    FirstTypedCrossesIff(Join("", [shared, transport]), 1);
  }

  // ----- the leaf, by walking the tree -----

  /** What is left below the last nested typed failure. */
  function TypedEnd(e: Err): Option<Err>
    decreases Size(e)
  {
    match FirstTyped(e)
    case None => Some(e)
    case Some(typed) => if typed.cause.None? then None else TypedEnd(typed.cause.value)
  }

  /** What is left below the last nested transport outcome. */
  function TransportEnd(e: Err): Option<Err>
    decreases Size(e)
  {
    match FirstTransport(e)
    case None => Some(e)
    case Some(transport) => if transport.cause.None? then None else TransportEnd(transport.cause.value)
  }

  /** Below the typed failures, and then below the transport outcomes left. */
  function WalkedLeaf(e: Err): Option<Err> {
    match TypedEnd(e) case None => None case Some(rest) => TransportEnd(rest)
  }

  lemma SameEnd(a: Err, b: Err)
    requires FirstTyped(a) == FirstTyped(b) && FirstTyped(a).Some?
    ensures WalkedLeaf(a) == WalkedLeaf(b)
  {
  }

  lemma {:induction false} LeafIsWalked(e: Err)
    requires Distinct(e)
    ensures Leaf(e) == WalkedLeaf(e)
    decreases Size(e)
  {
    if Chosen(e).Some? {
      var chosen := Chosen(e).value;
      if chosen.Transport? {
        TransportKeepsFirst(e);
        DistinctTransport(e);
        if chosen.cause.Some? {
          DistinctCause(chosen);
          WalkCause(chosen);
          LeafIsWalked(chosen.cause.value);
          if FirstTyped(e).Some? {
            SameEnd(e, chosen.cause.value);
          }
        } else {
          WalkNoCause(chosen);
        }
      } else {
        DistinctTyped(e);
        if chosen.cause.Some? {
          DistinctCause(chosen);
          LeafIsWalked(chosen.cause.value);
        }
      }
    }
  }

  predicate EndsIn(rest: Option<Err>, c: Cancellation) {
    rest.Some? && Is(rest.value, c) && (c == Canceled ==> !Is(rest.value, Deadline))
  }

  /** Where no failure is shared, a cancellation crosses if and only if it is what is left
      below the typed failures and then the transport outcomes. */
  lemma CancellationCrossesIffLeft(e: Err, hops: nat, c: Cancellation)
    requires hops > 0 && Distinct(e)
    ensures Is(Hops(e, hops), c) <==> EndsIn(WalkedLeaf(e), c)
  {
    LeafIsWalked(e);
    HopsAreStable(e, hops);
    DecodedEnd(Encode(e), 0, c);
    EndIsLeaf(e, c);
  }

  // ----- messages -----

  /** The message at the end of an error's causes, when it ends in a plain error. */
  function EndText(e: Err): Option<string> {
    match e
    case Transport(_, _, cause) => if cause.None? then None else EndText(cause.value)
    case Typed(_, _, cause) => if cause.None? then None else EndText(cause.value)
    case _ => Some(Text(e))
  }

  lemma {:induction false} ChosenText(e: Err, depth: nat)
    ensures EndText(Decode(Encode(e), depth)) == if Leaf(e).None? then None else Some(Text(Leaf(e).value))
    decreases Size(e)
  {
    if Chosen(e).Some? {
      var chosen := Chosen(e).value;
      if chosen.cause.Some? {
        ChosenText(chosen.cause.value, depth + 1);
      }
    }
  }

  /** Where no failure is shared, the error left below the nested typed failures and then
      the transport outcomes arrives with its message. */
  lemma MessageCrosses(e: Err, hops: nat)
    requires hops > 0 && Distinct(e)
    ensures EndText(Hops(e, hops)) == if WalkedLeaf(e).None? then None else Some(Text(WalkedLeaf(e).value))
  {
    LeafIsWalked(e);
    HopsAreStable(e, hops);
    ChosenText(e, 0);
  }
}
