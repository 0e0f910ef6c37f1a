/** One position of the operator-asserted ledger: its events, their total order, and the fold that decides
    which sequences of them make sense.

    Identifiers and symbols are integers: the code only compares them for equality and order. A moment
    is an integer too. */
module PositionFold {
  import opened Wrappers
  import opened Sorting
  import opened DecimalText

  type Id = int
  type Moment = int

  datatype Kind = Opened | Reduced | Closed

  /** `aware` says that both moments carry a time zone. */
  datatype Event = Event(
    governanceId: Id,
    position: Id,
    symbol: Id,
    kind: Kind,
    quantity: int,
    price: Price,
    at: Moment,
    recordedAt: Moment,
    aware: bool)

  datatype Rejection =
    | PositionNotOpen
    | PositionAlreadyOpen
    | PositionAlreadyClosed
    | ReductionExceedsOpenQuantity
    | InstrumentMismatchForPosition
    | DuplicateEventGovernanceId
    | NonPositiveQuantity
    | NonPositiveAssertedPrice
    | AssertedPricePrecisionExceeded
    | NaiveTimestamp
    | InvalidOperation // not the ledger's own: comparing a price that is not a number raises it

  // ----- one event -----

  /** The checks of the event constructor, in its order. */
  function ConstructionError(e: Event): (r: Option<Rejection>)
    ensures r == None
       <==> e.aware && AdmittedPrice(e.price) && e.quantity >= 0 && (e.kind != Closed ==> e.quantity > 0)
  {
    if !e.aware then Some(NaiveTimestamp)
    else if e.price.NotANumber? then Some(InvalidOperation)
    else if e.price.Infinite? || e.price.negative || Coefficient(e.price.digits) == 0 then
      Some(NonPositiveAssertedPrice)
    else
      var integerDigits := if |e.price.digits| + e.price.exponent > 0 then |e.price.digits| + e.price.exponent else 0;
      if integerDigits > MAX_INTEGER_DIGITS then Some(AssertedPricePrecisionExceeded)
      else if -e.price.exponent > MONEY_PLACES then Some(AssertedPricePrecisionExceeded)
      else if e.kind != Closed && e.quantity <= 0 then Some(NonPositiveQuantity)
      else if e.quantity < 0 then Some(NonPositiveQuantity)
      else None
  }

  /** An event that can exist: its constructor raised nothing. */
  predicate ValidEvent(e: Event) {
    ConstructionError(e) == None
  }

  ghost predicate AllValid(s: seq<Event>) {
    forall e :: e in s ==> ValidEvent(e)
  }

  /** `(event_timestamp, governance_id)`, compared. */
  predicate OrderLeq(a: Event, b: Event) {
    a.at < b.at || (a.at == b.at && a.governanceId <= b.governanceId)
  }

  lemma OrderIsTotal()
    ensures TotalPreorder(OrderLeq)
  {
  }

  ghost predicate DistinctIds(s: seq<Event>) {
    forall i, j :: 0 <= i < j < |s| ==> s[i].governanceId != s[j].governanceId
  }

  lemma DistinctKeys(s: seq<Event>)
    requires DistinctIds(s)
    ensures KeysDistinct(OrderLeq, s)
  {
  }

  // ----- the fold -----

  datatype FoldState = FoldState(quantity: int, wasOpened: bool, wasClosed: bool, opening: Option<Event>)

  datatype Folded = Folded(quantity: int, isOpen: bool, opening: Event)

  const NOTHING_FOLDED := FoldState(0, false, false, None)

  function FoldStep(s: FoldState, e: Event): Result<FoldState, Rejection> {
    if s.opening.Some? && e.symbol != s.opening.value.symbol then Failure(InstrumentMismatchForPosition)
    else match e.kind
      case Opened =>
        if s.wasOpened && !s.wasClosed then Failure(PositionAlreadyOpen)
        else if s.wasClosed then Failure(PositionAlreadyClosed)
        else Success(s.(wasOpened := true, opening := Some(e), quantity := e.quantity))
      case Reduced =>
        if !s.wasOpened || s.wasClosed then Failure(PositionNotOpen)
        else if e.quantity > s.quantity then Failure(ReductionExceedsOpenQuantity)
        else Success(s.(quantity := s.quantity - e.quantity, wasClosed := s.quantity == e.quantity))
      case Closed =>
        if !s.wasOpened || s.wasClosed then Failure(if s.wasClosed then PositionAlreadyClosed else PositionNotOpen)
        else Success(s.(quantity := 0, wasClosed := true))
  }

  function FoldEvents(events: seq<Event>): Result<FoldState, Rejection> {
    if events == [] then Success(NOTHING_FOLDED)
    else
      var s :- FoldEvents(events[..|events| - 1]);
      FoldStep(s, events[|events| - 1])
  }

  function FinishFold(s: FoldState): Result<Folded, Rejection> {
    match s.opening
    case None => Failure(PositionNotOpen)
    case Some(opening) => Success(Folded(s.quantity, !s.wasClosed, opening))
  }

  /** The specification of `FoldOnePosition`. */
  function Fold(events: seq<Event>): Result<Folded, Rejection> {
    var s :- FoldEvents(events);
    FinishFold(s)
  }

  lemma {:induction false} FoldFailsEarly(events: seq<Event>, n: nat)
    requires n <= |events| && FoldEvents(events[..n]).Failure?
    ensures FoldEvents(events) == FoldEvents(events[..n])
    decreases |events| - n
  {
    if n == |events| {
      assert events[..n] == events;
    } else {
      assert events[..n + 1][..n] == events[..n];
      FoldFailsEarly(events, n + 1);
    }
  }

  method FoldOnePosition(events: seq<Event>) returns (r: Result<Folded, Rejection>)
    ensures r == Fold(events)
  {
    var s := NOTHING_FOLDED;
    var i := 0;
    while i < |events|
      invariant 0 <= i <= |events|
      invariant FoldEvents(events[..i]) == Success(s)
    {
      assert events[..i + 1][..i] == events[..i];
      match FoldStep(s, events[i]) {
        case Failure(reason) =>
          FoldFailsEarly(events, i + 1);
          return Failure(reason);
        case Success(next) =>
          s := next;
      }
      i := i + 1;
    }
    assert events[..i] == events;
    return FinishFold(s);
  }

  // ----- what the fold accepts -----

  function ReducedQuantity(e: Event): int {
    if e.kind == Reduced then e.quantity else 0
  }

  function OpenedQuantity(e: Event): int {
    if e.kind == Opened then e.quantity else 0
  }

  function ClosedQuantity(e: Event): int {
    if e.kind == Closed then e.quantity else 0
  }

  function ReducedTotal(s: seq<Event>): int {
    Sum(ReducedQuantity, s)
  }

  /** A life of one position: opened once, first; then reductions; at most one close, last; one
      instrument; never reduced beyond what was opened, and by less than that if closed. */
  ghost predicate Coherent(s: seq<Event>) {
    && s != [] && s[0].kind == Opened
    && (forall i :: 0 < i < |s| ==> s[i].symbol == s[0].symbol && s[i].kind != Opened)
    && (forall i :: 0 < i < |s| - 1 ==> s[i].kind == Reduced)
    && ReducedTotal(s) <= s[0].quantity
    && (s[|s| - 1].kind == Closed ==> ReducedTotal(s) < s[0].quantity)
  }

  /** The quantity a coherent sequence leaves open. */
  ghost function Remaining(s: seq<Event>): int
    requires Coherent(s)
  {
    if s[|s| - 1].kind == Closed then 0 else s[0].quantity - ReducedTotal(s)
  }

  lemma ReducedTotalExtend(s: seq<Event>, e: Event)
    ensures ReducedTotal(s + [e]) == ReducedTotal(s) + ReducedQuantity(e)
  {
  }

  lemma CoherentSingle(e: Event)
    requires ValidEvent(e)
    ensures Coherent([e]) <==> e.kind == Opened
    ensures e.kind == Opened ==> Remaining([e]) == e.quantity
  {
    assert ReducedTotal([e]) == ReducedQuantity(e) by {
      assert [] + [e] == [e];
      ReducedTotalExtend([], e);
    }
  }

  /** One more event on a non-empty sequence. */
  lemma CoherentExtend(s: seq<Event>, e: Event)
    requires s != [] && AllValid(s + [e])
    ensures Coherent(s + [e])
       <==> Coherent(s) && Remaining(s) > 0 && e.symbol == s[0].symbol
            && ((e.kind == Reduced && e.quantity <= Remaining(s)) || e.kind == Closed)
    ensures Coherent(s + [e]) ==> Remaining(s + [e]) == if e.kind == Closed then 0 else Remaining(s) - e.quantity
  {
    var t := s + [e];
    ReducedTotalExtend(s, e);
    assert forall i :: 0 <= i < |s| ==> t[i] == s[i];
    assert e in t && t[|t| - 1] == e;
    if Coherent(t) {
      assert t[|s|].symbol == t[0].symbol && t[|s|].kind != Opened;
      if |s| > 1 {
        assert t[|s| - 1].kind == Reduced;
      }
      assert forall i :: 0 < i < |s| ==> t[i].kind == Reduced;
      assert Coherent(s);
    }
  }

  lemma FoldExtend(s: seq<Event>, e: Event)
    ensures FoldEvents(s + [e])
         == match FoldEvents(s) case Success(state) => FoldStep(state, e) case Failure(reason) => Failure(reason)
  {
    assert (s + [e])[..|s|] == s;
  }

  lemma {:induction false} FoldEventsCharacterised(s: seq<Event>)
    requires AllValid(s) && s != []
    ensures FoldEvents(s).Success? <==> Coherent(s)
    ensures Coherent(s) ==>
              FoldEvents(s) == Success(FoldState(Remaining(s), true, Remaining(s) == 0, Some(s[0])))
  {
    var front, e := s[..|s| - 1], s[|s| - 1];
    assert s == front + [e];
    assert e in s;
    FoldExtend(front, e);
    if front == [] {
      assert s == [e];
      CoherentSingle(e);
    } else {
      assert forall x :: x in front ==> x in s;
      FoldEventsCharacterised(front);
      CoherentExtend(front, e);
    }
  }

  /** The fold accepts exactly the coherent lives, and reports what is left of them. */
  lemma FoldCharacterised(s: seq<Event>)
    requires AllValid(s)
    ensures Fold(s).Success? <==> Coherent(s)
    ensures Coherent(s) ==> Fold(s) == Success(Folded(Remaining(s), Remaining(s) > 0, s[0]))
    ensures Coherent(s) ==> Remaining(s) >= 0
  {
    if s != [] {
      FoldEventsCharacterised(s);
    }
  }

  /** Without its opening in front, a sequence is refused as not open. */
  lemma {:induction false} FoldWithoutOpening(s: seq<Event>)
    requires s == [] || s[0].kind != Opened
    ensures Fold(s) == Failure(PositionNotOpen)
  {
    if s == [] {
    } else {
      var n := |s| - 1;
      if n == 0 {
        assert s[..0] == [];
        assert FoldEvents(s[..0]) == Success(NOTHING_FOLDED);
      } else {
        FoldWithoutOpening(s[..n]);
        if FoldEvents(s[..n]).Success? {
          FoldEventsNeedsOpening(s[..n]);
        }
      }
    }
  }

  lemma {:induction false} FoldEventsNeedsOpening(s: seq<Event>)
    requires s != [] && s[0].kind != Opened
    ensures FoldEvents(s) == Failure(PositionNotOpen)
  {
    if |s| == 1 {
      assert s[..0] == [];
    } else {
      FoldEventsNeedsOpening(s[..|s| - 1]);
    }
  }

  /** Dropping events other than the opening keeps a life coherent and can only leave more open. */
  lemma {:induction false} CoherentFilter(keep: Event -> bool, s: seq<Event>)
    requires AllValid(s) && Coherent(s) && keep(s[0])
    ensures Coherent(Filter(keep, s)) && Filter(keep, s)[0] == s[0]
    ensures Remaining(Filter(keep, s)) >= Remaining(s)
  {
    var front, e := s[..|s| - 1], s[|s| - 1];
    assert s == front + [e] && e in s;
    if front == [] {
      assert s == [e];
      assert Filter(keep, s) == [] + [e] == s;
    } else {
      assert forall x :: x in front ==> x in s;
      CoherentExtend(front, e);
      CoherentFilter(keep, front);
      var kept := Filter(keep, front);
      if keep(e) {
        assert forall x :: x in kept + [e] ==> x in s;
        CoherentExtend(kept, e);
      }
    }
  }

  lemma FilterWithoutOpening(keep: Event -> bool, s: seq<Event>)
    requires Coherent(s) && !keep(s[0])
    ensures forall e :: e in Filter(keep, s) ==> e.kind != Opened
    ensures Fold(Filter(keep, s)) == Failure(PositionNotOpen)
  {
    forall e | e in Filter(keep, s)
      ensures e.kind != Opened
    {
      var i :| 0 <= i < |s| && s[i] == e;
      assert i > 0;
    }
    var kept := Filter(keep, s);
    if kept != [] {
      assert kept[0] in kept;
    }
    FoldWithoutOpening(kept);
  }
}
