/** Which reason a refused event is given, in terms of the life it was offered to. */
module AppendRefusals {
  import opened Wrappers
  import opened Sorting
  import opened DecimalText
  import opened PositionFold
  import opened PositionLedger

  // ----- one event on its own -----

  /** The constructor's reasons, in the order of its checks. */
  lemma ConstructionRefusals(e: Event)
    ensures var r := ConstructionError(e);
            && (r == Some(NaiveTimestamp) <==> !e.aware)
            && (r == Some(InvalidOperation) <==> e.aware && e.price.NotANumber?)
            && (r == Some(NonPositiveAssertedPrice) <==>
                  e.aware && !e.price.NotANumber?
                  && (e.price.Infinite? || e.price.negative || Coefficient(e.price.digits) == 0))
            && (r == Some(AssertedPricePrecisionExceeded) <==>
                  e.aware && e.price.Finite? && !e.price.negative && Coefficient(e.price.digits) > 0
                  && !(|e.price.digits| + e.price.exponent <= 14 && e.price.exponent >= -6))
            && (r == Some(NonPositiveQuantity) <==>
                  e.aware && AdmittedPrice(e.price) && (e.quantity < 0 || (e.kind != Closed && e.quantity == 0)))
            && (r == None || r.value in {NaiveTimestamp, InvalidOperation, NonPositiveAssertedPrice,
                                         AssertedPricePrecisionExceeded, NonPositiveQuantity})
  {
  }

  // ----- one more event on a life -----

  /** What stands against putting `e` behind a coherent life, if anything does. */
  ghost function Objection(life: seq<Event>, e: Event): Option<Rejection>
    requires Coherent(life)
  {
    if e.symbol != life[0].symbol then Some(InstrumentMismatchForPosition)
    else match e.kind
      case Opened => Some(if Remaining(life) > 0 then PositionAlreadyOpen else PositionAlreadyClosed)
      case Reduced =>
        if Remaining(life) == 0 then Some(PositionNotOpen)
        else if e.quantity > Remaining(life) then Some(ReductionExceedsOpenQuantity)
        else None
      case Closed => if Remaining(life) == 0 then Some(PositionAlreadyClosed) else None
  }

  /** The event as it would be stored behind the life, a close carrying what is left, or the objection. */
  ghost function Verdict(life: seq<Event>, e: Event): Result<Event, Rejection>
    requires Coherent(life)
  {
    match Objection(life, e)
    case Some(reason) => Failure(reason)
    case None => Success(if e.kind == Closed then e.(quantity := Remaining(life)) else e)
  }

  lemma OneMoreOnLife(life: seq<Event>, e: Event)
    requires AllValid(life) && Coherent(life)
    ensures var objection, folded := Objection(life, e), Fold(life + [e]);
            if objection.Some? then folded == Failure(objection.value) else folded.Success?
  {
    FoldEventsCharacterised(life);
    FoldCharacterised(life);
    FoldExtend(life, e);
  }

  /** A first event is folded exactly when it opens. */
  lemma FirstOfLife(e: Event)
    ensures Fold([e]) == if e.kind == Opened then Success(Folded(e.quantity, true, e)) else Failure(PositionNotOpen)
  {
    assert [] + [e] == [e];
    FoldExtend([], e);
  }

  /** A sequence that does not fold is refused for its first event that does not fit what precedes it. */
  lemma {:induction false} RefusedForFirst(s: seq<Event>) returns (n: nat)
    requires AllValid(s) && s != [] && Fold(s).Failure?
    ensures n < |s| && (n > 0 ==> Coherent(s[..n]) && Objection(s[..n], s[n]).Some?)
    ensures Fold(s) == Failure(if n == 0 then PositionNotOpen else Objection(s[..n], s[n]).value)
  {
    var front, e := s[..|s| - 1], s[|s| - 1];
    assert s == front + [e];
    assert forall x :: x in front ==> x in s;
    if front == [] {
      assert s == [e];
      FirstOfLife(e);
      n := 0;
    } else {
      FoldCharacterised(front);
      if Coherent(front) {
        OneMoreOnLife(front, e);
        n := |front|;
      } else {
        n := RefusedForFirst(front);
        FoldEventsCharacterised(front);
        FoldExtend(front, e);
        assert front[..n] == s[..n] && front[n] == s[n];
      }
    }
  }

  // ----- an append -----

  /** `e` happens after everything of its position, identifiers deciding ties. */
  ghost predicate Latest(mine: seq<Event>, e: Event) {
    forall x :: x in mine ==> x.at < e.at || (x.at == e.at && x.governanceId < e.governanceId)
  }

  lemma LatestGoesLast(mine: seq<Event>, e: Event)
    requires Latest(mine, e)
    ensures Ordered(mine + [e]) == Ordered(mine) + [e] && Filter(Before(e), mine) == mine
  {
    SortAppend(mine, e);
    OrderedMembers(mine);
    var life := Ordered(mine);
    if life != [] {
      assert life[|life| - 1] in life;
    }
    InsertLast(OrderLeq, e, life);
    FilterAll(Before(e), mine);
  }

  /** An event offered to a ledger that append built is refused if its constructor refuses it, or its identifier is
      taken; one that happens after everything of its position is then accepted or refused by what that position's life
      leaves open. A close that is accepted carries exactly that. */
  lemma AppendDecided(events: seq<Event>, e: Event)
    requires LedgerInvariant(events) && Latest(KeyEvents(events, e.position), e)
    ensures var mine := KeyEvents(events, e.position);
            var life, r := Ordered(mine), AppendResult(events, e);
            if ConstructionError(e).Some? then r == Failure(ConstructionError(e).value)
            else if exists x :: x in events && x.governanceId == e.governanceId then
              r == Failure(DuplicateEventGovernanceId)
            else if mine == [] then r == if e.kind == Opened then Success(e) else Failure(PositionNotOpen)
            else
              Coherent(life) && r == Verdict(life, e)
  {
    var mine := KeyEvents(events, e.position);
    if ConstructionError(e) == None && !Duplicated(events, e) {
      if mine == [] {
        FirstAppend(events, e);
      } else {
        assert mine[0] in mine;
        OrderedMembers(mine);
        LaterAppend(events, e, Ordered(mine));
      }
    }
  }

  lemma FirstAppend(events: seq<Event>, e: Event)
    requires ConstructionError(e) == None && !Duplicated(events, e) && KeyEvents(events, e.position) == []
    ensures AppendResult(events, e) == if e.kind == Opened then Success(e) else Failure(PositionNotOpen)
  {
    var offered := if e.kind == Closed then e.(quantity := 0) else e;
    assert [] + [offered] == [offered];
    FirstOfLife(offered);
    SingleOrdered(offered);
  }

  lemma SingleOrdered(e: Event)
    ensures Ordered([e]) == [e]
  {
    assert [e][..0] == [];
    assert Ordered([]) == [];
  }

  lemma LaterAppend(events: seq<Event>, e: Event, life: seq<Event>)
    requires ConstructionError(e) == None && !Duplicated(events, e) && KeyEvents(events, e.position) != []
    requires life == Ordered(KeyEvents(events, e.position)) && AllValid(life) && Coherent(life)
    requires Latest(KeyEvents(events, e.position), e)
    ensures AppendResult(events, e) == Verdict(life, e)
  {
    var mine, offered := KeyEvents(events, e.position), AsOffered(life, e);
    QuantityOffered(mine, e, life);
    FoldedAppend(events, e, offered);
    LatestFold(mine, e, life, offered);
    VerdictOnOffer(life, e, offered);
  }

  /** A close is offered with what is left. */
  ghost function AsOffered(life: seq<Event>, e: Event): Event
    requires Coherent(life)
  {
    if e.kind == Closed then e.(quantity := Remaining(life)) else e
  }

  lemma LatestFold(mine: seq<Event>, e: Event, life: seq<Event>, offered: Event)
    requires life == Ordered(mine) && AllValid(life) && Coherent(life) && Latest(mine, e)
    requires offered == e.(quantity := offered.quantity)
    ensures var objection, folded := Objection(life, offered), Fold(Ordered(mine + [offered]));
            if objection.Some? then folded == Failure(objection.value) else folded.Success?
  {
    LatestGoesLast(mine, offered);
    OneMoreOnLife(life, offered);
  }

  lemma VerdictOnOffer(life: seq<Event>, e: Event, offered: Event)
    requires Coherent(life) && offered == AsOffered(life, e)
    ensures var objection := Objection(life, offered);
            Verdict(life, e) == if objection.Some? then Failure(objection.value) else Success(offered)
  {
  }

  lemma QuantityOffered(mine: seq<Event>, e: Event, life: seq<Event>)
    requires mine != [] && life == Ordered(mine) && AllValid(life) && Coherent(life) && Latest(mine, e)
    ensures EffectiveQuantity(mine, e) == Success(if e.kind == Closed then Remaining(life) else e.quantity)
  {
    LatestGoesLast(mine, e);
    FoldCharacterised(life);
  }

  /** Once the quantity is known, the fold decides. */
  lemma FoldedAppend(events: seq<Event>, e: Event, offered: Event)
    requires ConstructionError(e) == None && !Duplicated(events, e) && offered == e.(quantity := offered.quantity)
    requires EffectiveQuantity(KeyEvents(events, e.position), e) == Success(offered.quantity)
    ensures var folded := Fold(Ordered(KeyEvents(events, e.position) + [offered]));
            AppendResult(events, e) == if folded.Success? then Success(offered) else Failure(folded.error)
  {
  }

  /** An append is accepted exactly when the event can exist, its identifier is new, and it fits: a close only behind
      everything of its position and only while something is open; any other event wherever the whole life, with it in
      its place, is coherent. */
  lemma AcceptedExactly(events: seq<Event>, e: Event)
    requires LedgerInvariant(events)
    ensures var mine := KeyEvents(events, e.position);
            AppendResult(events, e).Success?
            <==> && ConstructionError(e) == None && (forall x :: x in events ==> x.governanceId != e.governanceId)
                 && (if e.kind == Closed then Closable(mine, e) else Coherent(Ordered(mine + [e])))
  {
    var mine := KeyEvents(events, e.position);
    if ConstructionError(e) == None && !Duplicated(events, e) {
      if e.kind == Closed {
        CloseAccepted(events, e);
      } else {
        FoldedAppend(events, e, e);
        OrderedMembers(mine + [e]);
        FoldCharacterised(Ordered(mine + [e]));
      }
    }
  }

  ghost predicate Closable(mine: seq<Event>, e: Event) {
    mine != [] && Latest(mine, e) && Coherent(Ordered(mine)) && Objection(Ordered(mine), e) == None
  }

  lemma CloseAccepted(events: seq<Event>, e: Event)
    requires LedgerInvariant(events) && ConstructionError(e) == None && !Duplicated(events, e) && e.kind == Closed
    ensures AppendResult(events, e).Success? <==> Closable(KeyEvents(events, e.position), e)
  {
    if AppendResult(events, e).Success? {
      AcceptedCloseIsLatest(events, e);
    }
    if Latest(KeyEvents(events, e.position), e) {
      LatestCloseAccepted(events, e);
    }
  }

  lemma LatestCloseAccepted(events: seq<Event>, e: Event)
    requires LedgerInvariant(events) && ConstructionError(e) == None && !Duplicated(events, e) && e.kind == Closed
    requires Latest(KeyEvents(events, e.position), e)
    ensures AppendResult(events, e).Success? <==> Closable(KeyEvents(events, e.position), e)
  {
    AppendDecided(events, e);
  }

  lemma AcceptedCloseIsLatest(events: seq<Event>, e: Event)
    requires LedgerInvariant(events) && AppendResult(events, e).Success? && e.kind == Closed
    ensures Latest(KeyEvents(events, e.position), e)
  {
    var mine, stored := KeyEvents(events, e.position), AppendResult(events, e).value;
    Accepted(events, e);
    AcceptedParts(events, e);
    CloseIsLast(mine, stored);
    forall x | x in mine
      ensures x.at < e.at || (x.at == e.at && x.governanceId < e.governanceId)
    {
      assert Before(stored)(x);
    }
  }
}
