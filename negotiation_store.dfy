/**
 * The negotiation records kept by the content backend and the operations that
 * change them:
 *   - POST /api/negotiate (src/app/api/negotiate/route.ts): open a negotiation for
 *     (listing, caller) — or resume the first existing one, whatever its status —
 *     and append an "offer" message;
 *   - POST /api/negotiate/seller-response: append one message of the caller's type;
 *   - the PUT /negotiations/{id} issued by src/components/NegotiationModal.tsx, the
 *     only place a status changes.
 * Each step that can fail at the backend takes a fault parameter; the routes catch
 * every failure and answer 500 without undoing what already happened.
 */
module NegotiationStore {
  import opened AccountTypes
  import opened Seqs

  datatype Negotiation = Negotiation(
    id: Id,
    accountId: Id,
    buyerId: Id,
    status: string,
    offeredPrice: int,
    buyerZalo: string,
    messageFromSeller: Option<string>)

  datatype Message = Message(
    negotiationId: Id,
    senderId: Id,
    content: string,
    price: Option<int>,
    kind: string)

  /** The backend's collections; `owners` maps a listing to the user who sells it,
      `nextId` is the id the backend gives the next negotiation it creates. */
  datatype Store = Store(
    negotiations: seq<Negotiation>,
    messages: seq<Message>,
    owners: map<Id, Id>,
    nextId: Id)

  /** Ids are positive, unique and below `nextId`. */
  predicate Valid(st: Store)
  {
    && st.nextId > 0
    && (forall k :: 0 <= k < |st.negotiations| ==> 0 < st.negotiations[k].id < st.nextId)
    && (forall i, j :: 0 <= i < j < |st.negotiations| ==> st.negotiations[i].id != st.negotiations[j].id)
  }

  /** The server session's user id; `!session?.user?.id` also rejects the id 0. */
  predicate Authorized(session: Option<Id>)
  {
    session.Some? && session.value != 0
  }

  datatype Reply = Ok | Unauthorized | ServerError

  function HttpStatus(r: Reply): nat
  {
    match r
    case Ok => 200
    case Unauthorized => 401
    case ServerError => 500
  }

  /** Which backend call of POST /api/negotiate throws, if any. */
  datatype Fault = NoFault | LookupFails | CreateFails | MessageFails

  datatype Outcome = Outcome(store: Store, reply: Reply)

  predicate OnPair(n: Negotiation, accountId: Id, buyerId: Id)
  {
    n.accountId == accountId && n.buyerId == buyerId
  }

  /** The backend query `filters[account][id][$eq]=…&filters[buyer][id][$eq]=…`. */
  function Matches(negs: seq<Negotiation>, accountId: Id, buyerId: Id): (r: seq<Negotiation>)
    ensures forall k :: 0 <= k < |r| ==> OnPair(r[k], accountId, buyerId) && r[k] in negs
    ensures IsSubsequence(r, negs)
    ensures forall n :: n in negs && OnPair(n, accountId, buyerId) ==> n in r
  {
    var onPair := (n: Negotiation) => OnPair(n, accountId, buyerId);
    FilterIsSubsequence(negs, onPair);
    FilterMembershipAll(negs, onPair);
    Filter(negs, onPair)
  }

  function OfferMessage(negotiationId: Id, caller: Id, content: string, price: int): Message
  {
    Message(negotiationId, caller, content, Some(price), "offer")
  }

  function NewNegotiation(id: Id, accountId: Id, caller: Id, price: int, buyerZalo: string): Negotiation
  {
    Negotiation(id, accountId, caller, "pending", price, buyerZalo, None)
  }

  /** POST /api/negotiate. */
  function AfterNegotiate(st: Store, session: Option<Id>, accountId: Id, price: int,
                          content: string, buyerZalo: string, fault: Fault): Outcome
  {
    if !Authorized(session) then Outcome(st, Unauthorized)
    else if fault == LookupFails then Outcome(st, ServerError)
    else
      var caller := session.value;
      var existing := Matches(st.negotiations, accountId, caller);
      if existing != [] then
        if fault == MessageFails then Outcome(st, ServerError)
        else Outcome(st.(messages := st.messages + [OfferMessage(existing[0].id, caller, content, price)]), Ok)
      else if fault == CreateFails then Outcome(st, ServerError)
      else
        var created := NewNegotiation(st.nextId, accountId, caller, price, buyerZalo);
        var st1 := st.(negotiations := st.negotiations + [created], nextId := st.nextId + 1);
        if fault == MessageFails then Outcome(st1, ServerError)
        else Outcome(st1.(messages := st1.messages + [OfferMessage(created.id, caller, content, price)]), Ok)
  }

  /** POST /api/negotiate/seller-response; `fails` is the message creation throwing. */
  function AfterSellerResponse(st: Store, session: Option<Id>, negotiationId: Id, price: Option<int>,
                               content: string, kind: string, fails: bool): Outcome
  {
    if !Authorized(session) then Outcome(st, Unauthorized)
    else if fails then Outcome(st, ServerError)
    else Outcome(st.(messages := st.messages + [Message(negotiationId, session.value, content, price, kind)]), Ok)
  }

  function SetDecision(n: Negotiation, id: Id, status: string, note: string): Negotiation
  {
    if n.id == id then n.(status := status, messageFromSeller := Some(note)) else n
  }

  predicate HasId(negs: seq<Negotiation>, id: Id)
  {
    exists k :: 0 <= k < |negs| && negs[k].id == id
  }

  /** PUT /negotiations/{id} with `statusTransaction` and `messageFromSeller`. The
      backend answers an error for an unknown id, and `fails` stands for any other
      error; the result says whether the call succeeded. */
  function AfterUpdate(st: Store, id: Id, status: string, note: string, fails: bool): (Store, bool)
  {
    if fails || !HasId(st.negotiations, id) then (st, false)
    else (st.(negotiations := Map(st.negotiations, n => SetDecision(n, id, status, note))), true)
  }

  /** The backend as a mutable object; each route is a method whose effect is the
      transition function of the same name. */
  class Backend {
    var negotiations: seq<Negotiation>
    var messages: seq<Message>
    var owners: map<Id, Id>
    var nextId: Id

    function State(): Store
      reads this
    {
      Store(negotiations, messages, owners, nextId)
    }

    constructor (owners: map<Id, Id>)
      ensures State() == Store([], [], owners, 1) && Valid(State())
    {
      negotiations := [];
      messages := [];
      this.owners := owners;
      nextId := 1;
    }

    method Negotiate(session: Option<Id>, accountId: Id, price: int, content: string,
                     buyerZalo: string, fault: Fault) returns (reply: Reply)
      modifies this
      ensures AfterNegotiate(old(State()), session, accountId, price, content, buyerZalo, fault)
              == Outcome(State(), reply)
    {
      if !Authorized(session) {
        return Unauthorized;
      }
      var caller := session.value;
      if fault == LookupFails {
        return ServerError;
      }
      var existing := Matches(negotiations, accountId, caller);
      var negotiationId: Id;
      if |existing| > 0 {
        negotiationId := existing[0].id;
      } else {
        if fault == CreateFails {
          return ServerError;
        }
        negotiationId := nextId;
        negotiations := negotiations + [NewNegotiation(nextId, accountId, caller, price, buyerZalo)];
        nextId := nextId + 1;
      }
      if fault == MessageFails {
        return ServerError;
      }
      messages := messages + [OfferMessage(negotiationId, caller, content, price)];
      return Ok;
    }

    method SellerResponse(session: Option<Id>, negotiationId: Id, price: Option<int>,
                          content: string, kind: string, fails: bool) returns (reply: Reply)
      modifies this
      ensures AfterSellerResponse(old(State()), session, negotiationId, price, content, kind, fails)
              == Outcome(State(), reply)
    {
      if !Authorized(session) {
        return Unauthorized;
      }
      if fails {
        return ServerError;
      }
      messages := messages + [Message(negotiationId, session.value, content, price, kind)];
      return Ok;
    }

    method Update(id: Id, status: string, note: string, fails: bool) returns (ok: bool)
      modifies this
      ensures AfterUpdate(old(State()), id, status, note, fails) == (State(), ok)
    {
      if fails || !HasId(negotiations, id) {
        return false;
      }
      negotiations := Map(negotiations, n => SetDecision(n, id, status, note));
      return true;
    }
  }

  // ---------------------------------------------------------------------------
  // POST /api/negotiate
  // ---------------------------------------------------------------------------

  /** Without a session user id nothing is looked up or written. */
  lemma NegotiateNeedsSession(st: Store, session: Option<Id>, accountId: Id, price: int,
                              content: string, buyerZalo: string, fault: Fault)
    ensures var o := AfterNegotiate(st, session, accountId, price, content, buyerZalo, fault);
            (o.reply == Unauthorized <==> !Authorized(session))
            && (o.reply == Unauthorized ==> o.store == st)
  {
  }

  /** Records that exist are never altered or removed: the old negotiations are a
      prefix of the new ones, the old messages a prefix of the new messages. */
  lemma NegotiateKeepsExisting(st: Store, session: Option<Id>, accountId: Id, price: int,
                               content: string, buyerZalo: string, fault: Fault)
    ensures var o := AfterNegotiate(st, session, accountId, price, content, buyerZalo, fault);
            && st.negotiations == o.store.negotiations[..|st.negotiations|]
            && st.messages == o.store.messages[..|st.messages|]
            && o.store.owners == st.owners
  {
  }

  /** When the caller already has a negotiation on the listing, nothing is created and
      the offer attaches to the first match, whatever its status; that record keeps
      its status and offered price. */
  lemma NegotiateResumes(st: Store, caller: Id, accountId: Id, price: int,
                         content: string, buyerZalo: string)
    requires caller != 0
    requires exists k :: 0 <= k < |st.negotiations| && OnPair(st.negotiations[k], accountId, caller)
    ensures Matches(st.negotiations, accountId, caller) != []
    ensures var o := AfterNegotiate(st, Some(caller), accountId, price, content, buyerZalo, NoFault);
            var first := Matches(st.negotiations, accountId, caller)[0];
            && o.reply == Ok
            && o.store.negotiations == st.negotiations
            && o.store.messages == st.messages + [OfferMessage(first.id, caller, content, price)]
            && first in st.negotiations && OnPair(first, accountId, caller)
  {
    var k :| 0 <= k < |st.negotiations| && OnPair(st.negotiations[k], accountId, caller);
    FilterMembership(st.negotiations, n => OnPair(n, accountId, caller), st.negotiations[k]);
  }

  /** With no negotiation on the pair, exactly one is created: status "pending", the
      offered price as given (no validation, 0 included), the given contact, and the
      fresh id, and the offer message points at it. */
  lemma NegotiateCreates(st: Store, caller: Id, accountId: Id, price: int,
                         content: string, buyerZalo: string)
    requires caller != 0
    requires forall k :: 0 <= k < |st.negotiations| ==> !OnPair(st.negotiations[k], accountId, caller)
    ensures var o := AfterNegotiate(st, Some(caller), accountId, price, content, buyerZalo, NoFault);
            var created := Negotiation(st.nextId, accountId, caller, "pending", price, buyerZalo, None);
            && o.reply == Ok
            && o.store.negotiations == st.negotiations + [created]
            && o.store.messages == st.messages + [OfferMessage(st.nextId, caller, content, price)]
            && Matches(o.store.negotiations, accountId, caller) == [created]
  {
    var p := (n: Negotiation) => OnPair(n, accountId, caller);
    FilterDropsAll(st.negotiations, p);
    var created := NewNegotiation(st.nextId, accountId, caller, price, buyerZalo);
    FilterConcat(st.negotiations, [created], p);
    assert Filter([created], p) == [created];
  }

  /** Every successful call appends exactly one message: an "offer" from the caller
      with the body's content and price, on a negotiation of that pair. */
  lemma NegotiateAppendsOneOffer(st: Store, session: Option<Id>, accountId: Id, price: int,
                                 content: string, buyerZalo: string, fault: Fault)
    requires Valid(st)
    ensures var o := AfterNegotiate(st, session, accountId, price, content, buyerZalo, fault);
            o.reply == Ok ==>
              && |o.store.messages| == |st.messages| + 1
              && var m := o.store.messages[|st.messages|];
              && m.kind == "offer" && m.senderId == session.value
              && m.content == content && m.price == Some(price)
              && exists k :: 0 <= k < |o.store.negotiations|
                   && o.store.negotiations[k].id == m.negotiationId
                   && OnPair(o.store.negotiations[k], accountId, session.value)
  {
    var o := AfterNegotiate(st, session, accountId, price, content, buyerZalo, fault);
    if o.reply == Ok {
      var caller := session.value;
      var existing := Matches(st.negotiations, accountId, caller);
      if existing != [] {
        var first := existing[0];
        var k :| 0 <= k < |st.negotiations| && st.negotiations[k] == first;
        assert o.store.negotiations[k].id == first.id;
      } else {
        assert o.store.negotiations[|st.negotiations|].id == st.nextId;
      }
    }
  }

  /** A failure of the message creation after a negotiation was created answers 500
      and leaves that negotiation in place without any message. */
  lemma NegotiateNoRollback(st: Store, caller: Id, accountId: Id, price: int,
                            content: string, buyerZalo: string)
    requires caller != 0
    requires forall k :: 0 <= k < |st.negotiations| ==> !OnPair(st.negotiations[k], accountId, caller)
    ensures var o := AfterNegotiate(st, Some(caller), accountId, price, content, buyerZalo, MessageFails);
            && o.reply == ServerError
            && o.store.negotiations == st.negotiations + [NewNegotiation(st.nextId, accountId, caller, price, buyerZalo)]
            && o.store.messages == st.messages
  {
    FilterDropsAll(st.negotiations, n => OnPair(n, accountId, caller));
  }

  /** At most one negotiation per (listing, buyer) pair. */
  predicate AtMostOnePerPair(negs: seq<Negotiation>)
  {
    forall i, j :: 0 <= i < j < |negs| ==>
      !(negs[i].accountId == negs[j].accountId && negs[i].buyerId == negs[j].buyerId)
  }

  lemma NoMatchMeansNone(negs: seq<Negotiation>, accountId: Id, buyerId: Id)
    requires Matches(negs, accountId, buyerId) == []
    ensures forall k :: 0 <= k < |negs| ==> !OnPair(negs[k], accountId, buyerId)
  {
    forall k | 0 <= k < |negs| ensures !OnPair(negs[k], accountId, buyerId) {
      FilterMembership(negs, n => OnPair(n, accountId, buyerId), negs[k]);
    }
  }

  lemma NegotiatePreservesValid(st: Store, session: Option<Id>, accountId: Id, price: int,
                                content: string, buyerZalo: string, fault: Fault)
    requires Valid(st)
    ensures Valid(AfterNegotiate(st, session, accountId, price, content, buyerZalo, fault).store)
  {
    if Authorized(session) && fault != LookupFails
       && Matches(st.negotiations, accountId, session.value) == [] && fault != CreateFails {
      AppendFresh(st, NewNegotiation(st.nextId, accountId, session.value, price, buyerZalo));
    }
  }

  /** A record that takes the next id keeps the ids positive, below the counter and
      distinct. */
  lemma AppendFresh(st: Store, created: Negotiation)
    requires Valid(st) && created.id == st.nextId
    ensures Valid(st.(negotiations := st.negotiations + [created], nextId := st.nextId + 1))
  {
    var ns := st.negotiations + [created];
    forall k | 0 <= k < |ns| ensures 0 < ns[k].id < st.nextId + 1 {
      if k < |st.negotiations| {
        assert ns[k] == st.negotiations[k];
      }
    }
    forall i, j | 0 <= i < j < |ns| ensures ns[i].id != ns[j].id {
      assert ns[i] == st.negotiations[i];
      if j < |st.negotiations| {
        assert ns[j] == st.negotiations[j];
      }
    }
  }

  /** Sequentially, opening never makes a second negotiation for a pair. */
  lemma NegotiatePreservesPairs(st: Store, session: Option<Id>, accountId: Id, price: int,
                                content: string, buyerZalo: string, fault: Fault)
    requires AtMostOnePerPair(st.negotiations)
    ensures AtMostOnePerPair(AfterNegotiate(st, session, accountId, price, content, buyerZalo, fault).store.negotiations)
  {
    if Authorized(session) && fault != LookupFails {
      var caller := session.value;
      if Matches(st.negotiations, accountId, caller) == [] {
        NoMatchMeansNone(st.negotiations, accountId, caller);
      }
    }
  }

  /** Two offers on the same pair, one after the other, share one negotiation. */
  lemma NegotiateTwice(st: Store, caller: Id, accountId: Id, price1: int, price2: int,
                       content1: string, content2: string, zalo1: string, zalo2: string)
    requires caller != 0 && Valid(st) && AtMostOnePerPair(st.negotiations)
    ensures var o1 := AfterNegotiate(st, Some(caller), accountId, price1, content1, zalo1, NoFault);
            var o2 := AfterNegotiate(o1.store, Some(caller), accountId, price2, content2, zalo2, NoFault);
            && |Matches(o2.store.negotiations, accountId, caller)| == 1
            && o2.store.negotiations == o1.store.negotiations
            && o2.store.messages[|o2.store.messages| - 1].negotiationId
               == o1.store.messages[|o1.store.messages| - 1].negotiationId
  {
    var p := (n: Negotiation) => OnPair(n, accountId, caller);
    var o1 := AfterNegotiate(st, Some(caller), accountId, price1, content1, zalo1, NoFault);
    var existing := Matches(st.negotiations, accountId, caller);
    if existing == [] {
      NoMatchMeansNone(st.negotiations, accountId, caller);
      NegotiateCreates(st, caller, accountId, price1, content1, zalo1);
    } else {
      var first := existing[0];
      var k :| 0 <= k < |st.negotiations| && st.negotiations[k] == first;
      OnlyMatch(st.negotiations, k, accountId, caller);
    }
  }

  /** Under pair uniqueness, the record on a pair is the only match. */
  lemma {:induction false} OnlyMatch(negs: seq<Negotiation>, k: nat, accountId: Id, buyerId: Id)
    requires AtMostOnePerPair(negs) && k < |negs| && OnPair(negs[k], accountId, buyerId)
    ensures Matches(negs, accountId, buyerId) == [negs[k]]
  {
    var p := (n: Negotiation) => OnPair(n, accountId, buyerId);
    assert negs == negs[..k] + [negs[k]] + negs[k + 1..];
    FilterConcat(negs[..k] + [negs[k]], negs[k + 1..], p);
    FilterConcat(negs[..k], [negs[k]], p);
    FilterDropsAll(negs[..k], p);
    FilterDropsAll(negs[k + 1..], p);
    assert Filter([negs[k]], p) == [negs[k]];
  }

  // ---------------------------------------------------------------------------
  // POST /api/negotiate/seller-response and the status update
  // ---------------------------------------------------------------------------

  /** Appending a seller message never changes a negotiation, whatever its type
      ("accept" and "reject" included), and checks neither ownership nor status: any
      signed-in caller appends exactly the message given. */
  lemma SellerResponseOnlyAppends(st: Store, session: Option<Id>, negotiationId: Id,
                                  price: Option<int>, content: string, kind: string, fails: bool)
    ensures var o := AfterSellerResponse(st, session, negotiationId, price, content, kind, fails);
            && o.store.negotiations == st.negotiations
            && o.store.owners == st.owners && o.store.nextId == st.nextId
            && (o.reply == Ok <==> Authorized(session) && !fails)
            && (o.reply == Ok ==> o.store.messages == st.messages + [Message(negotiationId, session.value, content, price, kind)])
            && (o.reply != Ok ==> o.store == st)
  {
  }

  /** A successful update sets exactly the status given and the seller's note on the
      record with that id; every other record and field is as before. */
  lemma UpdateChangesOnlyTarget(st: Store, id: Id, status: string, note: string, fails: bool)
    ensures var (st2, ok) := AfterUpdate(st, id, status, note, fails);
            && (ok <==> !fails && HasId(st.negotiations, id))
            && st2.messages == st.messages && st2.owners == st.owners && st2.nextId == st.nextId
            && |st2.negotiations| == |st.negotiations|
            && forall k :: 0 <= k < |st.negotiations| ==>
                 var before := st.negotiations[k];
                 var after := st2.negotiations[k];
                 if ok && before.id == id
                 then after == before.(status := status, messageFromSeller := Some(note))
                 else after == before
  {
  }

  lemma UpdatePreserves(st: Store, id: Id, status: string, note: string, fails: bool)
    requires Valid(st) && AtMostOnePerPair(st.negotiations)
    ensures Valid(AfterUpdate(st, id, status, note, fails).0)
    ensures AtMostOnePerPair(AfterUpdate(st, id, status, note, fails).0.negotiations)
  {
    UpdateChangesOnlyTarget(st, id, status, note, fails);
  }

  // ---------------------------------------------------------------------------
  // Sequential runs
  // ---------------------------------------------------------------------------

  datatype Request =
    | NegotiateRequest(session: Option<Id>, accountId: Id, price: int, content: string, buyerZalo: string, fault: Fault)
    | SellerResponseRequest(session: Option<Id>, negotiationId: Id, messagePrice: Option<int>, content: string, kind: string, fails: bool)
    | UpdateRequest(id: Id, status: string, note: string, fails: bool)

  function Step(st: Store, r: Request): Store
  {
    match r
    case NegotiateRequest(session, accountId, price, content, buyerZalo, fault) =>
      AfterNegotiate(st, session, accountId, price, content, buyerZalo, fault).store
    case SellerResponseRequest(session, negotiationId, price, content, kind, fails) =>
      AfterSellerResponse(st, session, negotiationId, price, content, kind, fails).store
    case UpdateRequest(id, status, note, fails) =>
      AfterUpdate(st, id, status, note, fails).0
  }

  /** The requests served one after another. */
  function Run(st: Store, rs: seq<Request>): Store
    decreases |rs|
  {
    if rs == [] then st else Run(Step(st, rs[0]), rs[1..])
  }

  /** Served one at a time, any mix of requests keeps the ids valid and at most one
      negotiation per (listing, buyer) pair. */
  lemma {:induction false} RunPreservesPairs(st: Store, rs: seq<Request>)
    requires Valid(st) && AtMostOnePerPair(st.negotiations)
    ensures Valid(Run(st, rs)) && AtMostOnePerPair(Run(st, rs).negotiations)
    decreases |rs|
  {
    if rs != [] {
      match rs[0] {
        case NegotiateRequest(session, accountId, price, content, buyerZalo, fault) =>
          NegotiatePreservesValid(st, session, accountId, price, content, buyerZalo, fault);
          NegotiatePreservesPairs(st, session, accountId, price, content, buyerZalo, fault);
        case SellerResponseRequest(session, negotiationId, price, content, kind, fails) =>
        case UpdateRequest(id, status, note, fails) =>
          UpdatePreserves(st, id, status, note, fails);
      }
      RunPreservesPairs(Step(st, rs[0]), rs[1..]);
    }
  }

  /** Only updates change a status: a run of negotiate and seller-response requests
      keeps the status of every record that existed before. */
  lemma {:induction false} OnlyUpdatesChangeStatus(st: Store, rs: seq<Request>)
    requires forall k :: 0 <= k < |rs| ==> !rs[k].UpdateRequest?
    ensures |Run(st, rs).negotiations| >= |st.negotiations|
    ensures forall k :: 0 <= k < |st.negotiations| ==> Run(st, rs).negotiations[k] == st.negotiations[k]
    decreases |rs|
  {
    if rs != [] {
      var next := Step(st, rs[0]);
      match rs[0] {
        case NegotiateRequest(session, accountId, price, content, buyerZalo, fault) =>
          NegotiateKeepsExisting(st, session, accountId, price, content, buyerZalo, fault);
        case SellerResponseRequest(session, negotiationId, price, content, kind, fails) =>
      }
      assert forall k :: 0 <= k < |st.negotiations| ==> next.negotiations[k] == st.negotiations[k];
      OnlyUpdatesChangeStatus(next, rs[1..]);
    }
  }
}
