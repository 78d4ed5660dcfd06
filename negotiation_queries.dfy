/**
 * The read-only negotiation queries:
 *   - GET /api/negotiations/all?role=… (src/app/api/negotiations/all/route.ts);
 *   - GET /api/negotiations?accountId=… (src/app/api/negotiations/route.ts);
 *   - getAccountWithNegotiation (src/lib/account.ts), a listing by document id with
 *     a flag saying whether the signed-in user already negotiates on it.
 * The two GET routes check a JWT (`getToken`), whose `sub` is the user id; the
 * backend response is what the routes return.
 */
module NegotiationQueries {
  import opened AccountTypes
  import opened Seqs
  import opened Text
  import opened NegotiationStore

  /** What the backend fetch of a GET route gives: the JSON listing, an error body
      (a rejected token, a malformed filter), or a throw (the network, an unreadable
      body) that the route does not catch. */
  datatype Fetched = Served | ErrorBody(body: string) | FetchThrows

  /** The route's reply: its own 401 and 400, the listing, the backend's error body
      passed on as it is, and the unhandled throw. */
  datatype ListReply = Denied | MissingAccountId | Listed(data: seq<Negotiation>) | Forwarded(body: string) | Crashed

  /** The routes never look at the backend's status, so an error body goes back as a
      200; an uncaught throw becomes a 500. */
  function ListHttpStatus(r: ListReply): nat
  {
    match r
    case Denied => 401
    case MissingAccountId => 400
    case Listed(_) => 200
    case Forwarded(_) => 200
    case Crashed => 500
  }

  /** `NextResponse.json(await res.json())` for the selection `data`. */
  function Forward(fetched: Fetched, data: seq<Negotiation>): ListReply
  {
    match fetched
    case Served => Listed(data)
    case ErrorBody(body) => Forwarded(body)
    case FetchThrows => Crashed
  }

  /** `searchParams.get("role") || "buyer"`. */
  function EffectiveRole(role: Option<string>): string
  {
    if role.None? || role.value == "" then "buyer" else role.value
  }

  predicate SoldBy(owners: map<Id, Id>, n: Negotiation, user: Id)
  {
    n.accountId in owners && owners[n.accountId] == user
  }

  /** GET /api/negotiations/all: exactly "seller" selects the negotiations on the
      caller's listings, every other role those the caller opened as buyer. */
  function ListByRole(token: Option<Id>, role: Option<string>, st: Store, fetched: Fetched): ListReply
  {
    if token.None? then Denied
    else
      var user := token.value;
      if EffectiveRole(role) == "seller"
      then Forward(fetched, Filter(st.negotiations, (n: Negotiation) => SoldBy(st.owners, n, user)))
      else Forward(fetched, Filter(st.negotiations, (n: Negotiation) => n.buyerId == user))
  }

  /** GET /api/negotiations: the token is checked first, then the parameter; the query
      compares it with the listing id's decimal text. */
  function ListByListing(token: Option<Id>, accountId: Option<string>, st: Store, fetched: Fetched): ListReply
  {
    if token.None? then Denied
    else if accountId.None? || accountId.value == "" then MissingAccountId
    else Forward(fetched, Filter(st.negotiations, (n: Negotiation) => NatToString(n.accountId) == accountId.value))
  }

  datatype AccountLookup = AccountLookup(data: seq<Account>, hasNegotiation: bool)

  /** Which `apiFetch` of getAccountWithNegotiation throws (it throws on any reply
      that is not ok), if any. */
  datatype LookupFault = NoLookupFault | AccountsQueryFails | NegotiationQueryFails

  /** getAccountWithNegotiation either throws to its caller or returns. */
  datatype LookupResult = Threw | Returned(lookup: AccountLookup)

  /** Whether getAccountWithNegotiation asks for the user's negotiations at all. */
  predicate AsksForNegotiations(session: Option<Id>, data: seq<Account>)
  {
    Authorized(session) && data != [] && data[0].id != 0
  }

  /** getAccountWithNegotiation over the listings `accounts` and the store. */
  function AccountWithNegotiation(session: Option<Id>, documentId: string,
                                  accounts: seq<Account>, st: Store, fault: LookupFault): LookupResult
  {
    if fault == AccountsQueryFails then Threw
    else
      var data := Filter(accounts, (a: Account) => a.documentId == documentId);
      if !AsksForNegotiations(session, data) then Returned(AccountLookup(data, false))
      else if fault == NegotiationQueryFails then Threw
      else Returned(AccountLookup(data, Matches(st.negotiations, data[0].id, session.value) != []))
  }

  // ---------------------------------------------------------------------------
  // GET /api/negotiations/all
  // ---------------------------------------------------------------------------

  /** A missing role, an empty one and "buyer" are the same query. */
  lemma RoleDefaultsToBuyer(token: Option<Id>, st: Store, fetched: Fetched)
    ensures ListByRole(token, None, st, fetched) == ListByRole(token, Some(""), st, fetched)
            == ListByRole(token, Some("buyer"), st, fetched)
  {
  }

  /** The selection by role: without a token the reply is 401 whatever the backend
      would say; with one, when the backend serves the query, the reply lists, in store
      order, exactly the negotiations on the caller's listings for the role "seller",
      and exactly those the caller opened for any other role (misspellings included). */
  lemma ListByRoleSelects(user: Id, role: Option<string>, st: Store, fetched: Fetched)
    ensures ListByRole(None, role, st, fetched) == Denied
    ensures var r := ListByRole(Some(user), role, st, Served);
            && r.Listed?
            && IsSubsequence(r.data, st.negotiations)
            && forall n :: n in r.data <==>
                 n in st.negotiations
                 && (if role == Some("seller") then SoldBy(st.owners, n, user) else n.buyerId == user)
  {
    var seller := (n: Negotiation) => SoldBy(st.owners, n, user);
    var buyer := (n: Negotiation) => n.buyerId == user;
    if EffectiveRole(role) == "seller" {
      FilterIsSubsequence(st.negotiations, seller);
      forall n ensures n in Filter(st.negotiations, seller) <==> n in st.negotiations && seller(n) {
        FilterMembership(st.negotiations, seller, n);
      }
    } else {
      FilterIsSubsequence(st.negotiations, buyer);
      forall n ensures n in Filter(st.negotiations, buyer) <==> n in st.negotiations && buyer(n) {
        FilterMembership(st.negotiations, buyer, n);
      }
    }
  }

  /** With a token, a backend error body goes back unchanged with status 200, and a
      failed fetch is an unhandled 500, for either role. */
  lemma ListByRoleFailures(user: Id, role: Option<string>, st: Store, body: string)
    ensures ListByRole(Some(user), role, st, ErrorBody(body)) == Forwarded(body)
    ensures ListHttpStatus(ListByRole(Some(user), role, st, ErrorBody(body))) == 200
    ensures ListByRole(Some(user), role, st, FetchThrows) == Crashed
    ensures ListHttpStatus(ListByRole(Some(user), role, st, FetchThrows)) == 500
  {
  }

  // ---------------------------------------------------------------------------
  // GET /api/negotiations
  // ---------------------------------------------------------------------------

  /** 401 comes before 400, and both come before the backend is asked: their replies
      do not depend on what the backend would say. */
  lemma ListByListingGuards(token: Option<Id>, accountId: Option<string>, st: Store, fetched: Fetched)
    ensures token.None? ==> ListByListing(token, accountId, st, fetched) == Denied
    ensures token.Some? && (accountId.None? || accountId == Some(""))
            ==> ListByListing(token, accountId, st, fetched) == MissingAccountId
    ensures ListByListing(token, accountId, st, Served).Listed?
            <==> token.Some? && accountId.Some? && accountId.value != ""
  {
  }

  /** Past the guards, a backend error body (a listing id the backend cannot read,
      say) goes back unchanged with status 200, and a failed fetch is a 500. */
  lemma ListByListingFailures(user: Id, accountId: string, st: Store, body: string)
    requires accountId != ""
    ensures ListByListing(Some(user), Some(accountId), st, ErrorBody(body)) == Forwarded(body)
    ensures ListHttpStatus(ListByListing(Some(user), Some(accountId), st, ErrorBody(body))) == 200
    ensures ListByListing(Some(user), Some(accountId), st, FetchThrows) == Crashed
  {
  }

  lemma NatToStringInjective(a: nat, b: nat)
    requires NatToString(a) == NatToString(b)
    ensures a == b
  {
    DigitsValueOfNatToString(a);
    DigitsValueOfNatToString(b);
  }

  /** Asked for a listing id, the reply is every negotiation on that listing, in store
      order, whoever the buyer or the caller is. */
  lemma ListByListingOfId(user: Id, listing: Id, st: Store)
    ensures ListByListing(Some(user), Some(NatToString(listing)), st, Served)
            == Listed(Filter(st.negotiations, (n: Negotiation) => n.accountId == listing))
  {
    var byText := (n: Negotiation) => NatToString(n.accountId) == NatToString(listing);
    var byId := (n: Negotiation) => n.accountId == listing;
    forall k | 0 <= k < |st.negotiations| ensures byText(st.negotiations[k]) == byId(st.negotiations[k]) {
      if byText(st.negotiations[k]) {
        NatToStringInjective(st.negotiations[k].accountId, listing);
      }
    }
    FilterAgree(st.negotiations, byText, byId);
  }

  // ---------------------------------------------------------------------------
  // getAccountWithNegotiation
  // ---------------------------------------------------------------------------

  /** When the listings query fails the function throws; when it returns, `data` is the
      whole list of listings with that document id, in order, not only the first. */
  lemma AccountDataIsWholeMatch(session: Option<Id>, documentId: string, accounts: seq<Account>,
                                st: Store, fault: LookupFault)
    ensures fault == AccountsQueryFails ==> AccountWithNegotiation(session, documentId, accounts, st, fault) == Threw
    ensures var res := AccountWithNegotiation(session, documentId, accounts, st, fault);
            res.Returned? ==>
              && IsSubsequence(res.lookup.data, accounts)
              && forall a :: a in res.lookup.data <==> a in accounts && a.documentId == documentId
  {
    var p := (a: Account) => a.documentId == documentId;
    FilterIsSubsequence(accounts, p);
    forall a ensures a in Filter(accounts, p) <==> a in accounts && p(a) {
      FilterMembership(accounts, p, a);
    }
  }

  /** Without a signed-in user, or without a listing with that document id, no
      negotiation query is made, so its failure cannot surface, and the flag is false. */
  lemma NoFlagWithoutUserOrListing(session: Option<Id>, documentId: string, accounts: seq<Account>,
                                   st: Store, fault: LookupFault)
    requires fault != AccountsQueryFails
    requires !Authorized(session) || forall k :: 0 <= k < |accounts| ==> accounts[k].documentId != documentId
    ensures var res := AccountWithNegotiation(session, documentId, accounts, st, fault);
            res.Returned? && !res.lookup.hasNegotiation
  {
    if Authorized(session) {
      FilterDropsAll(accounts, (a: Account) => a.documentId == documentId);
    }
  }

  /** Otherwise the negotiation query is made: its failure throws, and a reply sets the
      flag exactly when the user has a negotiation on the first listing found, whatever
      its status. */
  lemma FlagMeansPairExists(user: Id, documentId: string, accounts: seq<Account>, st: Store, fault: LookupFault)
    requires user != 0
    ensures var data := Filter(accounts, (a: Account) => a.documentId == documentId);
            var res := AccountWithNegotiation(Some(user), documentId, accounts, st, fault);
            fault != AccountsQueryFails && data != [] && data[0].id != 0 ==>
              && (res == Threw <==> fault == NegotiationQueryFails)
              && (res.Returned? ==>
                    (res.lookup.hasNegotiation <==>
                       exists k :: 0 <= k < |st.negotiations| && OnPair(st.negotiations[k], data[0].id, user)))
  {
    var data := Filter(accounts, (a: Account) => a.documentId == documentId);
    if data != [] && data[0].id != 0 {
      var listing := data[0].id;
      var found := Matches(st.negotiations, listing, user);
      if found == [] {
        NoMatchMeansNone(st.negotiations, listing, user);
      } else {
        assert found[0] in st.negotiations;
        var k :| 0 <= k < |st.negotiations| && st.negotiations[k] == found[0];
        assert OnPair(st.negotiations[k], listing, user);
      }
    }
  }
}
