/**
 * The negotiations page (src/app/negotiations/page.tsx): the buyer and seller lists
 * loaded once, the selected negotiation, whether the user is its buyer, the
 * "last offer" shown in the sidebar, the thread in time order and the offer-price
 * field that keeps digits only.
 */
module NegotiationsPage {
  import opened AccountTypes
  import opened Seqs
  import opened Text
  import NegotiationStore
  import NegotiationQueries

  /** A message price as the JSON carries it: absent, null, or a number. */
  datatype JsPrice = Undefined | Null | Amount(value: int)

  /** A thread message; `createdAt` is the time `new Date(createdAt).getTime()` gives. */
  datatype ThreadMessage = ThreadMessage(id: Id, senderId: Id, content: Option<string>, price: JsPrice, createdAt: int)

  datatype NegotiationView = NegotiationView(id: Id, status: string, messages: seq<ThreadMessage>)

  /** `s.find(p)`. */
  function Find<T>(s: seq<T>, p: T -> bool): Option<T>
  {
    var i := FindIndex(s, p);
    if i < |s| then Some(s[i]) else None
  }

  /** `n.id === selectedId`: nothing has the id null. */
  predicate HasSelectedId(n: NegotiationView, selected: Option<Id>)
  {
    selected == Some(n.id)
  }

  // ---------------------------------------------------------------------------
  // Selection
  // ---------------------------------------------------------------------------

  /** After loading: the first buyer negotiation's id when there is one (even the id 0),
      otherwise the first seller negotiation's id unless it is missing or 0. */
  function InitialSelection(buyer: seq<NegotiationView>, seller: seq<NegotiationView>): Option<Id>
  {
    if |buyer| > 0 then Some(buyer[0].id)
    else if |seller| > 0 && seller[0].id != 0 then Some(seller[0].id)
    else None
  }

  /** The effect on `selectedId`: `data.find(n => n.id === selectedId)` is truthy. */
  predicate IsBuyerOf(buyer: seq<NegotiationView>, selected: Option<Id>)
  {
    Find(buyer, n => HasSelectedId(n, selected)).Some?
  }

  /** The sidebar: buyer entries, then seller entries. */
  function Sidebar(buyer: seq<NegotiationView>, seller: seq<NegotiationView>): seq<NegotiationView>
  {
    buyer + seller
  }

  function SelectedNegotiation(buyer: seq<NegotiationView>, seller: seq<NegotiationView>, selected: Option<Id>): Option<NegotiationView>
  {
    Find(Sidebar(buyer, seller), n => HasSelectedId(n, selected))
  }

  lemma InitialSelectionCases(buyer: seq<NegotiationView>, seller: seq<NegotiationView>)
    ensures buyer != [] ==> InitialSelection(buyer, seller) == Some(buyer[0].id)
    ensures buyer == [] && seller != [] && seller[0].id != 0 ==> InitialSelection(buyer, seller) == Some(seller[0].id)
    ensures InitialSelection(buyer, seller).None? <==> buyer == [] && (seller == [] || seller[0].id == 0)
  {
  }

  /** isBuyer holds exactly when the selected id occurs in the buyer list. */
  lemma IsBuyerIff(buyer: seq<NegotiationView>, selected: Option<Id>)
    ensures IsBuyerOf(buyer, selected) <==>
            selected.Some? && exists k :: 0 <= k < |buyer| && buyer[k].id == selected.value
  {
    var p := (n: NegotiationView) => HasSelectedId(n, selected);
    var i := FindIndex(buyer, p);
    if selected.Some? && exists k :: 0 <= k < |buyer| && buyer[k].id == selected.value {
      var k :| 0 <= k < |buyer| && buyer[k].id == selected.value;
      assert p(buyer[k]);
      assert i <= k;
    }
  }

  /** The selected negotiation is the first entry of the sidebar with that id; an id
      found in the buyer list is taken from there, and then isBuyer holds. */
  lemma SelectedPrefersBuyer(buyer: seq<NegotiationView>, seller: seq<NegotiationView>, selected: Option<Id>)
    ensures match SelectedNegotiation(buyer, seller, selected)
            case None => forall k :: 0 <= k < |buyer| + |seller| ==> !HasSelectedId(Sidebar(buyer, seller)[k], selected)
            case Some(n) => exists k :: 0 <= k < |buyer| + |seller| && Sidebar(buyer, seller)[k] == n && HasSelectedId(n, selected)
                              && forall j :: 0 <= j < k ==> !HasSelectedId(Sidebar(buyer, seller)[j], selected)
    ensures IsBuyerOf(buyer, selected) ==>
            SelectedNegotiation(buyer, seller, selected) == Find(buyer, n => HasSelectedId(n, selected))
    ensures !IsBuyerOf(buyer, selected) ==>
            SelectedNegotiation(buyer, seller, selected) == Find(seller, n => HasSelectedId(n, selected))
  {
    var p := (n: NegotiationView) => HasSelectedId(n, selected);
    var all := Sidebar(buyer, seller);
    var i := FindIndex(all, p);
    var b := FindIndex(buyer, p);
    if b < |buyer| {
      assert all[b] == buyer[b];
      assert i == b by {
        assert i <= b;
        assert forall j :: 0 <= j < b ==> all[j] == buyer[j];
      }
    } else {
      assert forall j :: 0 <= j < |buyer| ==> !p(all[j]);
      FindIndexAfterPrefix(buyer, seller, p);
    }
  }

  lemma {:induction false} FindIndexAfterPrefix<T>(a: seq<T>, b: seq<T>, p: T -> bool)
    requires forall j :: 0 <= j < |a| ==> !p(a[j])
    ensures FindIndex(a + b, p) == |a| + FindIndex(b, p)
  {
    if a != [] {
      assert (a + b)[1..] == a[1..] + b;
      FindIndexAfterPrefix(a[1..], b, p);
    } else {
      assert a + b == b;
    }
  }

  // ---------------------------------------------------------------------------
  // The last offer: `[...messages].reverse().find((msg) => msg.price !== undefined)`
  // ---------------------------------------------------------------------------

  /** A null price is not `undefined`, so it counts. */
  predicate Priced(m: ThreadMessage)
  {
    m.price != Undefined
  }

  function LastOffer(messages: seq<ThreadMessage>): Option<ThreadMessage>
  {
    Find(Reverse(messages), Priced)
  }

  /** The last offer is the last message in array order with a defined price, whatever
      the times say; there is none when no message has one. */
  lemma LastOfferIsLastPriced(messages: seq<ThreadMessage>)
    ensures match LastOffer(messages)
            case None => forall k :: 0 <= k < |messages| ==> !Priced(messages[k])
            case Some(m) => exists k :: 0 <= k < |messages| && messages[k] == m && Priced(m)
                              && forall j :: k < j < |messages| ==> !Priced(messages[j])
  {
    var r := Reverse(messages);
    var i := FindIndex(r, Priced);
    if i < |r| {
      var k := |messages| - 1 - i;
      assert messages[k] == r[i];
      forall j | k < j < |messages| ensures !Priced(messages[j]) {
        assert messages[j] == r[|messages| - 1 - j];
      }
    } else {
      forall k | 0 <= k < |messages| ensures !Priced(messages[k]) {
        assert messages[k] == r[|messages| - 1 - k];
      }
    }
  }

  /** An older offer placed later in the array wins over a newer one, and a message
      whose price is null is taken as the offer. */
  lemma LastOfferIgnoresTime()
    ensures var newer := ThreadMessage(1, 7, None, Amount(90), 200);
            var older := ThreadMessage(2, 8, None, Amount(80), 100);
            LastOffer([newer, older]) == Some(older)
    ensures var priced := ThreadMessage(1, 7, None, Amount(90), 100);
            var nulled := ThreadMessage(2, 8, None, Null, 200);
            var plain := ThreadMessage(3, 8, Some("ok"), Undefined, 300);
            LastOffer([priced, nulled, plain]) == Some(nulled)
  {
    var priced := ThreadMessage(1, 7, None, Amount(90), 100);
    var nulled := ThreadMessage(2, 8, None, Null, 200);
    var plain := ThreadMessage(3, 8, Some("ok"), Undefined, 300);
    assert Reverse([priced, nulled, plain]) == [plain, nulled, priced];
    var newer := ThreadMessage(1, 7, None, Amount(90), 200);
    var older := ThreadMessage(2, 8, None, Amount(80), 100);
    assert Reverse([newer, older]) == [older, newer];
  }

  // ---------------------------------------------------------------------------
  // The thread: a copy sorted by time with a stable sort
  // ---------------------------------------------------------------------------

  predicate SortedByTime(s: seq<ThreadMessage>)
  {
    forall i, j :: 0 <= i < j < |s| ==> s[i].createdAt <= s[j].createdAt
  }

  /** Puts m before the first element that is not earlier than m. */
  function Insert(m: ThreadMessage, s: seq<ThreadMessage>): seq<ThreadMessage>
  {
    if s == [] || m.createdAt <= s[0].createdAt then [m] + s else [s[0]] + Insert(m, s[1..])
  }

  /** `[...messages].sort((a, b) => time(a) - time(b))`. */
  function SortByTime(s: seq<ThreadMessage>): seq<ThreadMessage>
  {
    if s == [] then [] else Insert(s[0], SortByTime(s[1..]))
  }

  function AtTime(s: seq<ThreadMessage>, t: int): seq<ThreadMessage>
  {
    Filter(s, (m: ThreadMessage) => m.createdAt == t)
  }

  lemma {:induction false} InsertMultiset(m: ThreadMessage, s: seq<ThreadMessage>)
    ensures multiset(Insert(m, s)) == multiset(s) + multiset{m}
  {
    if s != [] && m.createdAt > s[0].createdAt {
      InsertMultiset(m, s[1..]);
      assert s == [s[0]] + s[1..];
    }
  }

  lemma {:induction false} InsertBound(m: ThreadMessage, s: seq<ThreadMessage>, lo: int)
    requires lo <= m.createdAt && forall k :: 0 <= k < |s| ==> lo <= s[k].createdAt
    ensures forall k :: 0 <= k < |Insert(m, s)| ==> lo <= Insert(m, s)[k].createdAt
  {
    if s != [] && m.createdAt > s[0].createdAt {
      InsertBound(m, s[1..], lo);
    }
  }

  lemma {:induction false} InsertSorted(m: ThreadMessage, s: seq<ThreadMessage>)
    requires SortedByTime(s)
    ensures SortedByTime(Insert(m, s))
  {
    if s != [] && m.createdAt > s[0].createdAt {
      var rest := s[1..];
      InsertSorted(m, rest);
      InsertBound(m, rest, s[0].createdAt);
      var r := Insert(m, rest);
      var out := [s[0]] + r;
      forall i, j | 0 <= i < j < |out| ensures out[i].createdAt <= out[j].createdAt {
        if i == 0 {
          assert out[j] == r[j - 1];
        } else {
          assert out[i] == r[i - 1] && out[j] == r[j - 1];
        }
      }
    }
  }

  lemma {:induction false} InsertAtTime(m: ThreadMessage, s: seq<ThreadMessage>, t: int)
    ensures AtTime(Insert(m, s), t) == (if m.createdAt == t then [m] else []) + AtTime(s, t)
  {
    var p := (x: ThreadMessage) => x.createdAt == t;
    if s == [] || m.createdAt <= s[0].createdAt {
      FilterConcat([m], s, p);
    } else {
      InsertAtTime(m, s[1..], t);
      FilterConcat([s[0]], Insert(m, s[1..]), p);
      FilterConcat([s[0]], s[1..], p);
      assert s == [s[0]] + s[1..];
    }
  }

  /** The thread is the same messages in time order, and messages with equal times keep
      their array order. */
  lemma {:induction false} SortByTimeCorrect(s: seq<ThreadMessage>)
    ensures SortedByTime(SortByTime(s))
    ensures multiset(SortByTime(s)) == multiset(s)
    ensures forall t :: AtTime(SortByTime(s), t) == AtTime(s, t)
  {
    if s != [] {
      SortByTimeCorrect(s[1..]);
      InsertSorted(s[0], SortByTime(s[1..]));
      InsertMultiset(s[0], SortByTime(s[1..]));
      assert s == [s[0]] + s[1..];
      forall t ensures AtTime(SortByTime(s), t) == AtTime(s, t) {
        InsertAtTime(s[0], SortByTime(s[1..]), t);
        FilterConcat([s[0]], s[1..], (x: ThreadMessage) => x.createdAt == t);
      }
    }
  }

  /** A message is drawn on the user's side exactly when the user sent it; signed out,
      no message is. */
  predicate IsSelf(m: ThreadMessage, currentUserId: Option<Id>)
  {
    currentUserId == Some(m.senderId)
  }

  // ---------------------------------------------------------------------------
  // The main panel
  // ---------------------------------------------------------------------------

  /** The footer: the offer form for a buyer, the reply form otherwise. */
  datatype Footer = OfferForm | ReplyForm

  datatype Panel =
    | Placeholder
    | Thread(negotiation: NegotiationView, thread: seq<ThreadMessage>, footer: Footer)

  function MainPanel(buyer: seq<NegotiationView>, seller: seq<NegotiationView>,
                     selected: Option<Id>, isBuyer: bool): Panel
  {
    match SelectedNegotiation(buyer, seller, selected)
    case None => Placeholder
    case Some(n) => Thread(n, SortByTime(n.messages), if isBuyer then OfferForm else ReplyForm)
  }

  /** The footer depends on isBuyer alone, not on the negotiation's status, and the
      thread shows the selected negotiation's messages in time order. */
  lemma PanelFooter(buyer: seq<NegotiationView>, seller: seq<NegotiationView>, selected: Option<Id>, isBuyer: bool,
                    buyer2: seq<NegotiationView>, seller2: seq<NegotiationView>, selected2: Option<Id>)
    ensures var p := MainPanel(buyer, seller, selected, isBuyer);
            var q := MainPanel(buyer2, seller2, selected2, isBuyer);
            p.Thread? && q.Thread? ==> p.footer == q.footer
    ensures var p := MainPanel(buyer, seller, selected, isBuyer);
            p.Thread? ==> SortedByTime(p.thread) && multiset(p.thread) == multiset(p.negotiation.messages)
  {
    var p := MainPanel(buyer, seller, selected, isBuyer);
    if p.Thread? {
      SortByTimeCorrect(p.negotiation.messages);
    }
  }

  // ---------------------------------------------------------------------------
  // The offer price field
  // ---------------------------------------------------------------------------

  /** `Intl.NumberFormat("vi-VN").format(Number(value.replace(/\D/g, "")))`. */
  function PriceText(value: string): string
  {
    GroupThousands(DigitsValue(DigitsOnly(value)))
  }

  /** Only the digits of the input count, an input without digits shows "0", and
      typing into the formatted field again keeps the amount. */
  lemma PriceTextFacts(value: string, n: nat)
    ensures DigitsOnly(value) == [] ==> PriceText(value) == "0"
    ensures PriceText(NatToString(n)) == GroupThousands(n)
    ensures DigitsOnly(PriceText(value)) == NatToString(DigitsValue(DigitsOnly(value)))
    ensures PriceText(PriceText(value)) == PriceText(value)
  {
    DigitsOnlyKeepsDigitStrings(NatToString(n));
    DigitsValueOfNatToString(n);
    var v := DigitsValue(DigitsOnly(value));
    DigitsOnlyGroupThousands(v);
    DigitsValueOfNatToString(v);
  }

  // ---------------------------------------------------------------------------
  // Loading
  // ---------------------------------------------------------------------------

  /** What `res.json()` gives the page for one of its two fetches: a body whose `data`
      is a list, a body whose `data` is undefined or null (the route's 401 `{error}`,
      or a backend error body passed on), or a rejection (the fetch fails, or the
      body is not JSON, as the error page of an unhandled 500 is not). */
  datatype PageReply = DataList(list: seq<NegotiationView>) | NoDataList | Rejected

  /** `views` are the page's entries for the listed records: one per record, in order,
      with the same id. Their populated status and thread come from the backend. */
  predicate ShowsEntries(data: seq<NegotiationStore.Negotiation>, views: seq<NegotiationView>)
  {
    |views| == |data| && forall k :: 0 <= k < |views| ==> views[k].id == data[k].id
  }

  /** The page's reading of a reply of the route by role: a listing reply carries the
      list, as the entries `views`, a 401 or a passed-on error body has no `data` list,
      and an unhandled error is not JSON. */
  function PageReplyOf(r: NegotiationQueries.ListReply, views: seq<NegotiationView>): PageReply
    requires r.Listed? ==> ShowsEntries(r.data, views)
  {
    match r
    case Listed(_) => DataList(views)
    case Denied => NoDataList
    case MissingAccountId => NoDataList
    case Forwarded(_) => NoDataList
    case Crashed => Rejected
  }

  /** `setData(json.data)`: the list, or None for undefined or null. */
  function StoredList(r: PageReply): Option<seq<NegotiationView>>
  {
    if r.DataList? then Some(r.list) else None
  }

  /** A load that gets both bodies but stores a missing list: the next render throws at
      `data.concat(dataSeller)`, or at the missing entry `concat` appends. */
  predicate LoadCrashes(buyer: PageReply, seller: PageReply)
  {
    !buyer.Rejected? && !seller.Rejected? && (buyer.NoDataList? || seller.NoDataList?)
  }

  /** The selection after both bodies are read: the initial selection when the lists it
      reads are there; otherwise `buyerJson.data.length` or `sellerJson.data[0]` throws
      into the catch and the selection stays as it was. */
  function LoadedSelection(buyer: PageReply, seller: PageReply, current: Option<Id>): Option<Id>
  {
    if buyer.DataList? && (buyer.list != [] || seller.DataList?)
    then InitialSelection(buyer.list, if seller.DataList? then seller.list else [])
    else current
  }

  /** A signed-out visitor: both fetches get the route's 401 `{error}`, whatever the
      backend holds, so the page stores two missing lists and its render throws. */
  lemma SignedOutPageCrashes(st: NegotiationStore.Store, fb: NegotiationQueries.Fetched, fs: NegotiationQueries.Fetched,
                             vb: seq<NegotiationView>, vs: seq<NegotiationView>)
    ensures var buyer := PageReplyOf(NegotiationQueries.ListByRole(None, Some("buyer"), st, fb), vb);
            var seller := PageReplyOf(NegotiationQueries.ListByRole(None, Some("seller"), st, fs), vs);
            LoadCrashes(buyer, seller) && StoredList(buyer).None? && StoredList(seller).None?
  {
  }

  /** A backend error body on either fetch crashes the page; a 500 on either leaves it
      as it was. */
  lemma LoadOutcomes(user: Id, st: NegotiationStore.Store, body: string, other: PageReply, views: seq<NegotiationView>)
    ensures var failed := PageReplyOf(NegotiationQueries.ListByRole(Some(user), Some("seller"), st,
                                                                    NegotiationQueries.ErrorBody(body)), views);
            LoadCrashes(other, failed) <==> !other.Rejected?
    ensures var thrown := PageReplyOf(NegotiationQueries.ListByRole(Some(user), Some("buyer"), st,
                                                                    NegotiationQueries.FetchThrows), views);
            !LoadCrashes(thrown, other) && thrown.Rejected?
  {
  }

  /** A served fetch gives the page a list, and every entry in it is one of the caller's
      negotiations for that role: on the caller's listings for "seller", opened by the
      caller otherwise. */
  lemma ServedFetchLoads(user: Id, role: Option<string>, st: NegotiationStore.Store, views: seq<NegotiationView>)
    requires ShowsEntries(NegotiationQueries.ListByRole(Some(user), role, st, NegotiationQueries.Served).data, views)
    ensures var r := NegotiationQueries.ListByRole(Some(user), role, st, NegotiationQueries.Served);
            PageReplyOf(r, views) == DataList(views)
    ensures forall k :: 0 <= k < |views| ==>
              exists n :: n in st.negotiations && n.id == views[k].id
                          && (if role == Some("seller") then NegotiationQueries.SoldBy(st.owners, n, user)
                              else n.buyerId == user)
  {
    var d := NegotiationQueries.ListByRole(Some(user), role, st, NegotiationQueries.Served).data;
    NegotiationQueries.ListByRoleSelects(user, role, st, NegotiationQueries.Served);
    forall k | 0 <= k < |views|
      ensures exists n :: n in st.negotiations && n.id == views[k].id
                          && (if role == Some("seller") then NegotiationQueries.SoldBy(st.owners, n, user)
                              else n.buyerId == user)
    {
      assert d[k] in d;
    }
  }

  // ---------------------------------------------------------------------------
  // The page's state
  // ---------------------------------------------------------------------------

  class Page {
    /** `data` and `dataSeller`; None once a load stored undefined or null. */
    var data: Option<seq<NegotiationView>>
    var dataSeller: Option<seq<NegotiationView>>
    var selectedId: Option<Id>
    var price: string
    var isBuyer: bool
    var message: string
    const currentUserId: Option<Id>

    /** A stored list is missing, so rendering the page throws. */
    predicate Crashed()
      reads this
    {
      data.None? || dataSeller.None?
    }

    /** On a page that renders, isBuyer is kept in step with the selection by the effect
        on `selectedId`. */
    predicate Valid()
      reads this
    {
      !Crashed() ==> isBuyer == IsBuyerOf(data.value, selectedId)
    }

    function Panel(): Panel
      requires !Crashed()
      reads this
    {
      MainPanel(data.value, dataSeller.value, selectedId, isBuyer)
    }

    constructor (currentUserId: Option<Id>)
      ensures Valid() && !Crashed() && this.currentUserId == currentUserId
      ensures data == Some([]) && dataSeller == Some([]) && selectedId == None && price == "" && !isBuyer && message == ""
    {
      this.currentUserId := currentUserId;
      data := Some([]);
      dataSeller := Some([]);
      selectedId := None;
      price := "";
      isBuyer := false;
      message := "";
    }

    /** The load effect with the replies to the buyer and seller fetches, followed by
        the selection effect when the page renders. A rejection on either leaves the
        page as it was; otherwise both lists are stored as they came, and the page
        renders exactly when both are lists. */
    method Load(buyer: PageReply, seller: PageReply)
      modifies this
      ensures buyer.Rejected? || seller.Rejected? ==>
                data == old(data) && dataSeller == old(dataSeller) && selectedId == old(selectedId)
                && isBuyer == old(isBuyer)
      ensures !buyer.Rejected? && !seller.Rejected? ==>
                data == StoredList(buyer) && dataSeller == StoredList(seller)
                && selectedId == LoadedSelection(buyer, seller, old(selectedId))
      ensures LoadCrashes(buyer, seller) ==> Crashed() && isBuyer == old(isBuyer)
      ensures buyer.DataList? && seller.DataList? ==>
                !Crashed() && Valid() && selectedId == InitialSelection(buyer.list, seller.list)
      ensures price == old(price) && message == old(message)
    {
      if buyer.Rejected? || seller.Rejected? {
        return;
      }
      data := StoredList(buyer);
      dataSeller := StoredList(seller);
      if buyer.DataList? && |buyer.list| > 0 {
        selectedId := Some(buyer.list[0].id);
      } else if buyer.DataList? && seller.DataList? {
        if |seller.list| > 0 && seller.list[0].id != 0 {
          selectedId := Some(seller.list[0].id);
        } else {
          selectedId := None;
        }
      }
      if data.Some? && dataSeller.Some? {
        isBuyer := IsBuyerOf(data.value, selectedId);
      }
    }

    /** A click on a sidebar entry, which only a page that renders has. */
    method Select(id: Id)
      modifies this
      requires !Crashed()
      ensures Valid() && selectedId == Some(id)
      ensures data == old(data) && dataSeller == old(dataSeller) && price == old(price) && message == old(message)
    {
      selectedId := Some(id);
      isBuyer := IsBuyerOf(data.value, selectedId);
    }

    /** handleChange on the offer price field. */
    method HandleChange(value: string)
      modifies this
      requires Valid()
      ensures Valid() && price == PriceText(value)
      ensures data == old(data) && dataSeller == old(dataSeller) && selectedId == old(selectedId)
      ensures isBuyer == old(isBuyer) && message == old(message)
    {
      var raw := DigitsOnly(value);
      price := GroupThousands(DigitsValue(raw));
    }
  }
}
