/**
 * The seller's negotiation modal (src/components/NegotiationModal.tsx): a status
 * label per negotiation, reply controls only while the buyer waits for the seller,
 * and a decision that PUTs the new status and the seller's note, closing the modal
 * only when the update succeeds. One reply text is shared by all the cards.
 */
module NegotiationModal {
  import opened AccountTypes
  import opened NegotiationStore

  /** `statusMapping[status] || status`. */
  function StatusLabel(status: string): string
  {
    if status == "accepted" then "Chấp nhận"
    else if status == "rejected" then "Từ chối"
    else if status == "waiting_for_seller" then "Đang chờ phản hồi"
    else if status == "pending" then "Đang chờ người mua phản hồi"
    else status
  }

  predicate IsMapped(status: string)
  {
    status in ["accepted", "rejected", "waiting_for_seller", "pending"]
  }

  /** The four known statuses have fixed labels, distinct from each other and from the
      raw names; any other status, "countered" for one, is shown as it is. */
  lemma StatusLabelFacts(status: string)
    ensures !IsMapped(status) ==> StatusLabel(status) == status
    ensures IsMapped(status) ==> StatusLabel(status) != status && !IsMapped(StatusLabel(status))
    ensures StatusLabel("countered") == "countered"
  {
  }

  /** Distinct known statuses have distinct labels. */
  lemma StatusLabelsDistinct(a: string, b: string)
    requires IsMapped(a) && IsMapped(b) && a != b
    ensures StatusLabel(a) != StatusLabel(b)
  {
  }

  /** The reply box and the two buttons. */
  predicate ShowsControls(status: string)
  {
    status == "waiting_for_seller"
  }

  /** The statuses handleAction accepts. */
  datatype Decision = Accepted | Rejected | WaitingForSeller

  function DecisionText(d: Decision): string
  {
    match d
    case Accepted => "accepted"
    case Rejected => "rejected"
    case WaitingForSeller => "waiting_for_seller"
  }

  /** The two buttons of a card. */
  datatype Button = RejectButton | AcceptButton

  function ButtonDecision(b: Button): Decision
  {
    match b
    case RejectButton => Rejected
    case AcceptButton => Accepted
  }

  /** The UI only ever issues "rejected" or "accepted", and only from a card whose
      status is waiting_for_seller; the label of a card with controls is fixed. */
  lemma ButtonsIssueDecisions(b: Button, status: string)
    ensures DecisionText(ButtonDecision(b)) in ["rejected", "accepted"]
    ensures ButtonDecision(b) != WaitingForSeller
    ensures ShowsControls(status) <==> status == "waiting_for_seller"
    ensures ShowsControls(status) ==> StatusLabel(status) == "Đang chờ phản hồi"
  {
  }

  class Modal {
    var message: string
    /** Whether `onClose` has been called. */
    var closed: bool

    constructor ()
      ensures message == "" && !closed
    {
      message := "";
      closed := false;
    }

    /** The reply box of any card writes the one shared message. */
    method SetMessage(text: string)
      modifies this
      ensures message == text && closed == old(closed)
    {
      message := text;
    }

    /** handleAction(negotiationId, status): the PUT sets the status to exactly the
        decision and the seller note to the shared message; the modal closes only on
        success. */
    method HandleAction(backend: Backend, negotiationId: Id, status: Decision, fails: bool) returns (ok: bool)
      modifies this, backend
      ensures (backend.State(), ok) == AfterUpdate(old(backend.State()), negotiationId, DecisionText(status), old(message), fails)
      ensures message == old(message)
      ensures closed == (old(closed) || ok)
    {
      ok := backend.Update(negotiationId, DecisionText(status), message, fails);
      if ok {
        closed := true;
      }
    }

    /** A click on one of a card's buttons. */
    method Click(backend: Backend, card: Negotiation, b: Button, fails: bool) returns (ok: bool)
      requires ShowsControls(card.status)
      modifies this, backend
      ensures (backend.State(), ok) == AfterUpdate(old(backend.State()), card.id, DecisionText(ButtonDecision(b)), old(message), fails)
      ensures message == old(message)
      ensures closed == (old(closed) || ok)
    {
      ok := HandleAction(backend, card.id, ButtonDecision(b), fails);
    }
  }
}
