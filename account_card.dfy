/**
 * The catalog card of one account (src/components/AccountCard.tsx): the sale-status
 * badge, the version badge and the VIP badge.
 */
module AccountCard {
  import opened AccountTypes
  import opened Text

  /** The type guard on the three sale statuses. */
  predicate IsSaleStatus(status: string)
  {
    status == "sale" || status == "pending" || status == "cancel"
  }

  /** `statusLabelMap`. */
  function SaleStatusLabel(s: SaleStatus): string
  {
    match s
    case Sale => "Đang bán"
    case Pending => "Chờ duyệt"
    case Cancel => "Đã hủy"
  }

  function GetStatusLabel(status: string): string
  {
    if status == "sale" then SaleStatusLabel(Sale)
    else if status == "pending" then SaleStatusLabel(Pending)
    else if status == "cancel" then SaleStatusLabel(Cancel)
    else "Không xác định"
  }

  /** `vesionMap`. */
  function VersionLabel(v: Version): string
  {
    match v
    case Gamota => "Gamota \U{2B50}"
    case Japan => "Nhật Bản"
    case Global => "Quốc Tế \U{1F310}"
  }

  /** The VIP badge: the SVIP image for 20, otherwise "VIP n", with the fire effect
      from 18 up. */
  datatype VipBadge = SvipBadge | LevelBadge(text: string, fire: bool)

  function CardVipBadge(vipLevel: int): VipBadge
  {
    if vipLevel == 20 then SvipBadge else LevelBadge("VIP " + IntToString(vipLevel), vipLevel >= 18)
  }

  /** The guard holds exactly for the texts of the three sale statuses, and the label
      of a status is the label of its text; any other string is "Không xác định". */
  lemma StatusLabelFacts(status: string, s: SaleStatus)
    ensures IsSaleStatus(status) <==> exists t :: SaleStatusText(t) == status
    ensures GetStatusLabel(SaleStatusText(s)) == SaleStatusLabel(s)
    ensures !IsSaleStatus(status) ==> GetStatusLabel(status) == "Không xác định"
    ensures GetStatusLabel(status) != "Không xác định" <==> IsSaleStatus(status)
  {
    if IsSaleStatus(status) {
      var t := if status == "sale" then Sale else if status == "pending" then Pending else Cancel;
      assert SaleStatusText(t) == status;
    }
  }

  /** The three versions have distinct labels. */
  lemma VersionLabelsDistinct(v: Version, w: Version)
    ensures v != w ==> VersionLabel(v) != VersionLabel(w)
  {
  }

  /** Level 20 shows SVIP; any other level shows its number, and the fire effect is on
      exactly when the level is at least 18 and not 20. */
  lemma VipBadgeFacts(vipLevel: int)
    ensures CardVipBadge(vipLevel).SvipBadge? <==> vipLevel == 20
    ensures CardVipBadge(vipLevel).LevelBadge? ==> CardVipBadge(vipLevel).text == "VIP " + IntToString(vipLevel)
    ensures (CardVipBadge(vipLevel).LevelBadge? && CardVipBadge(vipLevel).fire) <==> vipLevel >= 18 && vipLevel != 20
  {
  }
}
