/**
 * The VIP filter button and its checkbox list (src/components/VipFilter.tsx).
 */
module VipFilter {
  import opened Text

  const VipLevels: seq<int> := [20, 19, 18, 17, 16, 15]

  /** The name of one level: SVIP for 20, "VIP n" otherwise. */
  function VipName(vip: int): string
  {
    if vip == 20 then "SVIP" else "VIP " + IntToString(vip)
  }

  /** getButtonText. */
  function ButtonText(selectedVips: seq<int>): string
  {
    if |selectedVips| == 0 then "Chọn VIP"
    else if |selectedVips| == 1 then VipName(selectedVips[0])
    else IntToString(|selectedVips|) + " VIPs selected"
  }

  /** One row of the dialog: the level, its label and whether its box is checked. */
  datatype Checkbox = Checkbox(vip: int, text: string, checked: bool)

  function Checkboxes(selectedVips: seq<int>): (boxes: seq<Checkbox>)
  {
    seq(|VipLevels|, k requires 0 <= k < |VipLevels| => Checkbox(VipLevels[k], VipName(VipLevels[k]), VipLevels[k] in selectedVips))
  }

  /** The button text by the size of the selection: a prompt for none and the
      level's name for one. */
  lemma ButtonTextCases(n: int)
    ensures ButtonText([]) == "Chọn VIP"
    ensures ButtonText([20]) == "SVIP"
    ensures n != 20 ==> ButtonText([n]) == "VIP " + IntToString(n)
  {
  }

  /** For two or more, the count alone, whatever the values. */
  lemma ButtonTextCounts(selectedVips: seq<int>, other: seq<int>)
    requires |selectedVips| >= 2
    ensures ButtonText(selectedVips) == NatToString(|selectedVips|) + " VIPs selected"
    ensures |other| == |selectedVips| ==> ButtonText(other) == ButtonText(selectedVips)
  {
  }

  /** The rows are the six levels 20 down to 15, in that order, each checked exactly
      when it is selected. */
  lemma CheckboxesFacts(selectedVips: seq<int>)
    ensures |Checkboxes(selectedVips)| == 6
    ensures forall k :: 0 <= k < 6 ==> Checkboxes(selectedVips)[k].vip == 20 - k
    ensures forall k :: 0 <= k < 6 ==>
              (Checkboxes(selectedVips)[k].checked <==> 20 - k in selectedVips)
    ensures Checkboxes(selectedVips)[0].text == "SVIP"
  {
  }
}
