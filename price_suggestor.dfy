/**
 * The price heuristic of src/components/priceSuggestor.ts. `GetSuggestedPrice`
 * builds one accumulator through the source's if/else chains and rounds it to a
 * multiple of 1000; `SuggestedPrice` is the same heuristic written as a sum of
 * independent bonuses, and the lemmas below state what the heuristic promises:
 * its VIP table, its speed-up rate, its floor and ceiling, and monotonicity.
 *
 * Speed is an integer, so the source's `speed / 1000 * 1_000_000` is exactly
 * `speed * 1000`, and `Math.round(x / 1000) * 1000` on an integer x is
 * `(x + 500) / 1000 * 1000` with floor division.
 */
module PriceSuggestor {

  datatype PriceAttributes = PriceAttributes(
    vipLevel: int, speed: int, talent: int, equipment: int, tickets: int, keyRally: bool)

  function VipBase(vip: int): int
  {
    if vip >= 20 then 60_000_000
    else if vip >= 19 then 30_000_000
    else if vip >= 18 then 10_000_000
    else if vip >= 17 then 5_000_000
    else if vip >= 16 then 3_000_000
    else if vip >= 15 then 1_000_000
    else 500_000
  }

  /** The speed-up multiplier by VIP tier; 1000 speed-ups are worth 1,000,000 at rate 1. */
  function SpeedMultiplier(vip: int): int
  {
    if vip >= 20 then 3 else if vip >= 18 then 2 else 1
  }

  function SpeedPart(a: PriceAttributes): int
  {
    a.speed * 1000 * SpeedMultiplier(a.vipLevel)
  }

  function EquipmentBonus(equipment: int): int
  {
    if equipment >= 56 then 15_000_000
    else if equipment >= 48 then 8_000_000
    else if equipment >= 40 then 2_000_000
    else 0
  }

  function TalentBonus(talent: int): int
  {
    if talent >= 30 then 10_000_000
    else if talent >= 20 then 5_000_000
    else if talent >= 10 then 2_000_000
    else 0
  }

  /** The ticket bonus; when tickets are short, the source falls back to a test on talent. */
  function TicketBonus(a: PriceAttributes): int
  {
    if a.tickets >= 40 then (if a.vipLevel >= 18 then 5_000_000 else 2_000_000)
    else if a.talent >= 30 then (if a.vipLevel >= 18 then 2_000_000 else 1_000_000)
    else 0
  }

  function KeyRallyBonus(a: PriceAttributes): int
  {
    if !a.keyRally then 0
    else if a.vipLevel >= 20 then 20_000_000
    else if a.vipLevel >= 19 then 10_000_000
    else if a.vipLevel >= 18 then 5_000_000
    else if a.vipLevel >= 17 then 2_000_000
    else 0
  }

  /** Everything but the speed-ups: the part of the price fixed by tier and inventory. */
  function FixedPart(a: PriceAttributes): int
  {
    VipBase(a.vipLevel) + EquipmentBonus(a.equipment) + TalentBonus(a.talent)
      + TicketBonus(a) + KeyRallyBonus(a)
  }

  /** `Math.round(x / 1000) * 1000` for an integer x. */
  function RoundToThousand(x: int): int
  {
    (x + 500) / 1000 * 1000
  }

  function SuggestedPrice(a: PriceAttributes): int
  {
    RoundToThousand(FixedPart(a) + SpeedPart(a))
  }

  method GetSuggestedPrice(a: PriceAttributes) returns (price: int)
    ensures price == SuggestedPrice(a)
    ensures price % 1000 == 0
    ensures a.speed >= 0 ==> price >= 500_000
  {
    var basePrice := 0;

    // VIP level
    if a.vipLevel >= 20 { basePrice := basePrice + 60_000_000; }
    else if a.vipLevel >= 19 { basePrice := basePrice + 30_000_000; }
    else if a.vipLevel >= 18 { basePrice := basePrice + 10_000_000; }
    else if a.vipLevel >= 17 { basePrice := basePrice + 5_000_000; }
    else if a.vipLevel >= 16 { basePrice := basePrice + 3_000_000; }
    else if a.vipLevel >= 15 { basePrice := basePrice + 1_000_000; }
    else { basePrice := basePrice + 500_000; }
    assert basePrice == VipBase(a.vipLevel);

    // Speed-ups
    basePrice := basePrice + a.speed * 1000 * (if a.vipLevel >= 20 then 3 else if a.vipLevel >= 18 then 2 else 1);
    assert basePrice == VipBase(a.vipLevel) + SpeedPart(a);
    ghost var afterSpeed := basePrice;

    // Equipment

    if a.equipment >= 56 { basePrice := basePrice + 15_000_000; }
    else if a.equipment >= 48 { basePrice := basePrice + 8_000_000; }
    else if a.equipment >= 40 { basePrice := basePrice + 2_000_000; }
    assert basePrice == afterSpeed + EquipmentBonus(a.equipment);
    ghost var afterEquipment := basePrice;

    // Talent
    if a.talent >= 30 { basePrice := basePrice + 10_000_000; }
    else if a.talent >= 20 { basePrice := basePrice + 5_000_000; }
    else if a.talent >= 10 { basePrice := basePrice + 2_000_000; }
    assert basePrice == afterEquipment + TalentBonus(a.talent);
    ghost var afterTalent := basePrice;

    // Tickets
    if a.tickets >= 40 {
      basePrice := basePrice + (if a.vipLevel >= 18 then 5_000_000 else 2_000_000);
    } else if a.talent >= 30 {
      basePrice := basePrice + (if a.vipLevel >= 18 then 2_000_000 else 1_000_000);
    }
    assert basePrice == afterTalent + TicketBonus(a);
    ghost var afterTickets := basePrice;

    // Key rally
    if a.keyRally {
      if a.vipLevel >= 20 { basePrice := basePrice + 20_000_000; }
      else if a.vipLevel >= 19 { basePrice := basePrice + 10_000_000; }
      else if a.vipLevel >= 18 { basePrice := basePrice + 5_000_000; }
      else if a.vipLevel >= 17 { basePrice := basePrice + 2_000_000; }
    }
    assert basePrice == afterTickets + KeyRallyBonus(a);
    assert basePrice == FixedPart(a) + SpeedPart(a);

    price := (basePrice + 500) / 1000 * 1000;
    RoundingIsExact(a);
    FixedPartBounds(a);
  }

  // ---------------------------------------------------------------------------
  // Properties of the heuristic
  // ---------------------------------------------------------------------------

  lemma RoundMultiple(k: int)
    ensures RoundToThousand(k * 1000) == k * 1000
  {
    assert (k * 1000 + 500) / 1000 == k;
  }

  /** The fixed part in thousands. */
  lemma FixedPartThousands(a: PriceAttributes) returns (k: int)
    ensures FixedPart(a) == k * 1000
  {
    var v := VipBase(a.vipLevel) / 1000;
    assert VipBase(a.vipLevel) == v * 1000;
    var e := EquipmentBonus(a.equipment) / 1000;
    assert EquipmentBonus(a.equipment) == e * 1000;
    var t := TalentBonus(a.talent) / 1000;
    assert TalentBonus(a.talent) == t * 1000;
    var q := TicketBonus(a) / 1000;
    assert TicketBonus(a) == q * 1000;
    var r := KeyRallyBonus(a) / 1000;
    assert KeyRallyBonus(a) == r * 1000;
    k := v + e + t + q + r;
  }

  /** Every term is a multiple of 1000, so the final rounding never changes the sum. */
  lemma RoundingIsExact(a: PriceAttributes)
    ensures SuggestedPrice(a) == FixedPart(a) + SpeedPart(a)
    ensures SuggestedPrice(a) % 1000 == 0
  {
    var f := FixedPartThousands(a);
    var k := f + a.speed * SpeedMultiplier(a.vipLevel);
    assert SpeedPart(a) == a.speed * SpeedMultiplier(a.vipLevel) * 1000;
    assert FixedPart(a) + SpeedPart(a) == k * 1000;
    RoundMultiple(k);
  }

  /** The fixed part lies between the 500,000 floor and 110,000,000
      (60M tier + 15M equipment + 10M talent + 5M tickets + 20M key rally). */
  lemma FixedPartBounds(a: PriceAttributes)
    ensures 500_000 <= FixedPart(a) <= 110_000_000
  {
  }

  /** The VIP table: with nothing else, the price is the tier's base amount. */
  lemma VipTable(vip: int)
    ensures SuggestedPrice(PriceAttributes(vip, 0, 0, 0, 0, false)) ==
      if vip >= 20 then 60_000_000
      else if vip == 19 then 30_000_000
      else if vip == 18 then 10_000_000
      else if vip == 17 then 5_000_000
      else if vip == 16 then 3_000_000
      else if vip == 15 then 1_000_000
      else 500_000
  {
    RoundingIsExact(PriceAttributes(vip, 0, 0, 0, 0, false));
  }

  /** Each speed-up day adds 1000 VND, times 3 at VIP 20 and above and 2 at VIP 18-19. */
  lemma SpeedContribution(a: PriceAttributes)
    ensures SuggestedPrice(a) == SuggestedPrice(a.(speed := 0))
      + a.speed * 1000 * (if a.vipLevel >= 20 then 3 else if a.vipLevel >= 18 then 2 else 1)
  {
    RoundingIsExact(a);
    RoundingIsExact(a.(speed := 0));
  }

  /** Below every threshold, the heuristic returns its 500,000 floor. */
  lemma FloorPrice(a: PriceAttributes)
    requires a.vipLevel < 15 && a.speed == 0 && a.equipment < 40 && a.talent < 10
    requires a.tickets < 40 && !a.keyRally
    ensures SuggestedPrice(a) == 500_000
  {
    RoundingIsExact(a);
  }

  /** With no negative speed-ups the price is at least the floor, and the part that
      does not come from speed-ups never exceeds 110,000,000. */
  lemma PriceBounds(a: PriceAttributes)
    ensures a.speed >= 0 ==> SuggestedPrice(a) >= 500_000
    ensures 500_000 <= SuggestedPrice(a.(speed := 0)) <= 110_000_000
  {
    RoundingIsExact(a);
    RoundingIsExact(a.(speed := 0));
    FixedPartBounds(a);
    FixedPartBounds(a.(speed := 0));
  }

  /** b dominates a in every attribute. */
  predicate Dominates(b: PriceAttributes, a: PriceAttributes)
  {
    a.vipLevel <= b.vipLevel && a.speed <= b.speed && a.equipment <= b.equipment &&
    a.talent <= b.talent && a.tickets <= b.tickets && (a.keyRally ==> b.keyRally)
  }

  /** Raising any attribute (speed-ups non-negative) never lowers the price. */
  lemma Monotone(a: PriceAttributes, b: PriceAttributes)
    requires 0 <= a.speed && Dominates(b, a)
    ensures SuggestedPrice(a) <= SuggestedPrice(b)
  {
    RoundingIsExact(a);
    RoundingIsExact(b);
    var ma, mb := SpeedMultiplier(a.vipLevel), SpeedMultiplier(b.vipLevel);
    assert 1 <= ma <= mb;
    assert a.speed * 1000 * ma <= b.speed * 1000 * ma;
    assert b.speed * 1000 * ma <= b.speed * 1000 * mb;
    assert TicketBonus(a) <= TicketBonus(b);
    assert KeyRallyBonus(a) <= KeyRallyBonus(b);
  }

  /** Short on tickets but with 30 talent, an account earns a second talent-driven
      bonus on top of the 10M talent bonus: 2M at VIP 18 and above, else 1M. */
  lemma SecondTalentBonus(a: PriceAttributes)
    requires a.tickets < 40 && a.talent >= 30
    ensures SuggestedPrice(a) == SuggestedPrice(a.(talent := 0))
      + 10_000_000 + (if a.vipLevel >= 18 then 2_000_000 else 1_000_000)
  {
    RoundingIsExact(a);
    RoundingIsExact(a.(talent := 0));
  }

  /** With 40 tickets or more the ticket bonus never looks at talent. */
  lemma TicketBonusIgnoresTalent(a: PriceAttributes, talent: int)
    requires a.tickets >= 40
    ensures SuggestedPrice(a.(talent := talent)) - TalentBonus(talent)
         == SuggestedPrice(a) - TalentBonus(a.talent)
  {
    RoundingIsExact(a);
    RoundingIsExact(a.(talent := talent));
  }

  /** The key-rally flag only pays at VIP 17 and above. */
  lemma KeyRallyBelow17(a: PriceAttributes)
    requires a.vipLevel < 17
    ensures SuggestedPrice(a.(keyRally := true)) == SuggestedPrice(a.(keyRally := false))
  {
    RoundingIsExact(a.(keyRally := true));
    RoundingIsExact(a.(keyRally := false));
  }
}
