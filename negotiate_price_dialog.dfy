/**
 * The buyer's offer dialog (src/components/Account/NegotiatePriceDialog.tsx): the
 * raw price keeps digits only, the shown price is its grouped form, and submitting
 * hands (price, message, phone) to the caller, then clears the form and closes it
 * unless the caller throws.
 */
module NegotiatePriceDialog {
  import opened AccountTypes
  import opened Text
  import opened Common

  /** The display effect on `priceInput`. */
  function DisplayFormat(priceInput: string): string
  {
    if priceInput != [] then
      var numericValue := DigitsOnly(priceInput);
      if numericValue != [] then GroupThousands(DigitsValue(numericValue)) else ""
    else ""
  }

  /** The arguments of one `onSubmit` call. */
  datatype Offer = Offer(price: real, message: string, phone: string)

  lemma {:induction false} GroupThousandsNonEmpty(n: nat)
    ensures GroupThousands(n) != []
  {
    if n >= 1000 {
      GroupThousandsNonEmpty(n / 1000);
    }
  }

  /** For a digits-only input the shown price is empty exactly when the input is, and
      otherwise the grouped value with leading zeros dropped; retyping the shown text
      gives back the same value. */
  lemma DisplayFacts(priceInput: string)
    requires AllDigits(priceInput)
    ensures DisplayFormat(priceInput) == "" <==> priceInput == ""
    ensures priceInput != "" ==> DisplayFormat(priceInput) == GroupThousands(DigitsValue(priceInput))
    ensures priceInput != "" ==> DigitsValue(DigitsOnly(DisplayFormat(priceInput))) == DigitsValue(priceInput)
  {
    DigitsOnlyKeepsDigitStrings(priceInput);
    if priceInput != "" {
      var v := DigitsValue(priceInput);
      GroupThousandsNonEmpty(v);
      DigitsOnlyGroupThousands(v);
      DigitsValueOfNatToString(v);
    }
  }

  lemma ZeroPaddedValue()
    ensures DigitsValue("0050000") == 50000
  {
    assert "0050000" == "00" + "50000";
    DigitsValueAppend("00", "50000");
    DoubleZero();
    FiftyThousand();
  }

  lemma DoubleZero()
    ensures DigitsValue("00") == 0
  {
    assert "00"[..1] == "0" && "0"[..0] == [];
  }

  lemma FiftyThousand()
    ensures DigitsValue("50000") == 50000
  {
    assert NatToString(50000) == "50000";
    DigitsValueOfNatToString(50000);
  }

  lemma GroupedFiftyThousand()
    ensures GroupThousands(50000) == "50.000"
  {
    assert GroupThousands(50000) == GroupThousands(50) + "." + Group3(0);
  }

  /** A typed "0050000" is shown as "50.000". */
  lemma DisplayExample()
    ensures DisplayFormat("0050000") == "50.000"
  {
    DigitsOnlyKeepsDigitStrings("0050000");
    ZeroPaddedValue();
    GroupedFiftyThousand();
  }

  /** `parseFloat` of the digits-only price field. */
  method ParsePrice(p: string) returns (n: JsNumber)
    requires AllDigits(p)
    ensures n == ParseFloat(p)
    ensures n.NaN? <==> p == ""
    ensures p != "" ==> n == Finite(DigitsValue(p) as real)
  {
    n := ParseFloat(p);
    ParseDigits(p);
  }

  class Dialog {
    var priceInput: string
    var displayPrice: string
    var message: string
    var phone: string
    /** Whether `onOpenChange(false)` has been called. */
    var closeRequested: bool

    predicate Valid()
      reads this
    {
      AllDigits(priceInput) && displayPrice == DisplayFormat(priceInput)
    }

    constructor ()
      ensures Valid() && priceInput == "" && displayPrice == "" && message == "" && phone == "" && !closeRequested
    {
      priceInput := "";
      displayPrice := "";
      message := "";
      phone := "";
      closeRequested := false;
    }

    /** handlePriceChange, then the display effect. */
    method HandlePriceChange(value: string)
      modifies this
      ensures Valid() && priceInput == DigitsOnly(value)
      ensures message == old(message) && phone == old(phone) && closeRequested == old(closeRequested)
    {
      priceInput := DigitsOnly(value);
      displayPrice := DisplayFormat(priceInput);
    }

    method SetMessage(text: string)
      modifies this
      requires Valid()
      ensures Valid() && message == text
      ensures priceInput == old(priceInput) && phone == old(phone) && closeRequested == old(closeRequested)
    {
      message := text;
    }

    method SetPhone(text: string)
      modifies this
      requires Valid()
      ensures Valid() && phone == text
      ensures priceInput == old(priceInput) && message == old(message) && closeRequested == old(closeRequested)
    {
      phone := text;
    }

    /** handleSubmit; `rejects` says whether the caller's onSubmit throws. Without a
        price nothing is called and nothing changes. Otherwise the call gets the
        integer value (0 included) and the message and phone as they are (an empty
        phone included); on success all four fields are cleared and close is
        requested, on failure nothing changes. */
    method HandleSubmit(rejects: bool) returns (call: Option<Offer>)
      modifies this
      requires Valid()
      ensures Valid()
      ensures old(priceInput) == "" ==> call == None
      ensures old(priceInput) != "" ==> call == Some(Offer(DigitsValue(old(priceInput)) as real, old(message), old(phone)))
      ensures call.Some? && !rejects ==>
                priceInput == "" && displayPrice == "" && message == "" && phone == "" && closeRequested
      ensures !(call.Some? && !rejects) ==>
                priceInput == old(priceInput) && displayPrice == old(displayPrice) && message == old(message)
                && phone == old(phone) && closeRequested == old(closeRequested)
    {
      var numericPrice := ParsePrice(priceInput);
      if numericPrice.NaN? {
        return None;
      }
      call := Some(Offer(numericPrice.value, message, phone));
      if !rejects {
        priceInput := "";
        displayPrice := "";
        message := "";
        phone := "";
        closeRequested := true;
      }
    }
  }
}
