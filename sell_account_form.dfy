/**
 * The "sell an account" form (src/components/SellAccountForm.tsx): one record of
 * field values updated by a shared change handler according to the kind of input
 * that fired, a file selection, and a submit that resets both and closes the
 * dialog. Field values are dynamically typed in the source, so the record is a map
 * from field name to a tagged value.
 */
module SellAccountForm {
  import opened AccountTypes
  import opened Text
  import opened Common

  datatype FieldValue = FlagValue(b: bool) | NumberValue(x: real) | TextValue(s: string)

  type FormData = map<string, FieldValue>

  /** initialFormData. */
  const InitialFormData: FormData := map[
    "title" := TextValue(""), "version" := TextValue("global"), "price" := NumberValue(0.0),
    "vipLevel" := NumberValue(0.0), "kills" := NumberValue(0.0), "speed" := NumberValue(0.0),
    "goldenHeads" := NumberValue(0.0), "equipment" := NumberValue(0.0), "talent" := NumberValue(0.0),
    "emblem" := TextValue(""), "tattoo" := TextValue(""), "tickets" := NumberValue(0.0),
    "resources" := TextValue(""), "actionPoints" := NumberValue(0.0), "commander" := TextValue(""),
    "legendaryHouse" := TextValue(""), "keyRally" := FlagValue(false)]

  /** The `type` of the element that fired the change. */
  datatype InputKind = Checkbox | NumberInput | TextInput

  /** The element each field is rendered with: "kills" is a text input like title,
      emblem, tattoo, commander and legendaryHouse, and "version" a select. */
  function FieldKind(name: string): InputKind
  {
    if name == "keyRally" then Checkbox
    else if name in {"price", "vipLevel", "speed", "goldenHeads", "tickets",
                     "equipment", "talent", "resources", "actionPoints"} then NumberInput
    else TextInput
  }

  /** One change event: `name`, `type`, `value` and, for a checkbox, `checked`. */
  datatype Change = Change(name: string, kind: InputKind, value: string, checked: bool)

  /** `parseFloat(value) || 0`: NaN and 0 both become 0. */
  function NumberOf(value: string): real
  {
    var n := ParseFloat(value);
    if n.NaN? || n.value == 0.0 then 0.0 else n.value
  }

  /** The value handleChange stores for an event. */
  function StoredValue(e: Change): FieldValue
  {
    match e.kind
    case Checkbox => FlagValue(e.checked)
    case NumberInput => NumberValue(NumberOf(e.value))
    case TextInput => TextValue(e.value)
  }

  /** `{ ...prev, [name]: … }`. */
  function Changed(form: FormData, e: Change): FormData
  {
    form[e.name := StoredValue(e)]
  }

  /** The controlled inputs that show 0 as an empty box. */
  predicate ZeroShownBlank(name: string)
  {
    name in {"price", "vipLevel", "kills", "speed", "goldenHeads", "tickets",
             "equipment", "talent", "actionPoints"}
  }

  /** What a field's input shows: `field === 0 ? "" : field` for the fields above,
      the value itself for the other controlled inputs, and nothing for
      "resources", whose input has no `value` and is not controlled. */
  function Shown(form: FormData, name: string): Option<FieldValue>
  {
    if name == "resources" || name !in form then None
    else if ZeroShownBlank(name) && form[name] == NumberValue(0.0) then Some(TextValue(""))
    else Some(form[name])
  }

  // ---------------------------------------------------------------------------
  // Properties of the reducer
  // ---------------------------------------------------------------------------

  /** A change writes exactly the named field; every other field keeps its value and
      no field disappears. */
  lemma ChangeTouchesOnlyNamed(form: FormData, e: Change)
    ensures e.name in Changed(form, e) && Changed(form, e)[e.name] == StoredValue(e)
    ensures Changed(form, e).Keys == form.Keys + {e.name}
    ensures forall k :: k in form && k != e.name ==> Changed(form, e)[k] == form[k]
  {
  }

  /** The value stored follows the kind of input: a checkbox its checked state, a
      text input its raw text, a number input a number that is never NaN. */
  lemma StoredValueByKind(e: Change)
    ensures e.kind == Checkbox <==> StoredValue(e) == FlagValue(e.checked)
    ensures e.kind == TextInput <==> StoredValue(e) == TextValue(e.value)
    ensures e.kind == NumberInput <==> StoredValue(e).NumberValue?
  {
  }

  /** A number input holding digits stores their value; an empty box, "-" or text
      starting with a letter stores 0. */
  lemma NumberOfDigits(d: string)
    requires AllDigits(d)
    ensures NumberOf(d) == DigitsValue(d) as real
  {
    ParseDigits(d);
    if d == "" {
      assert DigitsValue(d) == 0;
    }
  }

  lemma NumberOfNonNumbers(s: string)
    requires s == "" || s == "-" || (s != [] && 'a' <= s[0] <= 'z')
    ensures NumberOf(s) == 0.0
  {
    if s == "" {
      ParseDigits(s);
    } else if s == "-" {
      NotANumberIsZero();
    } else {
      LetterIsZero(s);
    }
  }

  /** Typing "0" in a number field that shows 0 as blank leaves the box empty, while
      "kills", a text input, stores the text "0" and shows it. */
  lemma TypedZero(form: FormData, name: string)
    requires ZeroShownBlank(name)
    ensures name != "kills" ==>
              FieldKind(name) == NumberInput
              && Shown(Changed(form, Change(name, NumberInput, "0", false)), name) == Some(TextValue(""))
    ensures FieldKind("kills") == TextInput
    ensures Shown(Changed(form, Change("kills", TextInput, "0", false)), "kills") == Some(TextValue("0"))
  {
    assert "0"[..1] == "0" && "0"[..0] == [];
    NumberOfDigits("0");
  }

  /** Entering a positive price shows that number back; entering 0 hides it. */
  lemma ShownAfterNumber(form: FormData, name: string, d: string)
    requires ZeroShownBlank(name) && name != "kills" && AllDigits(d)
    ensures var after := Changed(form, Change(name, FieldKind(name), d, false));
            Shown(after, name) == if DigitsValue(d) == 0 then Some(TextValue("")) else Some(NumberValue(DigitsValue(d) as real))
  {
    NumberOfDigits(d);
  }

  /** "resources" starts as a string and holds a number after its first change: the
      record's value types drift from the initial ones. */
  lemma ResourcesBecomesNumber(value: string)
    ensures InitialFormData["resources"].TextValue?
    ensures FieldKind("resources") == NumberInput
    ensures Changed(InitialFormData, Change("resources", NumberInput, value, false))["resources"].NumberValue?
    ensures Shown(InitialFormData, "resources") == None
  {
  }

  /** Fresh form: every field that hides 0 shows an empty box, the select shows
      "global" and the key-rally box is unchecked. */
  lemma InitialShown(name: string)
    requires ZeroShownBlank(name)
    ensures Shown(InitialFormData, name) == Some(TextValue(""))
    ensures Shown(InitialFormData, "version") == Some(TextValue("global"))
    ensures Shown(InitialFormData, "keyRally") == Some(FlagValue(false))
  {
  }

  // ---------------------------------------------------------------------------
  // Constraint validation of the form
  // ---------------------------------------------------------------------------

  /** x is a whole number of steps above the step base 0. */
  predicate IsMultiple(x: real, step: real)
  {
    step > 0.0 && (x / step).Floor as real == x / step
  }

  /** `required`: the field's box is present and not empty. */
  predicate Filled(form: FormData, name: string)
  {
    match Shown(form, name)
    case None => false
    case Some(v) => v != TextValue("")
  }

  /** A number box: `min="0"` when hasMin, and a step mismatch past the step base 0.
      An empty box or a field that holds no number yet is not checked. */
  predicate NumberConstraint(form: FormData, name: string, hasMin: bool, step: real)
  {
    name in form && form[name].NumberValue? ==>
      (hasMin ==> form[name].x >= 0.0) && IsMultiple(form[name].x, step)
  }

  /** Every constraint the form's elements declare holds, so the browser fires
      `submit`. Title, price, version and VIP are required; price has `min="0"` and
      `step="100000"`; speed, golden heads, tickets, equipment, talent and action points
      have `min="0"` and the default step 1; "resources" has only the default step 1
      from base 0. VIP has no `min`, so its step base is its own value attribute and
      it cannot mismatch. */
  predicate Submittable(form: FormData)
  {
    && Filled(form, "title") && Filled(form, "price") && Filled(form, "version") && Filled(form, "vipLevel")
    && NumberConstraint(form, "price", true, 100000.0)
    && NumberConstraint(form, "speed", true, 1.0)
    && NumberConstraint(form, "goldenHeads", true, 1.0)
    && NumberConstraint(form, "tickets", true, 1.0)
    && NumberConstraint(form, "equipment", true, 1.0)
    && NumberConstraint(form, "talent", true, 1.0)
    && NumberConstraint(form, "actionPoints", true, 1.0)
    && NumberConstraint(form, "resources", false, 1.0)
  }

  /** The fresh form cannot be submitted: its title, price and VIP boxes are empty.
      After a submit resets the record, a second press is blocked the same way. */
  lemma FreshFormBlocked()
    ensures !Submittable(InitialFormData)
    ensures !Filled(InitialFormData, "title") && !Filled(InitialFormData, "price")
            && !Filled(InitialFormData, "vipLevel")
  {
  }

  /** What a submittable record must hold: a non-empty title, a price above 0 that is a
      whole multiple of 100000, and a VIP level other than 0. */
  lemma SubmittableNeeds(form: FormData)
    requires Submittable(form)
    ensures "title" in form && form["title"] != TextValue("")
    ensures "price" in form && "vipLevel" in form
    ensures form["price"].NumberValue? ==>
              form["price"].x > 0.0 && IsMultiple(form["price"].x, 100000.0)
    ensures form["vipLevel"].NumberValue? ==> form["vipLevel"].x != 0.0
  {
  }

  /** A price that is not a whole multiple of 100000 (150000, say) blocks the submit
      whatever else was entered. */
  lemma OffStepPriceBlocks(form: FormData, price: real)
    requires !IsMultiple(price, 100000.0)
    ensures !Submittable(form["price" := NumberValue(price)])
    ensures !IsMultiple(150000.0, 100000.0)
  {
    assert (150000.0 / 100000.0).Floor == 1;
  }

  /** A negative value in any box with `min="0"` blocks the submit. */
  lemma NegativeCountBlocks(form: FormData, name: string, x: real)
    requires name in {"price", "speed", "goldenHeads", "tickets", "equipment", "talent", "actionPoints"}
    requires x < 0.0
    ensures !Submittable(form[name := NumberValue(x)])
  {
  }

  /** A record the browser lets through: the fresh form with a title, a price of
      200000 and VIP 5. */
  lemma FilledFormSubmits()
    ensures Submittable(InitialFormData["title" := TextValue("Acc")]["price" := NumberValue(200000.0)]
                                       ["vipLevel" := NumberValue(5.0)])
  {
    assert (200000.0 / 100000.0).Floor == 2;
    assert (0.0 / 100000.0).Floor == 0 && (0.0 / 1.0).Floor == 0;
  }

  // ---------------------------------------------------------------------------
  // The component
  // ---------------------------------------------------------------------------

  /** The two values handleSubmit writes to the console. */
  datatype Submission = Submission(data: FormData, files: Option<seq<File>>)

  class Form {
    var formData: FormData
    /** `imageFiles`: the last file list, or `null`. */
    var imageFiles: Option<seq<File>>
    /** Whether `onOpenChange(false)` has been called. */
    var closeRequested: bool

    constructor ()
      ensures formData == InitialFormData && imageFiles == None && !closeRequested
    {
      formData := InitialFormData;
      imageFiles := None;
      closeRequested := false;
    }

    /** handleChange. */
    method HandleChange(e: Change)
      modifies this
      ensures formData == Changed(old(formData), e)
      ensures imageFiles == old(imageFiles) && closeRequested == old(closeRequested)
    {
      var v: FieldValue;
      match e.kind {
        case Checkbox => v := FlagValue(e.checked);
        case NumberInput =>
          var n := ParseFloat(e.value);
          v := if n.NaN? || n.value == 0.0 then NumberValue(0.0) else NumberValue(n.value);
        case TextInput => v := TextValue(e.value);
      }
      formData := formData[e.name := v];
    }

    /** handleFileChange: an input without a file list keeps the last selection; any
        list, an empty one included, replaces it. */
    method HandleFileChange(files: Option<seq<File>>)
      modifies this
      ensures imageFiles == if files.None? then old(imageFiles) else files
      ensures formData == old(formData) && closeRequested == old(closeRequested)
    {
      if files.Some? {
        imageFiles := files;
      }
    }

    /** handleSubmit: the record goes back to initialFormData, the files to null, and
        close is requested; what was entered is only logged. */
    method HandleSubmit() returns (logged: Submission)
      modifies this
      ensures logged == Submission(old(formData), old(imageFiles))
      ensures formData == InitialFormData && imageFiles == None && closeRequested
    {
      logged := Submission(formData, imageFiles);
      formData := InitialFormData;
      imageFiles := None;
      closeRequested := true;
    }

    /** Pressing "Submit for Sale": the browser runs handleSubmit only when every
        constraint holds; otherwise nothing is logged and nothing changes. */
    method PressSubmit() returns (logged: Option<Submission>)
      modifies this
      ensures !Submittable(old(formData)) ==>
                logged == None && formData == old(formData) && imageFiles == old(imageFiles)
                && closeRequested == old(closeRequested)
      ensures Submittable(old(formData)) ==>
                logged == Some(Submission(old(formData), old(imageFiles)))
                && formData == InitialFormData && imageFiles == None && closeRequested
    {
      if Submittable(formData) {
        var entered := HandleSubmit();
        logged := Some(entered);
      } else {
        logged := None;
      }
    }
  }
}
