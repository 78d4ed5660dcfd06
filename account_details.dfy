/**
 * The account detail page (src/components/Account/AccountDetails.tsx): the commander
 * string split into display lines, and the VIP value of the highlights.
 */
module AccountDetails {
  import opened AccountTypes
  import opened Text
  import opened Seqs

  /** `(commander ?? "").split("|").map((s) => s.trim()).filter(Boolean)`. */
  function CommanderLines(commander: Option<string>): seq<string>
  {
    var text := if commander.Some? then commander.value else "";
    Filter(Map(Split(text, '|'), Trim), (s: string) => s != "")
  }

  /** A null or undefined commander has no lines. */
  lemma NoCommanderNoLines()
    ensures CommanderLines(None) == []
    ensures CommanderLines(Some("")) == []
  {
    assert Trim("") == "";
  }

  /** A trimmed segment is trimmed and has no "|". */
  lemma TrimmedSegment(parts: seq<string>, line: string)
    requires forall k :: 0 <= k < |parts| ==> '|' !in parts[k]
    requires line in Map(parts, Trim)
    ensures Trim(line) == line && '|' !in line
  {
    var trimmed := Map(parts, Trim);
    var j :| 0 <= j < |trimmed| && trimmed[j] == line;
    assert line == Trim(parts[j]);
    TrimIdempotent(parts[j]);
    TrimKeepsAbsence(parts[j], '|');
  }

  /** Every line is non-empty, trimmed and free of "|"; there are at most as many lines
      as segments, in segment order. */
  lemma CommanderLinesFacts(commander: Option<string>)
    ensures var text := if commander.Some? then commander.value else "";
            var lines := CommanderLines(commander);
            && |lines| <= Count(text, '|') + 1
            && IsSubsequence(lines, Map(Split(text, '|'), Trim))
            && (forall k :: 0 <= k < |lines| ==> lines[k] != "" && Trim(lines[k]) == lines[k] && '|' !in lines[k])
            && forall s :: s in lines <==> s in Map(Split(text, '|'), Trim) && s != ""
  {
    var text := if commander.Some? then commander.value else "";
    var parts := Split(text, '|');
    var trimmed := Map(parts, Trim);
    var p := (s: string) => s != "";
    FilterIsSubsequence(trimmed, p);
    FilterMembershipAll(trimmed, p);
    var lines := Filter(trimmed, p);
    assert |trimmed| == |parts| == Count(text, '|') + 1;
    forall k | 0 <= k < |lines| ensures lines[k] != "" && Trim(lines[k]) == lines[k] && '|' !in lines[k] {
      assert lines[k] in trimmed && p(lines[k]);
      TrimmedSegment(parts, lines[k]);
    }
  }

  /** A commander with no "|" and some non-space character is one line: itself,
      trimmed. */
  lemma SingleCommander(commander: string, k: nat)
    requires '|' !in commander && k < |commander| && !IsWhitespace(commander[k])
    ensures CommanderLines(Some(commander)) == [Trim(commander)]
  {
    SplitWithoutSeparator(commander, '|');
    TrimNonBlank(commander, k);
    assert Map([commander], Trim) == [Trim(commander)];
  }

  /** The VIP value: SVIP for 20, "n 🔥" for any other level from 17 up, nothing below. */
  datatype VipValue = Svip | Flame(text: string) | NoValue

  function DetailVipValue(vipLevel: int): VipValue
  {
    if vipLevel == 20 then Svip else if vipLevel >= 17 then Flame(IntToString(vipLevel) + " \U{1F525}") else NoValue
  }

  lemma DetailVipValueFacts(vipLevel: int)
    ensures DetailVipValue(vipLevel) == Svip <==> vipLevel == 20
    ensures DetailVipValue(vipLevel).Flame? <==> vipLevel >= 17 && vipLevel != 20
    ensures DetailVipValue(vipLevel) == NoValue <==> vipLevel < 17
    ensures DetailVipValue(18) == Flame("18 \U{1F525}")
  {
  }
}
