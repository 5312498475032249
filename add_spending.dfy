/** The add-spending form: its text fields, the payer picker, the
    participant toggles, adding a custom participant, and Save / Clear. */
module AddSpending {
  import opened Lists
  import opened Records

  /** The characters `.whitespacesAndNewlines` strips: the ASCII and Latin-1
      blanks and line breaks and the Unicode space and line separators. */
  predicate IsWhitespace(c: char) {
    c in {' ', '\t', '\n', '\r', '\U{000B}', '\U{000C}', '\U{0085}', '\U{00A0}', '\U{1680}',
          '\U{2000}', '\U{2001}', '\U{2002}', '\U{2003}', '\U{2004}', '\U{2005}', '\U{2006}',
          '\U{2007}', '\U{2008}', '\U{2009}', '\U{200A}', '\U{2028}', '\U{2029}', '\U{202F}',
          '\U{205F}', '\U{3000}'}
  }

  /** The same set as Unicode ranges: the controls U+0009 to U+000D, the
      space separators (general category Zs), NEXT LINE, and the line and
      paragraph separators. */
  lemma WhitespaceRanges(c: char)
    ensures IsWhitespace(c) <==>
              '\t' <= c <= '\r' || c == ' ' || c == '\U{0085}' || c == '\U{00A0}' || c == '\U{1680}'
              || '\U{2000}' <= c <= '\U{200A}' || c == '\U{2028}' || c == '\U{2029}' || c == '\U{202F}'
              || c == '\U{205F}' || c == '\U{3000}'
  {
  }

  /** `s` with its leading whitespace removed. */
  function TrimStart(s: string): (r: string)
    ensures |r| <= |s| && r == s[|s| - |r|..]
    ensures forall i :: 0 <= i < |s| - |r| ==> IsWhitespace(s[i])
    ensures r != [] ==> !IsWhitespace(r[0])
  {
    if s != [] && IsWhitespace(s[0]) then TrimStart(s[1..]) else s
  }

  /** `s` with its trailing whitespace removed. */
  function TrimEnd(s: string): (r: string)
    ensures |r| <= |s| && r == s[..|r|]
    ensures forall i :: |r| <= i < |s| ==> IsWhitespace(s[i])
    ensures r != [] ==> !IsWhitespace(r[|r| - 1])
  {
    if s != [] && IsWhitespace(s[|s| - 1]) then TrimEnd(s[..|s| - 1]) else s
  }

  /** `s.trimmingCharacters(in: .whitespacesAndNewlines)`: no longer than
      `s`, and neither starting nor ending with whitespace. */
  function Trim(s: string): (r: string)
    ensures |r| <= |s|
    ensures r != [] ==> !IsWhitespace(r[0]) && !IsWhitespace(r[|r| - 1])
  {
    var t := TrimStart(s);
    var r := TrimEnd(t);
    assert r != [] ==> r[0] == t[0];
    r
  }

  /** The trimmed text is the run of `s` between a whitespace-only head and a
      whitespace-only tail, and neither starts nor ends with whitespace. */
  lemma TrimMeaning(s: string)
    ensures var start := |s| - |TrimStart(s)|;
            start + |Trim(s)| <= |s| && Trim(s) == s[start..start + |Trim(s)|]
            && (forall i :: 0 <= i < start ==> IsWhitespace(s[i]))
            && (forall i :: start + |Trim(s)| <= i < |s| ==> IsWhitespace(s[i]))
    ensures Trim(s) != [] ==> !IsWhitespace(Trim(s)[0]) && !IsWhitespace(Trim(s)[|Trim(s)| - 1])
  {
    var t := TrimStart(s);
    var start := |s| - |t|;
    var r := TrimEnd(t);
    assert r == t[..|r|];
    forall i | start + |r| <= i < |s| ensures IsWhitespace(s[i]) {
      assert s[i] == t[i - start];
    }
    if r != [] {
      assert r[0] == t[0];
    }
  }

  /** Text that is all whitespace trims to nothing, and only such text does. */
  lemma TrimEmpty(s: string)
    ensures Trim(s) == [] <==> forall i :: 0 <= i < |s| ==> IsWhitespace(s[i])
  {
    TrimMeaning(s);
    if forall i :: 0 <= i < |s| ==> IsWhitespace(s[i]) {
      BlankTrimsAway(s);
    }
  }

  /** Leading-whitespace removal eats text that is all whitespace. */
  lemma {:induction false} BlankTrimsAway(s: string)
    requires forall i :: 0 <= i < |s| ==> IsWhitespace(s[i])
    ensures TrimStart(s) == []
  {
    if s != [] {
      assert IsWhitespace(s[0]);
      BlankTrimsAway(s[1..]);
    }
  }

  /** Trimming twice trims nothing more. */
  lemma {:induction false} TrimIdempotent(s: string)
    ensures Trim(Trim(s)) == Trim(s)
  {
    var r := Trim(s);
    TrimMeaning(s);
    if r == [] {
    } else {
      assert TrimStart(r) == r;
      assert TrimEnd(r) == r;
    }
  }

  /** The form. `spendings` and `payers` are bound to lists the enclosing
      views own; the other fields are the form's own state. */
  class AddSpendingForm {
    var spendings: seq<Spending>
    var payers: seq<string>
    var name: string
    var amount: string
    var selectedPayer: string
    var selectedParticipants: seq<string>
    var newParticipantName: string

    constructor (spendings: seq<Spending>, payers: seq<string>)
      ensures this.spendings == spendings && this.payers == payers
      ensures name == "" && amount == "" && selectedPayer == ""
      ensures selectedParticipants == [] && newParticipantName == ""
    {
      this.spendings := spendings;
      this.payers := payers;
      name, amount, selectedPayer := "", "", "";
      selectedParticipants, newParticipantName := [], "";
    }

    /** The names offered as participants: every payer, then "Other". */
    function Participants(): (r: seq<string>)
      reads this
      ensures forall x :: x in r <==> x in payers || x == "Other"
      ensures |r| == |payers| + 1 && r[..|payers|] == payers && r[|payers|] == "Other"
    {
      payers + ["Other"]
    }

    /** Choosing a payer in the picker, which lists exactly the payers. */
    method SelectPayer(payer: string)
      requires payer in payers
      modifies this`selectedPayer
      ensures selectedPayer == payer && selectedPayer in payers
    {
      selectedPayer := payer;
    }

    /** When the form appears the picker selects the first payer, or nothing
        when there are no payers. */
    method OnAppear()
      modifies this`selectedPayer
      ensures payers != [] ==> selectedPayer == payers[0]
      ensures payers == [] ==> selectedPayer == ""
    {
      selectedPayer := if |payers| > 0 then payers[0] else "";
    }

    /** Tapping a participant row: removes every copy of a selected
        participant, appends an unselected one. */
    method ToggleParticipant(participant: string)
      modifies this`selectedParticipants
      ensures selectedParticipants == Toggled(old(selectedParticipants), participant)
      ensures participant in selectedParticipants <==> participant !in old(selectedParticipants)
      ensures NoDup(old(selectedParticipants)) ==> NoDup(selectedParticipants)
    {
      if NoDup(selectedParticipants) {
        ToggleKeepsNoDup(selectedParticipants, participant);
      }
      if participant in selectedParticipants {
        selectedParticipants := Removed(selectedParticipants, participant);
      } else {
        selectedParticipants := selectedParticipants + [participant];
      }
    }

    /** Adds the trimmed custom name as a payer and selects it, unless it is
        empty or already offered; the text field is cleared either way. */
    method AddCustomParticipant()
      modifies this`payers, this`selectedParticipants, this`newParticipantName
      ensures var trimmed := Trim(old(newParticipantName));
              if trimmed != [] && trimmed !in old(payers) && trimmed != "Other" then
                payers == old(payers) + [trimmed]
                && selectedParticipants == old(selectedParticipants) + [trimmed]
              else
                payers == old(payers) && selectedParticipants == old(selectedParticipants)
      ensures "Other" !in old(payers) ==> "Other" !in payers
      ensures NoDup(old(payers)) ==> NoDup(payers)
      ensures newParticipantName == ""
    {
      var trimmedName := Trim(newParticipantName);
      if trimmedName != [] && trimmedName !in Participants() {
        payers := payers + [trimmedName];
        selectedParticipants := selectedParticipants + [trimmedName];
      }
      newParticipantName := "";
    }

    /** Appends one record built from the form when the amount parses and
        the name is not empty, and does nothing otherwise. The participant
        list is not checked. */
    method SaveSpending(parse: AmountParser)
      modifies this`spendings
      ensures parse(amount).Some? && name != "" ==>
                spendings == old(spendings)
                  + [Spending(name, parse(amount).value, selectedPayer, selectedParticipants)]
      ensures !(parse(amount).Some? && name != "") ==> spendings == old(spendings)
    {
      var amountValue := parse(amount);
      if amountValue.None? || name == "" {
        return;
      }
      var newSpending := Spending(name, amountValue.value, selectedPayer, selectedParticipants);
      spendings := spendings + [newSpending];
    }

    /** Empties the name, the amount and the selected participants; the
        payer choice stays. */
    method ClearFields()
      modifies this`name, this`amount, this`selectedParticipants
      ensures name == "" && amount == "" && selectedParticipants == []
    {
      name := "";
      amount := "";
      selectedParticipants := [];
    }

    /** The Save button: saves, then clears the fields whether or not the
        save was accepted. */
    method SaveAction(parse: AmountParser)
      modifies this`spendings, this`name, this`amount, this`selectedParticipants
      ensures var ok := parse(old(amount)).Some? && old(name) != "";
              spendings == if ok then old(spendings) + [Spending(old(name), parse(old(amount)).value,
                                                                  selectedPayer, old(selectedParticipants))]
                           else old(spendings)
      ensures name == "" && amount == "" && selectedParticipants == []
    {
      SaveSpending(parse);
      ClearFields();
    }
  }
}
