/** The older add-spending form declared beside `ContentView`: a fixed set
    of payers, and a Save that clears the fields only after a save it
    accepted. */
module LegacyAddSpending {
  import opened Lists
  import opened Records

  /** The payers the older form's picker offers. */
  const LegacyPayers: seq<string> := ["Eric", "BU", "Carl"]

  /** The participants the older form offers. */
  const LegacyParticipants: seq<string> := ["Eric", "BU", "Carl", "Other"]

  class LegacyAddSpendingForm {
    var spendings: seq<Spending>
    var name: string
    var amount: string
    var selectedPayer: string
    var selectedParticipants: seq<string>

    /** The picker always shows one of the fixed payers, and only offered
        participants can be selected. */
    ghost predicate Valid()
      reads this
    {
      selectedPayer in LegacyPayers
      && forall i :: 0 <= i < |selectedParticipants| ==> selectedParticipants[i] in LegacyParticipants
    }

    constructor (spendings: seq<Spending>)
      ensures Valid()
      ensures this.spendings == spendings && selectedPayer == "Eric"
      ensures name == "" && amount == "" && selectedParticipants == []
    {
      this.spendings := spendings;
      name, amount, selectedPayer, selectedParticipants := "", "", "Eric", [];
    }

    /** Tapping a payer segment; the segments show only the fixed payers. */
    method SelectPayer(payer: string)
      requires Valid() && payer in LegacyPayers
      modifies this`selectedPayer
      ensures Valid() && selectedPayer == payer
    {
      selectedPayer := payer;
    }

    /** Tapping a participant's check mark: removes every copy of a selected
        participant, appends an unselected one. The list shows only the
        fixed participants. */
    method ToggleParticipant(participant: string)
      requires Valid() && participant in LegacyParticipants
      modifies this`selectedParticipants
      ensures Valid()
      ensures selectedParticipants == Toggled(old(selectedParticipants), participant)
      ensures participant in selectedParticipants <==> participant !in old(selectedParticipants)
      ensures NoDup(old(selectedParticipants)) ==> NoDup(selectedParticipants)
    {
      if NoDup(selectedParticipants) {
        ToggleKeepsNoDup(selectedParticipants, participant);
      }
      if participant in selectedParticipants {
        selectedParticipants := Removed(selectedParticipants, participant);
      } else {
        selectedParticipants := selectedParticipants + [participant];
      }
    }

    /** Rejected input changes nothing; accepted input appends one record and
        then clears the name, the amount and the selected participants. */
    method SaveSpending(parse: AmountParser)
      requires Valid()
      modifies this`spendings, this`name, this`amount, this`selectedParticipants
      ensures Valid()
      ensures var ok := parse(old(amount)).Some? && old(name) != "";
              if ok then
                spendings == old(spendings) + [Spending(old(name), parse(old(amount)).value,
                                                        selectedPayer, old(selectedParticipants))]
                && name == "" && amount == "" && selectedParticipants == []
              else
                spendings == old(spendings) && name == old(name) && amount == old(amount)
                && selectedParticipants == old(selectedParticipants)
    {
      var amountValue := parse(amount);
      if amountValue.None? || name == "" {
        return;
      }
      var newSpending := Spending(name, amountValue.value, selectedPayer, selectedParticipants);
      spendings := spendings + [newSpending];
      ClearFields();
    }

    /** Empties the name, the amount and the selected participants; the
        payer choice stays. */
    method ClearFields()
      modifies this`name, this`amount, this`selectedParticipants
      ensures name == "" && amount == "" && selectedParticipants == []
    {
      name := "";
      amount := "";
      selectedParticipants := [];
    }
  }
}
