/** The settings screen: the editable list of payers. */
module Settings {
  import opened Lists

  class PayerSettings {
    /** Bound to the list the app shares with the add-spending form. */
    var payers: seq<string>
    /** The "Add New Payer" text field. */
    var newPayer: string

    constructor (payers: seq<string>)
      ensures this.payers == payers && newPayer == ""
    {
      this.payers := payers;
      newPayer := "";
    }

    /** Appends the typed name, untrimmed, unless it is empty or already a
        payer; the text field is cleared only when the name was added. */
    method AddPayer()
      modifies this
      ensures old(newPayer) != "" && old(newPayer) !in old(payers) ==>
                payers == old(payers) + [old(newPayer)] && newPayer == ""
      ensures !(old(newPayer) != "" && old(newPayer) !in old(payers)) ==>
                payers == old(payers) && newPayer == old(newPayer)
      ensures NoDup(old(payers)) ==> NoDup(payers)
    {
      if newPayer == "" || newPayer in payers {
        return;
      }
      payers := payers + [newPayer];
      newPayer := "";
    }

    /** Swipe-to-delete: removes exactly the payers at `offsets`; the others
        keep their order. */
    method DeletePayer(offsets: set<nat>)
      requires ValidOffsets(offsets, |payers|)
      modifies this`payers
      ensures payers == Without(old(payers), offsets)
      ensures |payers| == |old(payers)| - |offsets|
      ensures NoDup(old(payers)) ==> NoDup(payers)
    {
      WithoutMeaning(payers, offsets);
      if NoDup(payers) {
        WithoutKeepsNoDup(payers, offsets);
      }
      payers := Without(payers, offsets);
    }

    /** Drag-to-reorder: the payers at `source` move before the entry that
        stood at `destination`; the list is a permutation of the old one. */
    method MovePayer(source: set<nat>, destination: nat)
      requires ValidOffsets(source, |payers|) && destination <= |payers|
      modifies this`payers
      ensures payers == Moved(old(payers), source, destination)
      ensures multiset(payers) == multiset(old(payers)) && |payers| == |old(payers)|
      ensures NoDup(old(payers)) ==> NoDup(payers)
    {
      if NoDup(payers) {
        PermutationKeepsNoDup(payers, Moved(payers, source, destination));
      }
      payers := Moved(payers, source, destination);
    }
  }
}
