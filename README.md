# SpendingTracking in Dafny

SpendingTracking is a small SwiftUI app for a group that shares expenses. Each
expense is a `Spending` record with a name, an amount, a payer and the list of
participants it was for. This project models the logic of the app's views in
Dafny and proves properties of it:

- **The record screen** (`RecordView`). Its summary bar shows, for every
  participant, the sum of that person's shares. A record's amount is split
  evenly across its participant list. Each time a name appears in the list,
  that name gets one share. The screen also deletes records by swipe.
- **The add-spending form** (`AddSpendingView`). The form does four things:
  - selects a payer in its picker;
  - toggles participants;
  - adds a custom participant, which also becomes a payer;
  - saves a new record, or clears the fields.
- **The older add-spending form** declared in `ContentView.swift`. It has a
  fixed list of payers. Its Save clears the fields only after an accepted save.
- **The settings screen** (`SettingsView`). It adds, deletes and reorders
  payers.

Each Swift view whose state changes in place is a Dafny `class`. Its fields
are the view's `@State` and `@Binding` variables, and its methods update
them. The list operations the views call are functions in module `Lists`:
`removeAll(where:)`, `remove(atOffsets:)` and `move(fromOffsets:toOffset:)`.
Proved lemmas say what these functions do. The summary bar's nested loop is a
method with loop invariants, `Sums.RecordList.CalculateParticipantSums`. It
is proved against the fold `Sums.SumsOf`. That fold is in turn tied to an
independent account of each person's charge: `Sums.Owed`, which gives one
share per occurrence of the name.

Amounts are Dafny `real`s. Equalities that hold over the reals, such as the
values adding up to the total, hold only approximately for the app's `Double`s.

Files:
- `lists.dfy` holds module `Lists`.
- `records.dfy` holds module `Records`: the record type and the seed list.
- `sums.dfy` holds module `Sums`, for the record screen.
- `add_spending.dfy` holds module `AddSpending`.
- `legacy_add_spending.dfy` holds module `LegacyAddSpending`.
- `settings.dfy` holds module `Settings`.

### What the code does not do

- The app computes no "paid" totals, no balances and no settlements. Its
  only computation is the share fold. The `payer` field is stored and shown,
  but it plays no part in any total.
- A record with an empty participant list is not rejected. The fold reaches
  it, and the inner loop never runs, so it adds nothing.
- Either form's `saveSpending` accepts any amount the parser returns,
  including zero or a negative one.
- Either form's `saveSpending` also accepts an empty participant list.

## Model

| member | source | states |
|---|---|---|
| `Sums.RecordList.CalculateParticipantSums` | SpendingTracking/RecordView.swift:87-98 | The nested loop returns exactly the fold `SumsOf`. Its keys are exactly the names in some record's participant list. Each value is that name's `Owed`: one share for each time a record lists the name. |
| `Sums.SumsOfMeaning` | SpendingTracking/RecordView.swift:88-94 | For one name: the name is a key of the result if and only if some record lists it as a participant. Its total, reading a missing key as 0, is the sum over the records of (occurrences × amount / participant count). |
| `Sums.SumsOfIs` | SpendingTracking/RecordView.swift:88-94 | The same for the whole map: key set = the mentioned names, and every value = `Owed`. |
| `Sums.SumsOf` | SpendingTracking/RecordView.swift:88-97 | The fold of the records in order. Its keys are exactly the names that some record lists as a participant. |
| `Sums.MentionedLast` | SpendingTracking/RecordView.swift:90-92 | A name is listed in some record exactly when it is listed before the last record or by the last record. |
| `Sums.AddRecordSharesKeys` | SpendingTracking/RecordView.swift:90-94 | One pass of the outer loop adds a key for exactly the record's participants. Existing keys stay. |
| `Sums.AddShare` | SpendingTracking/RecordView.swift:93 | `sums[p, default: 0.0] += share` makes `p` a key holding its old value (0 if missing) plus `share`. Every other key and value is unchanged. |
| `Sums.AddSharesKeys` | SpendingTracking/RecordView.swift:92-93 | The inner loop adds a key exactly for each name in the participant list. Existing keys stay. |
| `Sums.AddSharesValue` | SpendingTracking/RecordView.swift:92-93 | The inner loop raises each name's entry, defaulting to 0, by one share per occurrence. A name listed twice gets two shares. |
| `Sums.SharesIsProduct` | SpendingTracking/RecordView.swift:91-93 | k repeated share additions equal k × share. |
| `Sums.OwedAppend` | SpendingTracking/RecordView.swift:90-94 | The charges of two record lists put together add up. |
| `Sums.OwedPermutation` | SpendingTracking/RecordView.swift:90-94 | Reordering the records does not change any name's charge. |
| `Sums.SameChargesSameSums` | SpendingTracking/RecordView.swift:87-98 | Two record lists that mention the same names and charge each name the same produce the same dictionary. |
| `Sums.SumsOrderIndependent` | SpendingTracking/RecordView.swift:88-94 | Any two record lists with the same records (the same multiset) give the same dictionary. The result does not depend on record order. |
| `Sums.EmptyRecordAddsNothing` | SpendingTracking/RecordView.swift:91-92 | A record with an empty participant list, anywhere in the list, changes neither keys nor values. |
| `Sums.PayerIrrelevant` | SpendingTracking/RecordView.swift:90-94 | Two record lists that agree on every amount and participant list give the same dictionary, whatever their payers and names. |
| `Sums.SumAtEmpty` | SpendingTracking/RecordView.swift:88 | The starting empty dictionary sums to 0 over any names. |
| `Sums.AddShareSum` | SpendingTracking/RecordView.swift:93 | One `+= share` raises the sum over a duplicate-free list of names by `share` when the updated name is in the list. |
| `Sums.AddSharesSum` | SpendingTracking/RecordView.swift:92-93 | The inner loop raises that sum by (participant count) × share. |
| `Sums.AddRecordSharesSum` | SpendingTracking/RecordView.swift:90-94 | One pass of the outer loop raises the sum over duplicate-free names covering the participants by the record's amount, or by nothing when the list is empty. |
| `Sums.SumsTotalOver` | SpendingTracking/RecordView.swift:90-94 | Summed over duplicate-free names that cover every participant, the totals equal the summed amount of the records that have participants. |
| `Sums.SumsAddUpToTotal` | SpendingTracking/RecordView.swift:90-94 | Over the reals, the values of the dictionary sum to the total amount of the records with a non-empty participant list. |
| `Sums.LunchSums` | SpendingTracking/ContentView.swift:43 | The seed's Lunch record alone (20, Carl, Eric, BU) gives Carl = Eric = BU = 20/3. Nothing else is a key. |
| `Sums.DuplicateEarnsTwoShares` | SpendingTracking/RecordView.swift:91-93 | A record of 9 for [Carl, Eric, Carl] gives Carl 6 and Eric 3. |
| `Sums.RecordList.DeleteSpending` | SpendingTracking/RecordView.swift:83-85 | `spendings` becomes `Without(old, offsets)`. The list shrinks by the number of offsets. |
| `Sums.RecordList.constructor` | SpendingTracking/RecordView.swift:27 | The screen holds the bound list of spendings as given. |
| `Lists.WithoutMeaning` | SpendingTracking/RecordView.swift:84 | `remove(atOffsets:)` with valid offsets drops exactly those entries. The length falls by the number of offsets. Entry j of the result is the entry at the j-th surviving offset in ascending order, so survivors keep their relative order. |
| `Lists.Without` | SpendingTracking/RecordView.swift:84 | `remove(atOffsets:)` adds nothing: the result is a sub-multiset of the input. Every entry at an offset not in the set survives. |
| `Lists.SelectKeepsOutside` | SettingsView.swift:60 | Every entry whose offset is not removed is among the kept entries. |
| `Lists.WithoutKeepsNoDup` | SettingsView.swift:59-60 | A duplicate-free list stays duplicate-free after `remove(atOffsets:)`. |
| `Lists.SelectAt` | SettingsView.swift:60 | An offset-based selection is exactly the entries at its kept offsets. The kept offsets are ascending. |
| `Lists.SelectSplit` | SettingsView.swift:66 | A selection over a range is the selection over its two halves, one after the other. |
| `Lists.SelectPartition` | SettingsView.swift:66 | The entries at the offsets and the other entries together are the range, as a multiset. |
| `Lists.SelectAgree` | SpendingTracking/AddSpendingView.swift:245 | A selection depends only on the entries and offsets inside its range. |
| `Lists.SelectOutsideLength` | SpendingTracking/RecordView.swift:84 | Keeping the entries outside the offsets leaves `hi` entries minus the number of offsets below `hi`. |
| `Lists.MovedParts` | SettingsView.swift:66 | The entries kept before the destination, the moved entries and the entries kept after it together hold every entry of the list, each as often as before. |
| `Lists.Moved` | SettingsView.swift:66 | `move(fromOffsets:toOffset:)` gives a list with the same multiset of names and the same length: it only reorders. |
| `Lists.MovedToEnd` | SettingsView.swift:65-66 | Moving the first of three entries to offset 3 puts it last. The destination counts positions in the list before the move. |
| `Lists.MovedToFront` | SettingsView.swift:65-66 | Moving the last of three entries to offset 0 puts it first. |
| `Lists.NoDupMultiplicity` | SettingsView.swift:66 | A list has no duplicates exactly when no multiplicity exceeds one. |
| `Lists.PermutationKeepsNoDup` | SettingsView.swift:65-66 | A reordering of a duplicate-free payer list is duplicate-free. |
| `Lists.Count` | SpendingTracking/RecordView.swift:92 | The occurrence count is at most the length, and positive exactly when the name occurs. |
| `Lists.Removed` | SpendingTracking/AddSpendingView.swift:245 | `removeAll { $0 == x }` leaves no `x`. It keeps every other entry and adds nothing. The length drops by the number of copies of `x`. |
| `Lists.RemovedAbsent` | SpendingTracking/AddSpendingView.swift:245 | Removing an absent name changes nothing. |
| `Lists.RemovedIsWithoutPositions` | SpendingTracking/AddSpendingView.swift:245 | `removeAll` equals deleting the offsets where `x` occurs, so the other entries keep their order. |
| `Lists.RemovedKeepsNoDup` | SpendingTracking/AddSpendingView.swift:245 | `removeAll` keeps a duplicate-free list duplicate-free. |
| `Lists.Toggled` | SpendingTracking/AddSpendingView.swift:243-248 | After a toggle, p is selected if and only if it was not selected before. Every other selected entry stays selected, and nothing but p is added. |
| `Lists.ToggleMeaning` | SpendingTracking/AddSpendingView.swift:244-247 | A selected p loses every copy, and the other entries keep their order. An unselected p is appended at the end, and earlier entries are untouched. |
| `Lists.ToggleKeepsNoDup` | SpendingTracking/AddSpendingView.swift:243-248 | A duplicate-free selection stays duplicate-free after a toggle. |
| `Lists.ToggleTwiceRestores` | SpendingTracking/AddSpendingView.swift:243-248 | Toggling an unselected p twice restores the original selection. |
| `Records.Spending` | SpendingTracking/ContentView.swift:10-16 | An expense record: name, amount, payer and participant list. The `UUID` `id` is not modelled. |
| `Records.Seed` | SpendingTracking/ContentView.swift:42-59 | The 16 records the app starts with, in the source's order and with its values. |
| `LegacyAddSpending.LegacyPayers` | SpendingTracking/ContentView.swift:86 | The older form's fixed payers "Eric", "BU", "Carl". `Valid()` keeps `selectedPayer` among them. |
| `LegacyAddSpending.LegacyParticipants` | SpendingTracking/ContentView.swift:87 | The older form's fixed participants "Eric", "BU", "Carl", "Other". `Valid()` keeps the selection among them. |
| `Records.SeedWellFormed` | SpendingTracking/ContentView.swift:42-59 | The seed `Records.Seed` holds 16 `Records.Spending` records (the struct at lines 10-16 without its `id`), each with a positive amount and a non-empty participant list. |
| `AddSpending.TrimStart` | SpendingTracking/AddSpendingView.swift:234 | The result is a suffix of the input. Only whitespace was removed before it, and it does not start with whitespace. |
| `AddSpending.TrimEnd` | SpendingTracking/AddSpendingView.swift:234 | The result is a prefix of the input. Only whitespace follows it, and it does not end with whitespace. |
| `AddSpending.Trim` | SpendingTracking/AddSpendingView.swift:234 | The trimmed name is no longer than the typed one, and neither starts nor ends with whitespace. |
| `AddSpending.WhitespaceRanges` | SpendingTracking/AddSpendingView.swift:234 | `IsWhitespace`, the set `.whitespacesAndNewlines` strips, is exactly U+0009 to U+000D, the Unicode space separators (U+0020, U+00A0, U+1680, U+2000 to U+200A, U+202F, U+205F, U+3000), U+0085, U+2028 and U+2029. |
| `AddSpending.TrimMeaning` | SpendingTracking/AddSpendingView.swift:234 | The trimmed name is the run of the input between a whitespace-only head and tail. It neither starts nor ends with whitespace. |
| `AddSpending.TrimEmpty` | SpendingTracking/AddSpendingView.swift:234-235 | A name trims to empty exactly when it is all whitespace. |
| `AddSpending.BlankTrimsAway` | SpendingTracking/AddSpendingView.swift:234 | All-whitespace text loses everything to leading-whitespace removal. |
| `AddSpending.TrimIdempotent` | SpendingTracking/AddSpendingView.swift:234 | Trimming a trimmed name changes nothing. |
| `AddSpending.AddSpendingForm.constructor` | SpendingTracking/AddSpendingView.swift:11-24 | The form starts with empty text fields, no payer chosen and no participants selected. |
| `AddSpending.AddSpendingForm.Participants` | SpendingTracking/AddSpendingView.swift:15-17 | The offered participants are the payers in order followed by "Other". A name is offered exactly when it is a payer or "Other". |
| `AddSpending.AddSpendingForm.SelectPayer` | SpendingTracking/AddSpendingView.swift:44-56 | Choosing an entry in the picker, which lists exactly the payers, makes it `selectedPayer`. The chosen payer is one of the payers. |
| `AddSpending.AddSpendingForm.OnAppear` | SpendingTracking/AddSpendingView.swift:130-132 | `selectedPayer` becomes the first payer, or "" when there are none. |
| `AddSpending.AddSpendingForm.ToggleParticipant` | SpendingTracking/AddSpendingView.swift:243-249 | The selection becomes `Toggled(old, p)`, and p's membership flips. A duplicate-free selection stays duplicate-free. Only the selection changes. |
| `AddSpending.AddSpendingForm.AddCustomParticipant` | SpendingTracking/AddSpendingView.swift:233-240 | The trimmed name is appended to both `payers` and the selection exactly when it is non-empty, not a payer and not "Other". Otherwise both lists stay the same, so "Other" never becomes a payer. Payers stay duplicate-free. The text field is always emptied. |
| `AddSpending.AddSpendingForm.SaveSpending` | SpendingTracking/AddSpendingView.swift:201-210 | If the amount does not parse or the name is empty, `spendings` is unchanged. Otherwise exactly one record (name, parsed amount, selected payer, selected participants) is appended at the end. Participants are not checked, and nothing else changes. |
| `AddSpending.AddSpendingForm.ClearFields` | SpendingTracking/AddSpendingView.swift:226-231 | Name, amount and selection become empty. `selectedPayer` and `payers` are untouched. |
| `AddSpending.AddSpendingForm.SaveAction` | SpendingTracking/AddSpendingView.swift:168-173 | Save appends the record only on valid input, and clears the fields even after a rejected save. |
| `LegacyAddSpending.LegacyAddSpendingForm.constructor` | SpendingTracking/ContentView.swift:80-87 | The older form starts with `selectedPayer` "Eric", which is one of the fixed payers `LegacyPayers` (line 86), and nothing selected. |
| `LegacyAddSpending.LegacyAddSpendingForm.SelectPayer` | SpendingTracking/ContentView.swift:101-108 | A tap sets `selectedPayer` to one of "Eric", "BU", "Carl", so it stays one of them. |
| `LegacyAddSpending.LegacyAddSpendingForm.ToggleParticipant` | SpendingTracking/ContentView.swift:139-147 | A tap on one of the fixed participants `LegacyParticipants` (line 87) applies the same flip as the newer form (lines 193-199): all copies are removed, or the name is appended at the end. The selection stays within the fixed participants. |
| `LegacyAddSpending.LegacyAddSpendingForm.SaveSpending` | SpendingTracking/ContentView.swift:214-224 | Invalid input leaves `spendings` and all fields unchanged. Valid input appends one record and then clears name, amount and selection. The payer stays one of the fixed three. |
| `LegacyAddSpending.LegacyAddSpendingForm.ClearFields` | SpendingTracking/ContentView.swift:226-231 | Name, amount and selection become empty. `selectedPayer` is untouched. |
| `Settings.PayerSettings.AddPayer` | SettingsView.swift:51-56 | Empty or already-present text leaves `payers` and `newPayer` unchanged. Otherwise the text, untrimmed, is appended and `newPayer` becomes "". Payers stay duplicate-free. |
| `Settings.PayerSettings.DeletePayer` | SettingsView.swift:59-62 | Exactly the payers at the offsets are removed, and the others keep their order. The length drops by the number of offsets. Payers stay duplicate-free. |
| `Settings.PayerSettings.MovePayer` | SettingsView.swift:65-68 | The payers at `source` move, in order, before the entry at `destination`. The result is a permutation of the old list with the same length. Payers stay duplicate-free. |
| `Settings.PayerSettings.constructor` | SettingsView.swift:11-12 | The screen holds the bound payers as given, and the "Add New Payer" field starts empty. |

## Left out

- Layout, modifiers, animations, tab wiring and keyboard dismissal. This covers the `body` properties, `RoundedTextFieldModifier` and `isSegmentedStyle`. They are presentation only.
- Writing `spendings.json`, and `savePayers` writing to `UserDefaults`. These are file and preference I/O, and saving is treated as doing nothing.
- The `print` diagnostics in both `saveSpending`s are left out, because they are console output only.
- `Double(amount)` is foreign parsing. It is a parameter of type `string -> Option<real>`, so every property holds whatever the parser accepts.
- `AddSpending.Trim` models Foundation's `.whitespacesAndNewlines` as a fixed list of 25 space and line-break characters. Foundation's full Unicode property tables are not modelled.
- Floating-point rounding and the `%.2f` display formatting are left out. Amounts are exact reals.
- In the share fold, the source computes `amount / 0` for a record with no participants. It never uses the result (an infinity or NaN in Swift). The model skips the division in that case and uses a placeholder that is never read.
- The `UUID` `id` of a record is left out. It only tells list rows apart.
- `getSegmentWidth` and `getIndicatorOffset` are left out. They are screen geometry.
- `SpendingTrackingApp.swift` is left out. It is the entry point and refers to a `MockData` that is not part of this model.
- The `@Binding`s are not modelled as aliases. The form's `payers`, the settings screen's `payers` and the record screen's `spendings` are separate fields of separate objects. The model does not capture that an edit in one view shows up in another.
- The wiring inconsistencies are not reconciled: two `AddSpendingView`s, and `ContentView` building views without the `payers` binding. Each form's operations are modelled on their own.
- `remove(atOffsets:)` and `move(fromOffsets:toOffset:)` require valid offsets and a destination within the list. The Swift library traps otherwise, and SwiftUI's delete and move gestures only pass valid ones.
- Settlement, netting and "paid" totals are left out because the code has none.
- Names are compared code point by code point. Swift's `String ==` treats canonically equivalent strings as equal, for example "caf\u{E9}" and "cafe\u{301}". Dafny's `string` equality does not. This affects the dictionary keys of the share fold, `contains` and `removeAll` in both toggles and in `addCustomParticipant`, and `payers.contains` in `addPayer`. Where the app sees two spellings of one name as the same, the model sees two names. So `AddPayer` can append a second spelling the app would refuse, and one record listing both spellings gives two keys where the app has one. Unicode normalisation is not modelled.
