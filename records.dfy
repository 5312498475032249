/** The expense record of the app and the list `ContentView` starts with. */
module Records {

  datatype Option<T> = None | Some(value: T)

  /** One shared expense: a label, the amount, who fronted it and who it was
      for. The record is immutable once made. Its `id` (a fresh UUID used
      only to tell rows of a list apart) is not modelled. */
  datatype Spending = Spending(name: string, amount: real, payer: string, participants: seq<string>)

  /** `Double(text)`: the foreign parse of the amount field; `None` when the
      text is not a number. */
  type AmountParser = string -> Option<real>

  /** A record whose amount is positive and that names at least one participant. */
  predicate WellFormed(s: Spending) {
    s.amount > 0.0 && |s.participants| > 0
  }

  /** The list of spendings `ContentView` holds before anything is added. */
  const Seed: seq<Spending> := [
    Spending("Lunch", 20.0, "Carl", ["Carl", "Eric", "BU"]),
    Spending("Coffee", 5.5, "Eric", ["Eric", "Carl"]),
    Spending("Groceries", 100.0, "BU", ["Carl", "Eric", "BU"]),
    Spending("Taxi Ride", 25.0, "Carl", ["Carl", "Eric"]),
    Spending("Movie Tickets", 45.0, "Eric", ["Eric", "BU"]),
    Spending("Gym Membership", 60.0, "BU", ["BU"]),
    Spending("Concert Tickets", 120.0, "Carl", ["Carl", "Eric", "BU"]),
    Spending("Dinner Party", 80.0, "Eric", ["Carl", "Eric", "BU"]),
    Spending("Office Supplies", 30.0, "BU", ["Carl", "Eric", "BU", "Other"]),
    Spending("Shared Rent", 400.0, "Carl", ["Carl", "Eric", "BU", "Other"]),
    Spending("Road Trip Gas", 75.0, "Other", ["Carl", "Eric", "Other"]),
    Spending("Gift for Boss", 50.0, "Eric", ["Eric", "Other"]),
    Spending("Holiday Groceries", 200.0, "BU", ["Carl", "BU", "Other"]),
    Spending("Streaming Subscription", 15.0, "Other", ["Carl", "BU", "Other"]),
    Spending("Shared Utilities", 120.0, "Carl", ["Carl", "Eric", "BU", "Other"]),
    Spending("Weekend Getaway", 300.0, "Eric", ["Carl", "Eric", "Other"])
  ]

  /** Every seed record has a positive amount and at least one participant. */
  lemma SeedWellFormed()
    ensures |Seed| == 16
    ensures forall i :: 0 <= i < |Seed| ==> WellFormed(Seed[i])
  {
  }
}
