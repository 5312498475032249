/** The record list screen: the per-participant totals of its summary bar
    and swipe-to-delete. */
module Sums {
  import opened Lists
  import opened Records

  /** What `m[k, default: 0.0]` reads. */
  function Get(m: map<string, real>, k: string): real {
    if k in m then m[k] else 0.0
  }

  /** `sums[p, default: 0.0] += share`. */
  function AddShare(m: map<string, real>, p: string, share: real): (r: map<string, real>)
    ensures p in r && r[p] == Get(m, p) + share
    ensures forall k :: k != p ==> (k in r <==> k in m) && Get(r, k) == Get(m, k)
  {
    m[p := Get(m, p) + share]
  }

  /** The inner loop over one record: one share for each entry of `ps`. */
  function AddShares(m: map<string, real>, ps: seq<string>, share: real): map<string, real>
    decreases |ps|
  {
    if ps == [] then m
    else AddShare(AddShares(m, ps[..|ps| - 1], share), ps[|ps| - 1], share)
  }

  /** A record's amount split evenly across its participant list. */
  function ShareOf(s: Spending): real
    requires |s.participants| > 0
  {
    s.amount / (|s.participants| as real)
  }

  /** One pass of the outer loop. The source divides by the participant
      count before looking at it; with no participants the inner loop never
      runs, so the quotient is never used and the map is left as it was. */
  function AddRecordShares(m: map<string, real>, s: Spending): map<string, real> {
    if s.participants == [] then m else AddShares(m, s.participants, ShareOf(s))
  }

  /** The dictionary `calculateParticipantSums` builds from `spendings`: it
      has a key for exactly the names some record lists as a participant. */
  function SumsOf(spendings: seq<Spending>): (r: map<string, real>)
    ensures forall name :: name in r <==> Mentioned(spendings, name)
    decreases |spendings|
  {
    if spendings == [] then map[]
    else
      var n := |spendings|;
      MentionedLast(spendings);
      AddRecordSharesKeys(SumsOf(spendings[..n - 1]), spendings[n - 1]);
      AddRecordShares(SumsOf(spendings[..n - 1]), spendings[n - 1])
  }

  /** A name is mentioned in a non-empty list exactly when it is mentioned
      before the last record or by the last record. */
  lemma MentionedLast(spendings: seq<Spending>)
    requires spendings != []
    ensures var n := |spendings|;
            forall name :: Mentioned(spendings, name)
              <==> Mentioned(spendings[..n - 1], name) || name in spendings[n - 1].participants
  {
    var n := |spendings|;
    var p := spendings[..n - 1];
    forall name ensures Mentioned(spendings, name) <==> Mentioned(p, name) || name in spendings[n - 1].participants {
      if Mentioned(spendings, name) {
        var i :| 0 <= i < n && name in spendings[i].participants;
        if i < n - 1 {
          assert p[i] == spendings[i];
        }
      }
      if Mentioned(p, name) {
        var i :| 0 <= i < n - 1 && name in p[i].participants;
        assert spendings[i] == p[i];
      }
    }
  }

  /** Folding one record adds a key for exactly its participants. */
  lemma AddRecordSharesKeys(m: map<string, real>, s: Spending)
    ensures forall name :: name in AddRecordShares(m, s) <==> name in m || name in s.participants
  {
    forall name ensures name in AddRecordShares(m, s) <==> name in m || name in s.participants {
      if s.participants != [] {
        AddSharesKeys(m, s.participants, ShareOf(s), name);
      }
    }
  }

  // ---------------------------------------------------------------------
  // An independent account of what the fold computes

  /** `k` shares of `share` each, that is `k * share`, written as repeated
      addition. */
  function Shares(k: nat, share: real): real {
    if k == 0 then 0.0 else Shares(k - 1, share) + share
  }

  /** What record `s` charges `name`: one share per occurrence of `name` in
      its participant list, nothing when the list is empty. */
  function Charged(s: Spending, name: string): real {
    if s.participants == [] then 0.0 else Shares(Count(s.participants, name), ShareOf(s))
  }

  /** What all of `spendings` charge `name`. */
  function Owed(spendings: seq<Spending>, name: string): real
    decreases |spendings|
  {
    if spendings == [] then 0.0
    else Owed(spendings[..|spendings| - 1], name) + Charged(spendings[|spendings| - 1], name)
  }

  /** `name` is a participant of some record. */
  predicate Mentioned(spendings: seq<Spending>, name: string) {
    exists i :: 0 <= i < |spendings| && name in spendings[i].participants
  }

  /** The amount of every record that names at least one participant. */
  function TotalAmount(spendings: seq<Spending>): real
    decreases |spendings|
  {
    if spendings == [] then 0.0
    else
      var s := spendings[|spendings| - 1];
      TotalAmount(spendings[..|spendings| - 1]) + (if s.participants == [] then 0.0 else s.amount)
  }

  /** The sum of the values `m` holds at `keys`, reading missing keys as 0. */
  function SumAt(m: map<string, real>, keys: seq<string>): real
    decreases |keys|
  {
    if keys == [] then 0.0 else Get(m, keys[0]) + SumAt(m, keys[1..])
  }

  // ---------------------------------------------------------------------
  // What the fold computes

  /** The inner loop adds `name` as a key exactly when it occurs in `ps`. */
  lemma {:induction false} AddSharesKeys(m: map<string, real>, ps: seq<string>, share: real, name: string)
    ensures name in AddShares(m, ps, share) <==> name in m || name in ps
    decreases |ps|
  {
    if ps != [] {
      var p, last := ps[..|ps| - 1], ps[|ps| - 1];
      AddSharesKeys(m, p, share, name);
      assert ps == p + [last];
    }
  }

  /** The inner loop adds one share to `name` for every occurrence in `ps`. */
  lemma {:induction false} AddSharesValue(m: map<string, real>, ps: seq<string>, share: real, name: string)
    ensures Get(AddShares(m, ps, share), name) == Get(m, name) + Shares(Count(ps, name), share)
    decreases |ps|
  {
    if ps != [] {
      var p, last := ps[..|ps| - 1], ps[|ps| - 1];
      AddSharesValue(m, p, share, name);
      var before := AddShares(m, p, share);
      assert AddShares(m, ps, share) == AddShare(before, last, share);
      assert Count(ps, name) == Count(p, name) + (if last == name then 1 else 0);
    }
  }

  /** `Shares(k, share)` is the product `k * share`. */
  lemma {:induction false} SharesIsProduct(k: nat, share: real)
    ensures Shares(k, share) == k as real * share
  {
    if k > 0 {
      SharesIsProduct(k - 1, share);
      assert k as real * share == (k - 1) as real * share + share;
    }
  }

  /** The keys of the result are exactly the names that occur in some
      record's participant list, and each name's total is one share of
      every record for each time the record lists it. */
  lemma {:induction false} SumsOfMeaning(spendings: seq<Spending>, name: string)
    ensures name in SumsOf(spendings) <==> Mentioned(spendings, name)
    ensures Get(SumsOf(spendings), name) == Owed(spendings, name)
    decreases |spendings|
  {
    if spendings != [] {
      var n := |spendings|;
      var p, s := spendings[..n - 1], spendings[n - 1];
      SumsOfMeaning(p, name);
      assert SumsOf(spendings) == AddRecordShares(SumsOf(p), s);
      assert Owed(spendings, name) == Owed(p, name) + Charged(s, name);
      if s.participants != [] {
        AddSharesValue(SumsOf(p), s.participants, ShareOf(s), name);
      }
    }
  }

  /** The fold in map form: `SumsOf` holds `Owed` at exactly the mentioned names. */
  lemma SumsOfIs(spendings: seq<Spending>)
    ensures forall name :: name in SumsOf(spendings) <==> Mentioned(spendings, name)
    ensures forall name :: name in SumsOf(spendings) ==> SumsOf(spendings)[name] == Owed(spendings, name)
  {
    forall name
      ensures name in SumsOf(spendings) <==> Mentioned(spendings, name)
      ensures name in SumsOf(spendings) ==> SumsOf(spendings)[name] == Owed(spendings, name)
    {
      SumsOfMeaning(spendings, name);
    }
  }

  /** Two record lists with the same mentioned names and the same charges
      produce the same dictionary. */
  lemma SameChargesSameSums(a: seq<Spending>, b: seq<Spending>)
    requires forall name :: Mentioned(a, name) <==> Mentioned(b, name)
    requires forall name :: Owed(a, name) == Owed(b, name)
    ensures SumsOf(a) == SumsOf(b)
  {
    var ma, mb := SumsOf(a), SumsOf(b);
    forall name ensures name in ma <==> name in mb {
      assert Mentioned(a, name) <==> Mentioned(b, name);
    }
    forall name | name in ma ensures ma[name] == mb[name] {
      SumsOfMeaning(a, name);
      SumsOfMeaning(b, name);
    }
    assert ma.Keys == mb.Keys;
  }

  // ---------------------------------------------------------------------
  // Laws of the fold

  /** The charges of a concatenation add up. */
  lemma {:induction false} OwedAppend(a: seq<Spending>, b: seq<Spending>, name: string)
    ensures Owed(a + b, name) == Owed(a, name) + Owed(b, name)
    decreases |b|
  {
    if b != [] {
      var m := |b|;
      OwedAppend(a, b[..m - 1], name);
      assert (a + b)[..|a + b| - 1] == a + b[..m - 1];
      assert (a + b)[|a + b| - 1] == b[m - 1];
      assert Owed(a + b, name) == Owed(a + b[..m - 1], name) + Charged(b[m - 1], name);
      assert Owed(b, name) == Owed(b[..m - 1], name) + Charged(b[m - 1], name);
    } else {
      assert a + b == a;
    }
  }

  /** Reordering the records does not change anyone's charge. */
  lemma {:induction false} OwedPermutation(a: seq<Spending>, b: seq<Spending>, name: string)
    requires multiset(a) == multiset(b)
    ensures Owed(a, name) == Owed(b, name)
    decreases |a|
  {
    if a != [] {
      var n := |a|;
      var s := a[n - 1];
      assert a == a[..n - 1] + [s];
      assert s in multiset(b);
      var i :| 0 <= i < |b| && b[i] == s;
      var rest := b[..i] + b[i + 1..];
      assert b == b[..i] + [s] + b[i + 1..];
      assert multiset(a[..n - 1]) == multiset(a) - multiset{s};
      assert multiset(rest) == multiset(b) - multiset{s};
      OwedPermutation(a[..n - 1], rest, name);
      OwedAppend(b[..i] + [s], b[i + 1..], name);
      OwedAppend(b[..i], [s], name);
      OwedAppend(b[..i], b[i + 1..], name);
      assert Owed([s], name) == Charged(s, name) by {
        assert [s][..0] == [];
      }
    }
  }

  /** The totals do not depend on the order of the records. */
  lemma SumsOrderIndependent(a: seq<Spending>, b: seq<Spending>)
    requires multiset(a) == multiset(b)
    ensures SumsOf(a) == SumsOf(b)
  {
    forall name ensures Mentioned(a, name) <==> Mentioned(b, name) {
      if Mentioned(a, name) {
        var i :| 0 <= i < |a| && name in a[i].participants;
        assert a[i] in multiset(b);
        var j :| 0 <= j < |b| && b[j] == a[i];
      }
      if Mentioned(b, name) {
        var j :| 0 <= j < |b| && name in b[j].participants;
        assert b[j] in multiset(a);
        var i :| 0 <= i < |a| && a[i] == b[j];
      }
    }
    forall name ensures Owed(a, name) == Owed(b, name) {
      OwedPermutation(a, b, name);
    }
    SameChargesSameSums(a, b);
  }

  /** A record with an empty participant list adds nothing and creates no
      key, wherever it stands in the list. */
  lemma EmptyRecordAddsNothing(a: seq<Spending>, s: Spending, b: seq<Spending>)
    requires s.participants == []
    ensures SumsOf(a + [s] + b) == SumsOf(a + b)
  {
    var with, without := a + [s] + b, a + b;
    forall name ensures Mentioned(with, name) <==> Mentioned(without, name) {
      if Mentioned(with, name) {
        var i :| 0 <= i < |with| && name in with[i].participants;
        if i < |a| { assert without[i] == with[i]; } else { assert without[i - 1] == with[i]; }
      }
      if Mentioned(without, name) {
        var i :| 0 <= i < |without| && name in without[i].participants;
        if i < |a| { assert with[i] == without[i]; } else { assert with[i + 1] == without[i]; }
      }
    }
    forall name ensures Owed(with, name) == Owed(without, name) {
      OwedAppend(a + [s], b, name);
      OwedAppend(a, [s], name);
      OwedAppend(a, b, name);
      assert [s][..0] == [];
    }
    SameChargesSameSums(with, without);
  }

  /** The payer (and the label) of a record play no part in the totals. */
  lemma {:induction false} PayerIrrelevant(a: seq<Spending>, b: seq<Spending>)
    requires |a| == |b|
    requires forall i :: 0 <= i < |a| ==>
               a[i].amount == b[i].amount && a[i].participants == b[i].participants
    ensures SumsOf(a) == SumsOf(b)
    decreases |a|
  {
    if a != [] {
      PayerIrrelevant(a[..|a| - 1], b[..|b| - 1]);
    }
  }

  /** Adding `share` at `p` raises the sum over duplicate-free `keys` by
      `share` when `p` is one of them. */
  lemma {:induction false} AddShareSum(m: map<string, real>, p: string, share: real, keys: seq<string>)
    requires NoDup(keys)
    ensures SumAt(AddShare(m, p, share), keys) == SumAt(m, keys) + (if p in keys then share else 0.0)
    decreases |keys|
  {
    if keys != [] {
      assert NoDup(keys[1..]);
      AddShareSum(m, p, share, keys[1..]);
      if keys[0] == p {
        assert p !in keys[1..];
      }
    }
  }

  /** The inner loop raises the sum over `keys` by one share per entry. */
  lemma {:induction false} AddSharesSum(m: map<string, real>, ps: seq<string>, share: real, keys: seq<string>)
    requires NoDup(keys)
    requires forall p :: p in ps ==> p in keys
    ensures SumAt(AddShares(m, ps, share), keys) == SumAt(m, keys) + Shares(|ps|, share)
    decreases |ps|
  {
    if ps != [] {
      var n := |ps|;
      AddSharesSum(m, ps[..n - 1], share, keys);
      AddShareSum(AddShares(m, ps[..n - 1], share), ps[n - 1], share, keys);
      assert Shares(n, share) == Shares(n - 1, share) + share;
    }
  }

  /** An empty dictionary sums to zero over any names. */
  lemma {:induction false} SumAtEmpty(keys: seq<string>)
    ensures SumAt(map[], keys) == 0.0
    decreases |keys|
  {
    if keys != [] {
      SumAtEmpty(keys[1..]);
    }
  }

  /** `k` even shares of `amount` add back up to `amount`. */
  lemma SplitEvenly(amount: real, k: nat)
    requires k > 0
    ensures k as real * (amount / k as real) == amount
  {
  }

  /** Summed over a duplicate-free list of names covering every participant,
      the totals add up to the amounts of the records with participants. */
  lemma {:induction false} SumsTotalOver(spendings: seq<Spending>, keys: seq<string>)
    requires NoDup(keys)
    requires forall i, p :: 0 <= i < |spendings| && p in spendings[i].participants ==> p in keys
    ensures SumAt(SumsOf(spendings), keys) == TotalAmount(spendings)
    decreases |spendings|
  {
    if spendings == [] {
      SumAtEmpty(keys);
    } else {
      var n := |spendings|;
      var p, s := spendings[..n - 1], spendings[n - 1];
      forall i, q | 0 <= i < |p| && q in p[i].participants ensures q in keys {
        assert spendings[i] == p[i];
      }
      SumsTotalOver(p, keys);
      assert SumsOf(spendings) == AddRecordShares(SumsOf(p), s);
      assert TotalAmount(spendings) == TotalAmount(p) + (if s.participants == [] then 0.0 else s.amount);
      assert forall q :: q in s.participants ==> q in keys;
      AddRecordSharesSum(SumsOf(p), s, keys);
    }
  }

  /** Folding one record raises the sum over covering duplicate-free names
      by the record's amount, or by nothing when it has no participants. */
  lemma AddRecordSharesSum(m: map<string, real>, s: Spending, keys: seq<string>)
    requires NoDup(keys)
    requires forall q :: q in s.participants ==> q in keys
    ensures SumAt(AddRecordShares(m, s), keys)
         == SumAt(m, keys) + (if s.participants == [] then 0.0 else s.amount)
  {
    if s.participants != [] {
      AddSharesSum(m, s.participants, ShareOf(s), keys);
      SharesIsProduct(|s.participants|, ShareOf(s));
      SplitEvenly(s.amount, |s.participants|);
    }
  }

  /** Over the reals, the values of the result add up to the total amount of
      the records that have participants. */
  lemma SumsAddUpToTotal(spendings: seq<Spending>, keys: seq<string>)
    requires NoDup(keys)
    requires forall name :: name in SumsOf(spendings) <==> name in keys
    ensures SumAt(SumsOf(spendings), keys) == TotalAmount(spendings)
  {
    forall i, p | 0 <= i < |spendings| && p in spendings[i].participants ensures p in keys {
      SumsOfMeaning(spendings, p);
    }
    SumsTotalOver(spendings, keys);
  }

  /** The seed's Lunch record on its own charges Carl, Eric and BU a third
      of 20 each. */
  lemma LunchSums()
    ensures SumsOf([Seed[0]]) == map["Carl" := 20.0 / 3.0, "Eric" := 20.0 / 3.0, "BU" := 20.0 / 3.0]
  {
    var s := Seed[0];
    var ps, share := s.participants, 20.0 / 3.0;
    assert [s][..0] == [];
    assert SumsOf([s]) == AddShares(map[], ps, share);
    assert ps[..1][..0] == [] && ps[..1] == ["Carl"];
    assert AddShares(map[], ps[..1], share) == map["Carl" := share];
    assert ps[..2][..1] == ["Carl"] && ps[..2] == ["Carl", "Eric"];
    assert AddShares(map[], ps[..2], share) == map["Carl" := share, "Eric" := share];
    assert ps[..3][..2] == ["Carl", "Eric"] && ps[..3] == ps;
  }

  /** A name listed twice in one record earns two shares. */
  lemma DuplicateEarnsTwoShares()
    ensures SumsOf([Spending("Taxi", 9.0, "Carl", ["Carl", "Eric", "Carl"])]) == map["Carl" := 6.0, "Eric" := 3.0]
  {
    var s := Spending("Taxi", 9.0, "Carl", ["Carl", "Eric", "Carl"]);
    var ps := s.participants;
    assert [s][..0] == [];
    assert SumsOf([s]) == AddShares(map[], ps, 3.0);
    assert ps[..1][..0] == [] && ps[..1] == ["Carl"];
    assert AddShares(map[], ps[..1], 3.0) == map["Carl" := 3.0];
    assert ps[..2][..1] == ["Carl"] && ps[..2] == ["Carl", "Eric"];
    assert AddShares(map[], ps[..2], 3.0) == map["Carl" := 3.0, "Eric" := 3.0];
    assert ps[..3][..2] == ["Carl", "Eric"] && ps[..3] == ps;
  }

  /** The record screen: the bound list of spendings. */
  class RecordList {
    var spendings: seq<Spending>

    constructor (spendings: seq<Spending>)
      ensures this.spendings == spendings
    {
      this.spendings := spendings;
    }

    /** Swipe-to-delete: removes exactly the records at `offsets`; the others
        keep their order, and the list shrinks by the number of offsets. */
    method DeleteSpending(offsets: set<nat>)
      requires ValidOffsets(offsets, |spendings|)
      modifies this
      ensures spendings == Without(old(spendings), offsets)
      ensures |spendings| == |old(spendings)| - |offsets|
    {
      WithoutMeaning(spendings, offsets);
      spendings := Without(spendings, offsets);
    }

    /** The summary bar's totals: for every name that occurs in a participant
        list, one share of each record per occurrence. */
    method CalculateParticipantSums() returns (sums: map<string, real>)
      ensures sums == SumsOf(spendings)
      ensures forall name :: name in sums <==> Mentioned(spendings, name)
      ensures forall name :: name in sums ==> sums[name] == Owed(spendings, name)
    {
      sums := map[];
      var i := 0;
      while i < |spendings|
        invariant 0 <= i <= |spendings|
        invariant sums == SumsOf(spendings[..i])
      {
        var spending := spendings[i];
        var ps := spending.participants;
        var share := if |ps| == 0 then 0.0 else spending.amount / (|ps| as real);
        ghost var before := sums;
        var j := 0;
        while j < |ps|
          invariant 0 <= j <= |ps|
          invariant sums == AddShares(before, ps[..j], share)
        {
          var participant := ps[j];
          sums := sums[participant := (if participant in sums then sums[participant] else 0.0) + share];
          assert ps[..j + 1][..j] == ps[..j];
          j := j + 1;
        }
        assert ps[..j] == ps;
        assert spendings[..i + 1][..i] == spendings[..i];
        i := i + 1;
      }
      assert spendings[..i] == spendings;
      SumsOfIs(spendings);
    }
  }
}
