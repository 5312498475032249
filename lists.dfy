/** The sequence operations of Swift's standard library and of SwiftUI that
    the views apply to their lists: `contains`, `removeAll(where:)`,
    `remove(atOffsets:)`, `move(fromOffsets:toOffset:)`, and the
    remove-all-or-append toggle built from them. */
module Lists {

  /** No entry occurs twice. */
  predicate NoDup<T(==)>(s: seq<T>) {
    forall i, j :: 0 <= i < j < |s| ==> s[i] != s[j]
  }

  /** The number of occurrences of `x` in `s`. */
  function Count<T(==)>(s: seq<T>, x: T): (n: nat)
    ensures n <= |s|
    ensures n > 0 <==> x in s
    decreases |s|
  {
    if s == [] then 0
    else
      assert s == s[..|s| - 1] + [s[|s| - 1]];
      Count(s[..|s| - 1], x) + (if s[|s| - 1] == x then 1 else 0)
  }

  /** `s.removeAll { $0 == x }`: every copy of `x` goes, the rest stays. */
  function Removed<T(==)>(s: seq<T>, x: T): (r: seq<T>)
    ensures x !in r
    ensures forall i :: 0 <= i < |s| && s[i] != x ==> s[i] in r
    ensures forall j :: 0 <= j < |r| ==> r[j] in s
    ensures |r| == |s| - Count(s, x)
    decreases |s|
  {
    if s == [] then []
    else
      assert s == s[..|s| - 1] + [s[|s| - 1]];
      Removed(s[..|s| - 1], x) + (if s[|s| - 1] == x then [] else [s[|s| - 1]])
  }

  /** The offsets at which `x` occurs in `s`. */
  function Positions<T(==)>(s: seq<T>, x: T): set<nat> {
    set i: nat | i < |s| && s[i] == x
  }

  /** The entries `s[i]` with `lo <= i < hi` whose offset is in `offsets`
      exactly when `inside` holds, in their original order. */
  function Select<T>(s: seq<T>, offsets: set<nat>, lo: nat, hi: nat, inside: bool): (r: seq<T>)
    requires lo <= hi <= |s|
    ensures |r| <= hi - lo
    decreases hi - lo
  {
    if hi == lo then []
    else Select(s, offsets, lo, hi - 1, inside) + (if (hi - 1 in offsets) == inside then [s[hi - 1]] else [])
  }

  /** The offsets `Select` keeps, in ascending order. */
  function Kept(offsets: set<nat>, lo: nat, hi: nat, inside: bool): (r: seq<nat>)
    requires lo <= hi
    ensures forall j :: 0 <= j < |r| ==> lo <= r[j] < hi && ((r[j] in offsets) == inside)
    ensures forall j, k :: 0 <= j < k < |r| ==> r[j] < r[k]
    ensures forall i: nat :: lo <= i < hi && ((i in offsets) == inside) ==> i in r
    decreases hi - lo
  {
    if hi == lo then []
    else Kept(offsets, lo, hi - 1, inside) + (if (hi - 1 in offsets) == inside then [hi - 1] else [])
  }

  /** Every offset of `offsets` names an entry of a list of length `n`. */
  predicate ValidOffsets(offsets: set<nat>, n: nat) {
    forall o :: o in offsets ==> o < n
  }

  /** `s.remove(atOffsets: offsets)`: nothing is added, and every entry at
      an offset not in `offsets` survives. */
  function Without<T>(s: seq<T>, offsets: set<nat>): (r: seq<T>)
    ensures multiset(r) <= multiset(s)
    ensures forall i :: 0 <= i < |s| && i !in offsets ==> s[i] in r
  {
    SelectPartition(s, offsets, 0, |s|);
    assert s[0..|s|] == s;
    SelectKeepsOutside(s, offsets);
    Select(s, offsets, 0, |s|, false)
  }

  /** `s.move(fromOffsets: offsets, toOffset: destination)`: the entries at
      `offsets`, in their order, are placed before the entry that stood at
      `destination`; the other entries keep their order around them. */
  function Moved<T>(s: seq<T>, offsets: set<nat>, destination: nat): (r: seq<T>)
    requires destination <= |s|
    ensures multiset(r) == multiset(s) && |r| == |s|
  {
    MovedParts(s, offsets, destination);
    Select(s, offsets, 0, destination, false)
      + Select(s, offsets, 0, |s|, true)
      + Select(s, offsets, destination, |s|, false)
  }


  /** The remove-all-or-append toggle both add-spending forms apply to
      their selected participants. */
  function Toggled<T(==)>(s: seq<T>, x: T): (r: seq<T>)
    ensures x in r <==> x !in s
    ensures forall i :: 0 <= i < |s| && s[i] != x ==> s[i] in r
    ensures forall j :: 0 <= j < |r| ==> r[j] in s || r[j] == x
  {
    if x in s then Removed(s, x) else s + [x]
  }

  // ---------------------------------------------------------------------
  // Select: which entries, in which order, how many

  /** Entry `j` of a selection is the entry of `s` at the `j`-th kept offset:
      the survivors are exactly the entries at the kept offsets, in order. */
  lemma {:induction false} SelectAt<T>(s: seq<T>, offsets: set<nat>, lo: nat, hi: nat, inside: bool)
    requires lo <= hi <= |s|
    ensures |Select(s, offsets, lo, hi, inside)| == |Kept(offsets, lo, hi, inside)|
    ensures forall j :: 0 <= j < |Kept(offsets, lo, hi, inside)| ==>
              Select(s, offsets, lo, hi, inside)[j] == s[Kept(offsets, lo, hi, inside)[j]]
    decreases hi - lo
  {
    if hi > lo {
      SelectAt(s, offsets, lo, hi - 1, inside);
    }
  }

  /** A selection over `[lo, hi)` is the selection over `[lo, mid)`
      followed by the one over `[mid, hi)`. */
  lemma {:induction false} SelectSplit<T>(s: seq<T>, offsets: set<nat>, lo: nat, mid: nat, hi: nat, inside: bool)
    requires lo <= mid <= hi <= |s|
    ensures Select(s, offsets, lo, hi, inside)
         == Select(s, offsets, lo, mid, inside) + Select(s, offsets, mid, hi, inside)
    decreases hi - mid
  {
    if hi > mid {
      SelectSplit(s, offsets, lo, mid, hi - 1, inside);
    }
  }

  /** Selecting the entries at `offsets` and the others partitions the range. */
  lemma {:induction false} SelectPartition<T>(s: seq<T>, offsets: set<nat>, lo: nat, hi: nat)
    requires lo <= hi <= |s|
    ensures multiset(Select(s, offsets, lo, hi, true)) + multiset(Select(s, offsets, lo, hi, false))
         == multiset(s[lo..hi])
    decreases hi - lo
  {
    if hi > lo {
      SelectPartition(s, offsets, lo, hi - 1);
      assert s[lo..hi] == s[lo..hi - 1] + [s[hi - 1]];
    }
  }

  /** A selection depends only on the entries and offsets inside its range. */
  lemma {:induction false} SelectAgree<T>(s: seq<T>, t: seq<T>, offsets: set<nat>, others: set<nat>, lo: nat, hi: nat, inside: bool)
    requires lo <= hi <= |s| && hi <= |t|
    requires forall i :: lo <= i < hi ==> s[i] == t[i] && (i in offsets <==> i in others)
    ensures Select(s, offsets, lo, hi, inside) == Select(t, others, lo, hi, inside)
    decreases hi - lo
  {
    if hi > lo {
      SelectAgree(s, t, offsets, others, lo, hi - 1, inside);
    }
  }

  /** The offsets of `offsets` below `n`. */
  function Below(offsets: set<nat>, n: nat): set<nat> {
    set i | i in offsets && i < n
  }

  /** Outside the removed offsets, `hi` entries less those removed survive. */
  lemma {:induction false} SelectOutsideLength<T>(s: seq<T>, offsets: set<nat>, hi: nat)
    requires hi <= |s|
    ensures |Select(s, offsets, 0, hi, false)| == hi - |Below(offsets, hi)|
  {
    if hi > 0 {
      SelectOutsideLength(s, offsets, hi - 1);
      if hi - 1 in offsets {
        assert Below(offsets, hi) == Below(offsets, hi - 1) + {hi - 1};
      } else {
        assert Below(offsets, hi) == Below(offsets, hi - 1);
      }
    }
  }

  /** Every entry outside `offsets` is among the entries `Without` keeps. */
  lemma SelectKeepsOutside<T>(s: seq<T>, offsets: set<nat>)
    ensures forall i :: 0 <= i < |s| && i !in offsets ==> s[i] in Select(s, offsets, 0, |s|, false)
  {
    var r, k := Select(s, offsets, 0, |s|, false), Kept(offsets, 0, |s|, false);
    SelectAt(s, offsets, 0, |s|, false);
    forall i | 0 <= i < |s| && i !in offsets ensures s[i] in r {
      var j :| 0 <= j < |k| && k[j] == i;
      assert r[j] == s[i];
    }
  }

  /** The three parts `Moved` puts together hold the entries of `s`. */
  lemma MovedParts<T>(s: seq<T>, offsets: set<nat>, d: nat)
    requires d <= |s|
    ensures var r := Select(s, offsets, 0, d, false) + Select(s, offsets, 0, |s|, true)
                     + Select(s, offsets, d, |s|, false);
            multiset(r) == multiset(s) && |r| == |s|
  {
    var n := |s|;
    var a, b, c := Select(s, offsets, 0, d, false), Select(s, offsets, 0, n, true), Select(s, offsets, d, n, false);
    SelectSplit(s, offsets, 0, d, n, false);
    SelectPartition(s, offsets, 0, n);
    assert s[0..n] == s;
    assert multiset(a + b + c) == multiset(b) + multiset(a + c);
    assert |multiset(a + b + c)| == |multiset(s)|;
  }

  // ---------------------------------------------------------------------
  // remove(atOffsets:)

  /** `remove(atOffsets:)` drops exactly the entries at the given offsets:
      the length falls by the number of offsets, and the survivors are the
      entries at the other offsets, in ascending order of offset. */
  lemma WithoutMeaning<T>(s: seq<T>, offsets: set<nat>)
    requires ValidOffsets(offsets, |s|)
    ensures |Without(s, offsets)| == |s| - |offsets|
    ensures |Kept(offsets, 0, |s|, false)| == |Without(s, offsets)|
    ensures forall j :: 0 <= j < |Without(s, offsets)| ==>
              Without(s, offsets)[j] == s[Kept(offsets, 0, |s|, false)[j]]
  {
    SelectOutsideLength(s, offsets, |s|);
    assert Below(offsets, |s|) == offsets;
    SelectAt(s, offsets, 0, |s|, false);
  }

  /** A list without duplicates has none after `remove(atOffsets:)`. */
  lemma WithoutKeepsNoDup<T>(s: seq<T>, offsets: set<nat>)
    requires NoDup(s)
    ensures NoDup(Without(s, offsets))
  {
    var r, k := Without(s, offsets), Kept(offsets, 0, |s|, false);
    SelectAt(s, offsets, 0, |s|, false);
    forall i, j | 0 <= i < j < |r| ensures r[i] != r[j] {
      assert r[i] == s[k[i]] && r[j] == s[k[j]] && k[i] < k[j];
    }
  }

  // ---------------------------------------------------------------------
  // removeAll(where:)

  /** Removing every copy of `x` leaves a list that lacks `x` unchanged. */
  lemma {:induction false} RemovedAbsent<T>(s: seq<T>, x: T)
    requires x !in s
    ensures Removed(s, x) == s
    decreases |s|
  {
    if s != [] {
      var p := s[..|s| - 1];
      assert s == p + [s[|s| - 1]];
      RemovedAbsent(p, x);
      assert Removed(s, x) == Removed(p, x) + [s[|s| - 1]];
    }
  }

  /** `removeAll { $0 == x }` is `remove(atOffsets:)` at the offsets of `x`:
      the other entries keep their relative order. */
  lemma {:induction false} RemovedIsWithoutPositions<T>(s: seq<T>, x: T)
    ensures Removed(s, x) == Without(s, Positions(s, x))
    decreases |s|
  {
    if s != [] {
      var n := |s|;
      var p := s[..n - 1];
      RemovedIsWithoutPositions(p, x);
      SelectAgree(p, s, Positions(p, x), Positions(s, x), 0, n - 1, false);
      assert (n - 1 in Positions(s, x)) <==> s[n - 1] == x;
    }
  }

  /** A list without duplicates has none after `removeAll`. */
  lemma RemovedKeepsNoDup<T>(s: seq<T>, x: T)
    requires NoDup(s)
    ensures NoDup(Removed(s, x))
  {
    RemovedIsWithoutPositions(s, x);
    WithoutKeepsNoDup(s, Positions(s, x));
  }

  // ---------------------------------------------------------------------
  // move(fromOffsets:toOffset:)

  /** Dragging the first of three entries past the last: the destination
      counts positions in the list as it was before the move. */
  lemma MovedToEnd<T>(a: T, b: T, c: T)
    ensures Moved([a, b, c], {0}, 3) == [b, c, a]
  {
    var s := [a, b, c];
    assert Select(s, {0}, 0, 1, false) == [];
    assert Select(s, {0}, 0, 2, false) == [b];
    assert Select(s, {0}, 0, 3, false) == [b, c];
    assert Select(s, {0}, 0, 1, true) == [a];
    assert Select(s, {0}, 0, 2, true) == [a];
    assert Select(s, {0}, 0, 3, true) == [a];
    assert Select(s, {0}, 3, 3, false) == [];
  }

  /** Dragging the last of three entries to the top. */
  lemma MovedToFront<T>(a: T, b: T, c: T)
    ensures Moved([a, b, c], {2}, 0) == [c, a, b]
  {
    var s := [a, b, c];
    assert Select(s, {2}, 0, 0, false) == [];
    assert Select(s, {2}, 0, 1, true) == [];
    assert Select(s, {2}, 0, 2, true) == [];
    assert Select(s, {2}, 0, 3, true) == [c];
    assert Select(s, {2}, 0, 1, false) == [a];
    assert Select(s, {2}, 0, 2, false) == [a, b];
    assert Select(s, {2}, 0, 3, false) == [a, b];
  }




  /** No entry occurs more than once exactly when no multiplicity exceeds one. */
  lemma {:induction false} NoDupMultiplicity<T>(s: seq<T>)
    ensures NoDup(s) <==> forall x :: multiset(s)[x] <= 1
    decreases |s|
  {
    if s != [] {
      var n := |s|;
      var p, last := s[..n - 1], s[n - 1];
      NoDupMultiplicity(p);
      assert s == p + [last];
      assert multiset(s) == multiset(p) + multiset{last};
      assert NoDup(s) <==> NoDup(p) && last !in p by {
        if NoDup(s) {
          forall i | 0 <= i < n - 1 ensures p[i] != last { assert s[i] != s[n - 1]; }
        }
      }
      if forall y :: multiset(s)[y] <= 1 {
        assert multiset(s)[last] == multiset(p)[last] + 1;
        assert forall y :: multiset(p)[y] <= multiset(s)[y];
      }
    }
  }

  /** A permutation of a duplicate-free list is duplicate-free. */
  lemma PermutationKeepsNoDup<T>(s: seq<T>, t: seq<T>)
    requires multiset(s) == multiset(t)
    requires NoDup(s)
    ensures NoDup(t)
  {
    NoDupMultiplicity(s);
    NoDupMultiplicity(t);
  }

  // ---------------------------------------------------------------------
  // The selection toggle

  /** Toggling a selected `x` removes every copy of it and keeps the other
      entries in order; toggling an unselected `x` appends it at the end. */
  lemma ToggleMeaning<T>(s: seq<T>, x: T)
    ensures x in s ==> Toggled(s, x) == Without(s, Positions(s, x)) && x !in Toggled(s, x)
    ensures x !in s ==> Toggled(s, x)[..|s|] == s && |Toggled(s, x)| == |s| + 1
                         && Toggled(s, x)[|s|] == x
  {
    RemovedIsWithoutPositions(s, x);
  }

  /** A toggle keeps a duplicate-free selection duplicate-free. */
  lemma ToggleKeepsNoDup<T>(s: seq<T>, x: T)
    requires NoDup(s)
    ensures NoDup(Toggled(s, x))
  {
    if x in s {
      RemovedKeepsNoDup(s, x);
    }
  }

  /** Toggling an unselected entry twice restores the selection. */
  lemma ToggleTwiceRestores<T>(s: seq<T>, x: T)
    requires x !in s
    ensures Toggled(Toggled(s, x), x) == s
  {
    var t := s + [x];
    assert t[..|t| - 1] == s;
    RemovedAbsent(s, x);
  }
}
