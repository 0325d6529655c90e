/**
 * Comparing move rolls and lists of move rolls
 * (pkg/board/move.go:63-145).
 *
 * `isEqual` sorts both rolls in place with `sort.Slice` and then compares
 * them element by element.  For slices of at most six elements (every
 * move roll has at most four moves) `sort.Slice` runs the standard
 * library's plain insertion sort in every Go release, which the model
 * follows: walk each element left while the comparator says it is "less"
 * than its left neighbour.
 */
module MoveCompare {
  import opened Moves

  /** The comparator passed to `sort.Slice`, as written: by `From`, then
      by `To`, and for equal `From` and `To` it answers `Type == Type`. */
  predicate LessAsWritten(x: Move, y: Move): (r: bool)
    ensures (x.from, x.to) != (y.from, y.to) ==>
              (r <==> x.from < y.from || (x.from == y.from && x.to < y.to))
    ensures (x.from, x.to) == (y.from, y.to) ==> (r <==> x.moveType == y.moveType)
  {
    if x.from < y.from then true
    else if x.from > y.from then false
    else if x.to < y.to then true
    else if x.to > y.to then false
    else x.moveType == y.moveType
  }

  /** The insertion of the last element: `v` walks left past every
      element it is `less` than. */
  function InsertLast(s: seq<Move>, v: Move, less: (Move, Move) -> bool): (r: seq<Move>)
    ensures |r| == |s| + 1
  {
    if s != [] && less(v, s[|s| - 1]) then InsertLast(s[..|s| - 1], v, less) + [s[|s| - 1]]
    else s + [v]
  }

  /** Insertion sort of the first `i` elements of `s`. */
  function SortPrefix(s: seq<Move>, i: nat, less: (Move, Move) -> bool): (r: seq<Move>)
    requires i <= |s|
    ensures |r| == i
  {
    if i == 0 then [] else InsertLast(SortPrefix(s, i - 1, less), s[i - 1], less)
  }

  function InsertionSort(s: seq<Move>, less: (Move, Move) -> bool): (r: seq<Move>)
    ensures |r| == |s|
  {
    SortPrefix(s, |s|, less)
  }

  /** What `sort.Slice` does to a move roll in `isEqual`. */
  function GoSort(s: seq<Move>): (r: seq<Move>)
    ensures |r| == |s|
  {
    InsertionSort(s, LessAsWritten)
  }

  /** The answer of `isEqual`: equal lengths and equal sorted rolls. */
  predicate RollsEqual(a: seq<Move>, b: seq<Move>) {
    |a| == |b| && GoSort(a) == GoSort(b)
  }

  /* ---------------------------------------------------------------------
     The in-place code.
     --------------------------------------------------------------------- */

  /** `sort.Slice` with the as-written comparator, in place: for each `i`
      from 1, the element at `i` is walked into the sorted prefix. */
  method SortMoves(a: array<Move>)
    modifies a
    ensures a[..] == GoSort(old(a[..]))
  {
    ghost var s0 := a[..];
    if a.Length == 0 {
      return;
    }
    var i := 1;
    while i < a.Length
      invariant 1 <= i <= a.Length
      invariant a[..i] == SortPrefix(s0, i, LessAsWritten)
      invariant a[i..] == s0[i..]
    {
      assert a[i] == s0[i];
      InsertAt(a, i);
      assert a[..i + 1] == SortPrefix(s0, i + 1, LessAsWritten);
      i := i + 1;
    }
    assert a[..] == a[..i];
  }

  /** The inner loop of the insertion sort: swap the element at `i` to the
      left while it is `less` than its neighbour. */
  method InsertAt(a: array<Move>, i: nat)
    requires i < a.Length
    modifies a
    ensures a[..i + 1] == InsertLast(old(a[..i]), old(a[i]), LessAsWritten)
    ensures a[i + 1..] == old(a[i + 1..])
  {
    ghost var sorted, v, rest := a[..i], a[i], a[i + 1..];
    var j := i;
    assert a[..] == sorted[..j] + [v] + sorted[j..] + rest;
    while j > 0 && LessAsWritten(a[j], a[j - 1])
      invariant 0 <= j <= i
      invariant a[..] == sorted[..j] + [v] + sorted[j..] + rest
      invariant forall k :: j <= k < i ==> LessAsWritten(v, sorted[k])
    {
      Layout(a[..], sorted, v, rest, j);
      SwapLeft(sorted, v, rest, j);
      a[j], a[j - 1] := a[j - 1], a[j];
      j := j - 1;
    }
    Layout(a[..], sorted, v, rest, j);
    InsertLastAt(sorted, v, j);
  }

  /** The array during the inner loop: the sorted prefix with `v` put in
      at `j`, followed by the untouched rest. */
  lemma Layout(c: seq<Move>, sorted: seq<Move>, v: Move, rest: seq<Move>, j: nat)
    requires j <= |sorted| && c == sorted[..j] + [v] + sorted[j..] + rest
    ensures |c| == |sorted| + 1 + |rest|
    ensures c[j] == v && (j > 0 ==> c[j - 1] == sorted[j - 1])
    ensures c[..|sorted| + 1] == sorted[..j] + [v] + sorted[j..]
    ensures c[|sorted| + 1..] == rest
  {
    assert c == (sorted[..j] + [v] + sorted[j..]) + rest;
  }

  /** One swap of the inner loop moves `v` one place to the left. */
  lemma SwapLeft(sorted: seq<Move>, v: Move, rest: seq<Move>, j: nat)
    requires 0 < j <= |sorted|
    ensures (sorted[..j] + [v] + sorted[j..] + rest)[j := sorted[j - 1]][j - 1 := v]
            == sorted[..j - 1] + [v] + sorted[j - 1..] + rest
  {
    var c := sorted[..j] + [v] + sorted[j..] + rest;
    var d := sorted[..j - 1] + [v] + sorted[j - 1..] + rest;
    forall k | 0 <= k < |c|
      ensures c[j := sorted[j - 1]][j - 1 := v][k] == d[k]
    {
      if k < j - 1 {
        assert c[k] == sorted[k] && d[k] == sorted[k];
      } else if j < k <= |sorted| {
        assert c[k] == sorted[k - 1] && d[k] == sorted[k - 1];
      } else if k > |sorted| {
        assert c[k] == rest[k - |sorted| - 1] && d[k] == rest[k - |sorted| - 1];
      }
    }
  }

  /** Where the inner loop stops: `v` lands at `j` when it is less than
      every element from `j` on and not less than the one before `j`. */
  lemma {:induction false} InsertLastAt(s: seq<Move>, v: Move, j: nat)
    requires j <= |s|
    requires forall k :: j <= k < |s| ==> LessAsWritten(v, s[k])
    requires j == 0 || !LessAsWritten(v, s[j - 1])
    ensures InsertLast(s, v, LessAsWritten) == s[..j] + [v] + s[j..]
    decreases |s|
  {
    if j < |s| {
      var n := |s| - 1;
      assert s[..n][..j] == s[..j];
      forall k | j <= k < n
        ensures LessAsWritten(v, s[..n][k])
      {
        assert s[..n][k] == s[k];
      }
      if j > 0 {
        assert s[..n][j - 1] == s[j - 1];
      }
      InsertLastAt(s[..n], v, j);
      assert s[..n][j..] + [s[n]] == s[j..];
    }
  }

  /** MoveRoll.isEqual: a length check, both rolls sorted in place, then an
      element-by-element comparison.  The two arrays may be one and the
      same, as when a roll is compared with itself. */
  method IsEqual(a: array<Move>, b: array<Move>) returns (eq: bool)
    modifies a, b
    ensures eq == RollsEqual(old(a[..]), old(b[..]))
    ensures a.Length != b.Length ==> a[..] == old(a[..]) && b[..] == old(b[..])
    ensures a.Length == b.Length ==> a[..] == GoSort(old(a[..])) && b[..] == GoSort(old(b[..]))
  {
    if a.Length != b.Length {
      return false;
    }
    ghost var a0, b0 := a[..], b[..];
    SortMoves(a);
    SortMoves(b);
    if a == b {
      GoSortIdempotent(a0);
    }
    for idx := 0 to a.Length
      invariant a[..idx] == b[..idx]
    {
      if a[idx] != b[idx] {
        return false;
      }
      assert a[..idx + 1] == a[..idx] + [a[idx]];
      assert b[..idx + 1] == b[..idx] + [b[idx]];
    }
    assert a[..] == a[..a.Length] && b[..] == b[..b.Length];
    eq := true;
  }

  /* ---------------------------------------------------------------------
     What sorting does: a permutation, ordered by (From, To).
     --------------------------------------------------------------------- */

  lemma {:induction false} InsertLastMultiset(s: seq<Move>, v: Move, less: (Move, Move) -> bool)
    ensures multiset(InsertLast(s, v, less)) == multiset(s) + multiset{v}
    decreases |s|
  {
    if s != [] && less(v, s[|s| - 1]) {
      var n := |s| - 1;
      InsertLastMultiset(s[..n], v, less);
      assert s == s[..n] + [s[n]];
    }
  }

  lemma SortPrefixMultiset(s: seq<Move>, i: nat, less: (Move, Move) -> bool)
    requires i <= |s|
    ensures multiset(SortPrefix(s, i, less)) == multiset(s[..i])
  {
    var k := 0;
    while k < i
      invariant k <= i
      invariant multiset(SortPrefix(s, k, less)) == multiset(s[..k])
    {
      InsertLastMultiset(SortPrefix(s, k, less), s[k], less);
      PrefixMultiset(s, k + 1);
      k := k + 1;
    }
  }

  lemma PrefixMultiset(s: seq<Move>, i: nat)
    requires 0 < i <= |s|
    ensures multiset(s[..i]) == multiset(s[..i - 1]) + multiset{s[i - 1]}
  {
    assert s[..i] == s[..i - 1] + [s[i - 1]];
  }

  /** Insertion sort returns a permutation of its input, whatever the
      comparator. */
  lemma InsertionSortPermutes(s: seq<Move>, less: (Move, Move) -> bool)
    ensures multiset(InsertionSort(s, less)) == multiset(s)
  {
    SortPrefixMultiset(s, |s|, less);
    assert s[..|s|] == s;
  }

  /** The (From, To) order that the comparator does respect. */
  predicate KeyLe(x: Move, y: Move) {
    x.from < y.from || (x.from == y.from && x.to <= y.to)
  }

  predicate KeySorted(s: seq<Move>) {
    forall i, j :: 0 <= i < j < |s| ==> KeyLe(s[i], s[j])
  }

  lemma {:induction false} InsertLastKeySorted(s: seq<Move>, v: Move)
    requires KeySorted(s)
    ensures KeySorted(InsertLast(s, v, LessAsWritten))
    decreases |s|
  {
    if s != [] && LessAsWritten(v, s[|s| - 1]) {
      var n := |s| - 1;
      var last := s[n];
      InsertLastKeySorted(s[..n], v);
      forall k | 0 <= k < n
        ensures KeyLe(s[..n][k], last)
      {
        assert s[..n][k] == s[k];
      }
      InsertLastBounded(s[..n], v, LessAsWritten, KeyLe, last);
    }
  }

  /** Insertion keeps every element below a common bound `top`. */
  lemma {:induction false} InsertLastBounded(s: seq<Move>, v: Move, less: (Move, Move) -> bool,
                                             le: (Move, Move) -> bool, top: Move)
    requires forall k :: 0 <= k < |s| ==> le(s[k], top)
    requires le(v, top)
    ensures forall k :: 0 <= k < |InsertLast(s, v, less)| ==> le(InsertLast(s, v, less)[k], top)
    decreases |s|
  {
    if s != [] && less(v, s[|s| - 1]) {
      var n := |s| - 1;
      forall k | 0 <= k < n
        ensures le(s[..n][k], top)
      {
        assert s[..n][k] == s[k];
      }
      InsertLastBounded(s[..n], v, less, le, top);
    }
  }

  lemma {:induction false} SortPrefixKeySorted(s: seq<Move>, i: nat)
    requires i <= |s|
    ensures KeySorted(SortPrefix(s, i, LessAsWritten))
  {
    if i > 0 {
      SortPrefixKeySorted(s, i - 1);
      InsertLastKeySorted(SortPrefix(s, i - 1, LessAsWritten), s[i - 1]);
    }
  }

  /** Inserting an element that is not below any key leaves it last. */
  lemma {:induction false} InsertLastOnTop(s: seq<Move>, v: Move)
    requires forall k :: 0 <= k < |s| ==> KeyLe(s[k], v)
    ensures InsertLast(s, v, LessAsWritten) == s + [v]
    decreases |s|
  {
    if s != [] && LessAsWritten(v, s[|s| - 1]) {
      var n := |s| - 1;
      assert v == s[n];
      InsertLastOnTop(s[..n], v);
      assert s[..n] + [v] + [s[n]] == s + [v];
    }
  }

  /** Sorting a roll already in (From, To) order changes nothing ... */
  lemma {:induction false} GoSortOfKeySorted(s: seq<Move>)
    requires KeySorted(s)
    ensures GoSort(s) == s
  {
    forall i | 0 <= i <= |s|
      ensures SortPrefix(s, i, LessAsWritten) == s[..i]
    {
      SortPrefixOfKeySorted(s, i);
    }
    assert s[..|s|] == s;
  }

  lemma {:induction false} SortPrefixOfKeySorted(s: seq<Move>, i: nat)
    requires KeySorted(s) && i <= |s|
    ensures SortPrefix(s, i, LessAsWritten) == s[..i]
  {
    if i > 0 {
      var p := s[..i - 1];
      SortPrefixOfKeySorted(s, i - 1);
      forall k | 0 <= k < |p|
        ensures KeyLe(p[k], s[i - 1])
      {
        assert p[k] == s[k];
      }
      InsertLastOnTop(p, s[i - 1]);
      assert p + [s[i - 1]] == s[..i];
    }
  }

  /** ... so sorting twice is sorting once: the in-place reordering done
      by one `isEqual` call does not change the answer of a later one. */
  lemma GoSortIdempotent(s: seq<Move>)
    ensures GoSort(GoSort(s)) == GoSort(s)
  {
    SortPrefixKeySorted(s, |s|);
    GoSortOfKeySorted(GoSort(s));
  }

  lemma RollsEqualAfterSorting(a: seq<Move>, b: seq<Move>)
    ensures RollsEqual(GoSort(a), GoSort(b)) == RollsEqual(a, b)
  {
    GoSortIdempotent(a);
    GoSortIdempotent(b);
  }

  /* ---------------------------------------------------------------------
     What isEqual promises.
     --------------------------------------------------------------------- */

  /** Rolls of different lengths are never equal. */
  lemma RollsEqualLengths(a: seq<Move>, b: seq<Move>)
    requires |a| != |b|
    ensures !RollsEqual(a, b)
  {
  }

  /** When isEqual answers true the two rolls are permutations of each
      other. */
  lemma RollsEqualSound(a: seq<Move>, b: seq<Move>)
    requires RollsEqual(a, b)
    ensures multiset(a) == multiset(b)
  {
    InsertionSortPermutes(a, LessAsWritten);
    InsertionSortPermutes(b, LessAsWritten);
  }

  /** The converse fails: two moves with the same `From` and `To` but
      different types are never reordered relative to each other, so the
      same two moves given in the two orders compare unequal. */
  lemma RollsEqualIncomplete()
    ensures var x, y := Move(1, 2, NormalMove), Move(1, 2, BearingOffMove);
            multiset([x, y]) == multiset([y, x]) && !RollsEqual([x, y], [y, x])
  {
    var x, y := Move(1, 2, NormalMove), Move(1, 2, BearingOffMove);
    assert !LessAsWritten(y, x) && !LessAsWritten(x, y);
    assert SortPrefix([x, y], 1, LessAsWritten) == [x];
    assert SortPrefix([y, x], 1, LessAsWritten) == [y];
    assert GoSort([x, y]) == [x, y];
    assert GoSort([y, x]) == [y, x];
  }

  /* ---------------------------------------------------------------------
     The comparator as evidently intended: a strict lexicographic order on
     (From, To, Type).  With it, equality of the sorted rolls is exactly
     the permutation test.
     --------------------------------------------------------------------- */

  predicate LessIntended(x: Move, y: Move) {
    if x.from != y.from then x.from < y.from
    else if x.to != y.to then x.to < y.to
    else x.moveType < y.moveType
  }

  predicate LeIntended(x: Move, y: Move) {
    x == y || LessIntended(x, y)
  }

  predicate SortedIntended(s: seq<Move>) {
    forall i, j :: 0 <= i < j < |s| ==> LeIntended(s[i], s[j])
  }

  predicate RollsEqualIntended(a: seq<Move>, b: seq<Move>) {
    |a| == |b| && InsertionSort(a, LessIntended) == InsertionSort(b, LessIntended)
  }

  lemma {:induction false} InsertLastSortedIntended(s: seq<Move>, v: Move)
    requires SortedIntended(s)
    ensures SortedIntended(InsertLast(s, v, LessIntended))
    decreases |s|
  {
    if s != [] && LessIntended(v, s[|s| - 1]) {
      var n := |s| - 1;
      var last := s[n];
      InsertLastSortedIntended(s[..n], v);
      forall k | 0 <= k < n
        ensures LeIntended(s[..n][k], last)
      {
        assert s[..n][k] == s[k];
      }
      InsertLastBounded(s[..n], v, LessIntended, LeIntended, last);
    }
  }

  lemma {:induction false} SortPrefixSortedIntended(s: seq<Move>, i: nat)
    requires i <= |s|
    ensures SortedIntended(SortPrefix(s, i, LessIntended))
  {
    if i > 0 {
      SortPrefixSortedIntended(s, i - 1);
      InsertLastSortedIntended(SortPrefix(s, i - 1, LessIntended), s[i - 1]);
    }
  }

  lemma LeIntendedAntisymmetric(x: Move, y: Move)
    requires LeIntended(x, y) && LeIntended(y, x)
    ensures x == y
  {
  }

  /** The head of a sorted sequence is below every element of it. */
  lemma SortedHeadIsLeast(s: seq<Move>, x: Move)
    requires SortedIntended(s) && x in multiset(s)
    ensures LeIntended(s[0], x)
  {
    var k :| 0 <= k < |s| && s[k] == x;
    if k > 0 {
      assert LeIntended(s[0], s[k]);
    }
  }

  /** Two sorted sequences with the same elements are equal. */
  lemma {:induction false} SortedUnique(s: seq<Move>, t: seq<Move>)
    requires SortedIntended(s) && SortedIntended(t)
    requires multiset(s) == multiset(t)
    ensures s == t
    decreases |s|
  {
    assert |s| == |multiset(s)| && |t| == |multiset(t)|;
    if s != [] {
      assert t != [];
      assert t[0] in multiset(t);
      assert s[0] in multiset(s);
      SortedHeadIsLeast(s, t[0]);
      SortedHeadIsLeast(t, s[0]);
      LeIntendedAntisymmetric(s[0], t[0]);
      TailMultiset(s);
      TailMultiset(t);
      SortedIntendedTail(s);
      SortedIntendedTail(t);
      SortedUnique(s[1..], t[1..]);
      assert s == [s[0]] + s[1..] && t == [t[0]] + t[1..];
    }
  }

  lemma TailMultiset(s: seq<Move>)
    requires s != []
    ensures multiset(s[1..]) == multiset(s) - multiset{s[0]}
  {
    assert s == [s[0]] + s[1..];
  }

  lemma SortedIntendedTail(s: seq<Move>)
    requires s != [] && SortedIntended(s)
    ensures SortedIntended(s[1..])
  {
    forall i, j | 0 <= i < j < |s| - 1
      ensures LeIntended(s[1..][i], s[1..][j])
    {
      assert s[1..][i] == s[i + 1] && s[1..][j] == s[j + 1];
    }
  }

  /** With the intended comparator, isEqual answers true exactly for
      permutations of each other. */
  lemma RollsEqualIntendedIsPermutation(a: seq<Move>, b: seq<Move>)
    ensures RollsEqualIntended(a, b) <==> multiset(a) == multiset(b)
  {
    InsertionSortPermutes(a, LessIntended);
    InsertionSortPermutes(b, LessIntended);
    if multiset(a) == multiset(b) {
      SortPrefixSortedIntended(a, |a|);
      SortPrefixSortedIntended(b, |b|);
      SortedUnique(InsertionSort(a, LessIntended), InsertionSort(b, LessIntended));
      assert |a| == |multiset(a)| == |multiset(b)| == |b|;
    }
  }

  /* ---------------------------------------------------------------------
     areMoveRollListsEqual (pkg/board/move.go:114-145): greedy one-to-one
     matching.  Each roll of `curr` takes the first roll of `ot` that it
     isEqual to and that no earlier roll took; `foundMatch` records which
     rolls of `ot` are taken.
     --------------------------------------------------------------------- */

  /** Every roll of a list in its sorted form. */
  function SortedRolls(rs: seq<seq<Move>>): seq<seq<Move>> {
    seq(|rs|, i requires 0 <= i < |rs| => GoSort(rs[i]))
  }

  /** The sorted forms of the rolls of `ot` whose `used` flag is `want`. */
  function KeysWhere(ot: seq<seq<Move>>, used: seq<bool>, want: bool): multiset<seq<Move>>
    requires |used| == |ot|
  {
    if ot == [] then multiset{}
    else
      var n := |ot| - 1;
      KeysWhere(ot[..n], used[..n], want) + (if used[n] == want then multiset{GoSort(ot[n])} else multiset{})
  }

  /** The lists are equal exactly when they have the same length and the
      same sorted rolls, with multiplicity: the greedy matching never
      misses a perfect matching, because isEqual compares sorted forms. */
  method AreMoveRollListsEqual(curr: seq<seq<Move>>, ot: seq<seq<Move>>) returns (eq: bool)
    ensures eq <==> |curr| == |ot| && multiset(SortedRolls(curr)) == multiset(SortedRolls(ot))
  {
    if |curr| != |ot| {
      return false;
    }
    var foundMatch := NoneFound(|curr|);
    KeysWhereNone(ot, foundMatch);

    for idx := 0 to |curr|
      invariant |foundMatch| == |ot|
      invariant KeysWhere(ot, foundMatch, true) == multiset(SortedRolls(curr)[..idx])
    {
      var foundMatchForCurr, jdx;
      foundMatchForCurr, foundMatch, jdx := MatchOne(curr[idx], ot, foundMatch);
      if !foundMatchForCurr {
        KeysWhereSplit(ot, foundMatch);
        SortedRollsSplit(curr, idx);
        return false;
      }
      SortedRollsPrefix(curr, idx);
    }

    assert SortedRolls(curr)[..|curr|] == SortedRolls(curr);
    KeysWhereSplit(ot, foundMatch);
    eq := AllFound(foundMatch);
    if eq {
      KeysWhereAllUsed(ot, foundMatch);
    } else {
      var k :| 0 <= k < |foundMatch| && !foundMatch[k];
      KeysWhereHas(ot, foundMatch, k);
    }
  }

  /** The first loop of areMoveRollListsEqual: one `false` flag per roll. */
  method NoneFound(n: nat) returns (foundMatch: seq<bool>)
    ensures |foundMatch| == n
    ensures forall k :: 0 <= k < n ==> !foundMatch[k]
  {
    foundMatch := [];
    for idx := 0 to n
      invariant |foundMatch| == idx
      invariant forall k :: 0 <= k < idx ==> !foundMatch[k]
    {
      foundMatch := foundMatch + [false];
    }
  }

  /** The final loop of areMoveRollListsEqual: is every roll of the other
      list matched? */
  method AllFound(foundMatch: seq<bool>) returns (all: bool)
    ensures all <==> forall k :: 0 <= k < |foundMatch| ==> foundMatch[k]
  {
    for idx := 0 to |foundMatch|
      invariant forall k :: 0 <= k < idx ==> foundMatch[k]
    {
      if !foundMatch[idx] {
        return false;
      }
    }
    return true;
  }

  /** No roll of `ot` before `j` is free with sorted form `key`. */
  predicate NoFreeBefore(ot: seq<seq<Move>>, key: seq<Move>, used: seq<bool>, j: int)
    requires |used| == |ot| && j <= |ot|
  {
    forall k :: 0 <= k < j ==> !(GoSort(ot[k]) == key && !used[k])
  }

  /** One pass of the inner loop: the first free roll of `ot` that
      `roll` isEqual to is taken. */
  method MatchOne(roll: seq<Move>, ot: seq<seq<Move>>, foundMatch: seq<bool>)
    returns (found: bool, taken: seq<bool>, jdx: int)
    requires |foundMatch| == |ot|
    ensures |taken| == |ot|
    ensures found ==> KeysWhere(ot, taken, true) == KeysWhere(ot, foundMatch, true) + multiset{GoSort(roll)}
    ensures found ==> 0 <= jdx < |ot| && !foundMatch[jdx] && GoSort(ot[jdx]) == GoSort(roll)
                      && taken == foundMatch[jdx := true]
                      && NoFreeBefore(ot, GoSort(roll), foundMatch, jdx)
    ensures !found ==> taken == foundMatch && GoSort(roll) !in KeysWhere(ot, foundMatch, false)
  {
    taken := foundMatch;
    found := false;
    jdx := 0;
    while jdx < |ot|
      invariant 0 <= jdx <= |ot| && taken == foundMatch
      invariant NoFreeBefore(ot, GoSort(roll), foundMatch, jdx)
    {
      if RollsEqual(roll, ot[jdx]) && !taken[jdx] {
        found := true;
        KeysWhereMark(ot, taken, jdx);
        taken := taken[jdx := true];
        return;
      }
      jdx := jdx + 1;
    }
    KeysWhereFree(ot, foundMatch, GoSort(roll));
  }

  lemma {:induction false} KeysWhereNone(ot: seq<seq<Move>>, used: seq<bool>)
    requires |used| == |ot| && forall k :: 0 <= k < |used| ==> !used[k]
    ensures KeysWhere(ot, used, true) == multiset{}
  {
    if ot != [] {
      KeysWhereNone(ot[..|ot| - 1], used[..|ot| - 1]);
    }
  }

  lemma {:induction false} KeysWhereAllUsed(ot: seq<seq<Move>>, used: seq<bool>)
    requires |used| == |ot| && forall k :: 0 <= k < |used| ==> used[k]
    ensures KeysWhere(ot, used, false) == multiset{}
  {
    if ot != [] {
      KeysWhereAllUsed(ot[..|ot| - 1], used[..|ot| - 1]);
    }
  }

  /** The taken and the free rolls together are all of `ot`. */
  lemma {:induction false} KeysWhereSplit(ot: seq<seq<Move>>, used: seq<bool>)
    requires |used| == |ot|
    ensures KeysWhere(ot, used, true) + KeysWhere(ot, used, false) == multiset(SortedRolls(ot))
  {
    if ot != [] {
      var n := |ot| - 1;
      KeysWhereSplit(ot[..n], used[..n]);
      SortedRollsSnoc(ot);
    }
  }

  lemma SortedRollsPrefix(rs: seq<seq<Move>>, i: int)
    requires 0 <= i < |rs|
    ensures SortedRolls(rs)[..i + 1] == SortedRolls(rs)[..i] + [GoSort(rs[i])]
  {
    var sr := SortedRolls(rs);
    assert sr[..i + 1] == sr[..i] + [sr[i]];
  }

  lemma SortedRollsSnoc(rs: seq<seq<Move>>)
    requires rs != []
    ensures SortedRolls(rs) == SortedRolls(rs[..|rs| - 1]) + [GoSort(rs[|rs| - 1])]
  {
    var n := |rs| - 1;
    forall k | 0 <= k < n
      ensures SortedRolls(rs)[k] == SortedRolls(rs[..n])[k]
    {
      assert rs[..n][k] == rs[k];
    }
  }

  /** Taking a free roll moves its sorted form from the free to the taken side. */
  lemma {:induction false} KeysWhereMark(ot: seq<seq<Move>>, used: seq<bool>, j: int)
    requires |used| == |ot| && 0 <= j < |ot| && !used[j]
    ensures KeysWhere(ot, used[j := true], true) == KeysWhere(ot, used, true) + multiset{GoSort(ot[j])}
  {
    var n := |ot| - 1;
    if j < n {
      KeysWhereMark(ot[..n], used[..n], j);
      assert used[j := true][..n] == used[..n][j := true];
    } else {
      assert used[j := true][..n] == used[..n];
    }
  }

  /** A free roll's sorted form is among the free keys. */
  lemma {:induction false} KeysWhereHas(ot: seq<seq<Move>>, used: seq<bool>, j: int)
    requires |used| == |ot| && 0 <= j < |ot| && !used[j]
    ensures GoSort(ot[j]) in KeysWhere(ot, used, false)
  {
    var n := |ot| - 1;
    if j < n {
      KeysWhereHas(ot[..n], used[..n], j);
    }
  }

  /** A key no free roll has is not among the free keys. */
  lemma {:induction false} KeysWhereFree(ot: seq<seq<Move>>, used: seq<bool>, key: seq<Move>)
    requires |used| == |ot|
    requires forall k :: 0 <= k < |ot| ==> !(GoSort(ot[k]) == key && !used[k])
    ensures key !in KeysWhere(ot, used, false)
  {
    if ot != [] {
      var n := |ot| - 1;
      KeysWhereFree(ot[..n], used[..n], key);
    }
  }

  lemma SortedRollsSplit(rs: seq<seq<Move>>, i: int)
    requires 0 <= i < |rs|
    ensures GoSort(rs[i]) in multiset(SortedRolls(rs)) - multiset(SortedRolls(rs)[..i])
  {
    var sr := SortedRolls(rs);
    assert sr == sr[..i] + sr[i..];
    assert sr[i..][0] == GoSort(rs[i]);
    assert GoSort(rs[i]) in multiset(sr[i..]);
  }
}
