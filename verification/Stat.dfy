/** The compressed hand statistics object: its search restores both counts and groups, whatever it answers. */
module StatModel {
  import opened Tiles
  import opened WinningHand
  import opened CompressedSearch

  predicate Ascending(s: seq<nat>) {
    forall i | 0 < i < |s| :: s[i - 1] <= s[i]
  }

  function Insert(s: seq<nat>, x: nat): (r: seq<nat>)
    requires Ascending(s)
    ensures Ascending(r) && |r| == |s| + 1
    ensures r[0] == if s == [] || x <= s[0] then x else s[0]
  {
    if s == [] || x <= s[0] then [x] + s else [s[0]] + Insert(s[1..], x)
  }

  lemma {:induction false} InsertAdds(s: seq<nat>, x: nat)
    requires Ascending(s)
    ensures multiset(Insert(s, x)) == multiset(s) + multiset{x}
  {
    if s != [] && x > s[0] {
      InsertAdds(s[1..], x);
      assert s == [s[0]] + s[1..];
    }
  }

  /** What sorting a slice by value leaves in it. */
  function Sorted(s: seq<nat>): (r: seq<nat>)
    ensures Ascending(r) && multiset(r) == multiset(s)
  {
    if s == [] then []
    else
      assert s == [s[0]] + s[1..];
      InsertAdds(Sorted(s[1..]), s[0]);
      Insert(Sorted(s[1..]), s[0])
  }

  lemma SortedPlain(s: seq<nat>)
    requires forall v | v in s :: Plain(v)
    ensures forall v | v in Sorted(s) :: Plain(v)
  {
    forall v | v in Sorted(s) ensures v in s {
      assert v in multiset(Sorted(s));
      assert v in multiset(s);
    }
  }

  /** The encoding holds exactly the tiles of the hand. */
  ghost predicate Holds(val: seq<nat>, num: seq<int>, hand: multiset<nat>)
    requires |val| == |num|
  {
    forall q: nat :: CountOf(val, num, q) == hand[q]
  }

  class Stat {
    var pai: nat
    var val: seq<nat>
    var num: seq<int>
    var groups: seq<Group>

    /** The run-length encoding of the hand, with `p` added when positive. */
    constructor (mj: seq<nat>, p: nat, g: seq<Group>)
      requires (forall v | v in mj :: Plain(v) && v > 0) && (p > 0 ==> Plain(p))
      ensures Encoded(val, num) && AllHeld(num) && groups == g
      ensures Holds(val, num, multiset(if p > 0 then mj + [p] else mj))
    {
      var all := if p > 0 then mj + [p] else mj;
      pai := p;
      groups := g;
      val := [];
      num := [];
      new;
      SortedPlain(all);
      Encode(Sorted(all));
    }

    /** The encoding loop over the sorted hand. */
    method Encode(all: seq<nat>)
      requires val == [] && num == [] && Ascending(all) && forall v | v in all :: Plain(v)
      modifies this`val, this`num
      ensures Encoded(val, num) && AllHeld(num) && Holds(val, num, multiset(all))
    {
      for i := 0 to |all|
        invariant Encoded(val, num) && AllHeld(num)
        invariant if i == 0 then val == [] else |val| > 0 && val[|val| - 1] == all[i - 1]
        invariant Holds(val, num, multiset(all[..i]))
      {
        assert all[..i + 1] == all[..i] + [all[i]];
        CountTile(all[i], multiset(all[..i]));
      }
      assert all[..|all|] == all;
    }

    /** Counts the next tile of a sorted hand: the last code once more, or a new last code. */
    method CountTile(x: nat, ghost hand: multiset<nat>)
      requires Encoded(val, num) && AllHeld(num) && Plain(x) && Holds(val, num, hand)
      requires |val| > 0 ==> val[|val| - 1] <= x
      modifies this`val, this`num
      ensures Encoded(val, num) && AllHeld(num) && |val| > 0 && val[|val| - 1] == x
      ensures Holds(val, num, hand + multiset{x})
    {
      var idx := |val| - 1;
      if idx >= 0 && x == val[idx] {
        CountAgain(val, num);
        num := num[idx := num[idx] + 1];
      } else {
        CountNew(val, num, x);
        val := val + [x];
        num := num + [1];
      }
    }

    method NextHeld(i: nat) returns (j: nat)
      requires i <= |num|
      ensures j == NextIndex(num, i)
    {
      j := i;
      while j < |num| && num[j] == 0
        invariant i <= j <= |num| && NextIndex(num, i) == NextIndex(num, j)
      {
        j := j + 1;
      }
    }

    method DealKezi(i: nat) returns (ok: bool)
      requires Encoded(val, num) && i <= |num|
      modifies this`num, this`groups
      ensures ok == TripleFits(val, old(num), i) && num == old(num) && groups == old(groups)
      decreases |num| - i, if i < |num| then num[i] else 0, 0
    {
      if i >= |num| {
        return true;
      }
      if num[i] >= 3 {
        num := num[i := num[i] - 3];
        groups := groups + [Group(Ke, val[i])];
        var j := NextHeld(i);
        ok := DealEither(j);
        groups := groups[..|groups| - 1];
        num := num[i := num[i] + 3];
        assert num == old(num) && groups == old(groups);
        return ok;
      }
      return false;
    }

    method DealShunzi(i: nat) returns (ok: bool)
      requires Encoded(val, num) && i <= |num|
      modifies this`num, this`groups
      ensures ok == RunFits(val, old(num), i) && num == old(num) && groups == old(groups)
      decreases |num| - i, if i < |num| then num[i] else 0, 0
    {
      if i >= |num| {
        return true;
      }
      if i + 2 >= |num| {
        return false;
      }
      if val[i] < TIAO1 {
        return false;
      }
      if num[i] >= 1 && num[i + 1] >= 1 && num[i + 2] >= 1 && val[i] + 1 == val[i + 1] && val[i + 1] + 1 == val[i + 2] {
        groups := groups + [Group(Shun, val[i])];
        num := LessRun(num, i);
        var j := NextHeld(i);
        ok := DealEither(j);
        groups := groups[..|groups| - 1];
        num := num[i := num[i] + 1][i + 1 := num[i + 1] + 1][i + 2 := num[i + 2] + 1];
        assert num == old(num) && groups == old(groups);
        return ok;
      }
      return false;
    }

    method DealEither(i: nat) returns (ok: bool)
      requires Encoded(val, num) && i <= |num|
      modifies this`num, this`groups
      ensures ok == RestFits(val, old(num), i) && num == old(num) && groups == old(groups)
      decreases |num| - i, if i < |num| then num[i] else 0, 1
    {
      ok := DealKezi(i);
      if !ok {
        ok := DealShunzi(i);
      }
    }

    /** One round of the pair loop. */
    method TryPair(i: nat) returns (ok: bool)
      requires Encoded(val, num) && i < |num| && num[i] >= 2
      modifies this`num, this`groups
      ensures ok == PairFits(val, old(num), i) && num == old(num) && groups == old(groups)
    {
      num := num[i := num[i] - 2];
      groups := groups + [Group(Jiang, val[i])];
      ok := DealEither(0);
      num := num[i := num[i] + 2];
      groups := groups[..|groups| - 1];
    }

    /** Some pair other than the lowest code held exactly twice leaves triples and runs. */
    method Hu233() returns (ok: bool)
      requires Encoded(val, num) && AllHeld(num)
      modifies this`num, this`groups
      ensures num == old(num) && groups == old(groups)
      ensures ok <==> exists i, m :: Splits(Dense(val, num), i, m) && !LowestExactlyTwice(Dense(val, num), i)
    {
      CompressedExact(val, num);
      ok := false;
      for i := 0 to |val|
        invariant num == old(num) && groups == old(groups) && !ok
        invariant forall k | 0 <= k < i :: !PairFits(val, num, k)
      {
        if num[i] >= 2 {
          ok := TryPair(i);
          if ok {
            break;
          }
        }
      }
      assert ok == Accepts(val, num);
    }
  }

  lemma CountIs(val: seq<nat>, num: seq<int>, k: nat)
    requires Encoded(val, num) && k < |val|
    ensures CountOf(val, num, val[k]) == num[k]
  {
  }

  /** One more tile of the last code. */
  lemma CountAgain(val: seq<nat>, num: seq<int>)
    requires Encoded(val, num) && |val| > 0
    ensures var last := |val| - 1;
      var num' := num[last := num[last] + 1];
      Encoded(val, num') &&
      forall q: nat :: CountOf(val, num', q) == CountOf(val, num, q) + if q == val[last] then 1 else 0
  {
    var last := |val| - 1;
    var num' := num[last := num[last] + 1];
    forall k | 0 <= k < |val| ensures CountOf(val, num, val[k]) == num[k] && CountOf(val, num', val[k]) == num'[k] {
      CountIs(val, num, k);
      CountIs(val, num', k);
    }
  }

  /** One tile of a code above all others. */
  lemma CountNew(val: seq<nat>, num: seq<int>, x: nat)
    requires Encoded(val, num) && Plain(x) && (|val| > 0 ==> val[|val| - 1] < x)
    ensures Encoded(val + [x], num + [1])
    ensures forall q: nat :: CountOf(val + [x], num + [1], q) == CountOf(val, num, q) + if q == x then 1 else 0
  {
    forall q: nat ensures CountOf(val + [x], num + [1], q) == CountOf(val, num, q) + if q == x then 1 else 0 {
      CountNewAt(val, num, x, q);
    }
  }

  lemma CountNewAt(val: seq<nat>, num: seq<int>, x: nat, q: nat)
    requires Encoded(val, num) && Plain(x) && (|val| > 0 ==> val[|val| - 1] < x)
    ensures CountOf(val + [x], num + [1], q) == CountOf(val, num, q) + if q == x then 1 else 0
  {
    var val', num' := val + [x], num + [1];
    if q == x {
      assert val'[|val|] == x;
      CountIs(val', num', |val|);
    } else if k :| 0 <= k < |val| && val[k] == q {
      assert val'[k] == q;
      CountIs(val', num', k);
      CountIs(val, num, k);
    } else {
      assert forall k | 0 <= k < |val'| :: val'[k] != q;
    }
  }
}
