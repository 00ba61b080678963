/** The two sifts of the binary min-heap, as functions on the elements held and the key of each. */
module HeapOrder {

  type Keys<T> = map<T, int>

  function Key<T>(m: Keys<T>, t: T): int {
    if t in m then m[t] else 0
  }

  function Swap<T>(s: seq<T>, i: nat, j: nat): (r: seq<T>)
    requires i < |s| && j < |s|
    ensures |r| == |s| && multiset(r) == multiset(s)
  {
    s[i := s[j]][j := s[i]]
  }

  predicate OrderedAt<T>(s: seq<T>, m: Keys<T>, j: nat)
    requires j < |s|
  {
    j > 0 ==> Key(m, s[(j - 1) / 2]) <= Key(m, s[j])
  }

  predicate IsHeap<T>(s: seq<T>, m: Keys<T>) {
    forall j: nat | j < |s| :: OrderedAt(s, m, j)
  }

  /** After an element moved to its parent's place: the parent now in its place is compared with its sibling's. */
  predicate SiblingBelow<T>(s: seq<T>, m: Keys<T>, idx: nat)
    requires 0 < idx < |s|
  {
    idx % 2 == 0 && Key(m, s[idx - 1]) < Key(m, s[(idx - 1) / 2])
  }

  function SiftUp<T>(s: seq<T>, m: Keys<T>, idx: nat): (r: seq<T>)
    requires idx < |s|
    ensures |r| == |s| && multiset(r) == multiset(s)
    decreases |s|, idx
  {
    if idx == 0 then s
    else
      var root := (idx - 1) / 2;
      if Key(m, s[idx]) < Key(m, s[root]) then
        var up := Swap(s, idx, root);
        SiftUp(if SiblingBelow(up, m, idx) then Swap(up, idx - 1, root) else up, m, root)
      else s
  }

  /** Whether sifting up ever takes the extra swap with the sibling. */
  predicate SwapsSibling<T>(s: seq<T>, m: Keys<T>, idx: nat)
    requires idx < |s|
    decreases |s|, idx
  {
    idx > 0 &&
    var root := (idx - 1) / 2;
    Key(m, s[idx]) < Key(m, s[root]) &&
    (SiblingBelow(Swap(s, idx, root), m, idx) || SwapsSibling(Swap(s, idx, root), m, root))
  }

  function SmallerChild<T>(s: seq<T>, m: Keys<T>, idx: nat): (c: nat)
    requires idx * 2 + 1 < |s|
    ensures (c == idx * 2 + 1 || c == idx * 2 + 2) && c < |s|
    ensures Key(m, s[c]) <= Key(m, s[idx * 2 + 1])
    ensures idx * 2 + 2 < |s| ==> Key(m, s[c]) <= Key(m, s[idx * 2 + 2])
  {
    if idx * 2 + 2 < |s| && Key(m, s[idx * 2 + 1]) > Key(m, s[idx * 2 + 2]) then idx * 2 + 2 else idx * 2 + 1
  }

  function SiftDown<T>(s: seq<T>, m: Keys<T>, idx: nat): (r: seq<T>)
    ensures |r| == |s| && multiset(r) == multiset(s)
    decreases |s| - idx
  {
    if idx * 2 + 1 < |s| then
      var c := SmallerChild(s, m, idx);
      if Key(m, s[idx]) > Key(m, s[c]) then SiftDown(Swap(s, idx, c), m, c) else s
    else s
  }

  /** Sifting down leaves the places before `idx` alone. */
  lemma {:induction false} DownKeepsFront<T>(s: seq<T>, m: Keys<T>, idx: nat)
    requires idx <= |s|
    ensures SiftDown(s, m, idx)[..idx] == s[..idx]
    decreases |s| - idx
  {
    if idx * 2 + 1 < |s| {
      var c := SmallerChild(s, m, idx);
      if Key(m, s[idx]) > Key(m, s[c]) {
        var d := Swap(s, idx, c);
        DownKeepsFront(d, m, c);
        var r := SiftDown(d, m, c);
        assert r[..idx] == r[..c][..idx] == d[..c][..idx] == s[..idx];
      }
    }
  }

  /** Ordered everywhere but at `idx`, and still ordered around it if `idx` were skipped. */
  predicate HeapBelow<T>(s: seq<T>, m: Keys<T>, idx: nat)
    requires idx < |s|
  {
    && (forall j: nat | j < |s| && j != idx :: OrderedAt(s, m, j))
    && (idx > 0 ==> forall j: nat | j < |s| && j > 0 && (j - 1) / 2 == idx :: Key(m, s[(idx - 1) / 2]) <= Key(m, s[j]))
  }

  lemma {:induction false} SiftUpHeap<T>(s: seq<T>, m: Keys<T>, idx: nat)
    requires idx < |s| && HeapBelow(s, m, idx)
    ensures IsHeap(SiftUp(s, m, idx), m) && !SwapsSibling(s, m, idx)
    decreases idx
  {
    if idx > 0 && Key(m, s[idx]) < Key(m, s[(idx - 1) / 2]) {
      var root := (idx - 1) / 2;
      UpStep(s, m, idx);
      SiftUpHeap(Swap(s, idx, root), m, root);
    } else {
      assert OrderedAt(s, m, idx);
    }
  }

  lemma UpStep<T>(s: seq<T>, m: Keys<T>, idx: nat)
    requires 0 < idx < |s| && HeapBelow(s, m, idx) && Key(m, s[idx]) < Key(m, s[(idx - 1) / 2])
    ensures HeapBelow(Swap(s, idx, (idx - 1) / 2), m, (idx - 1) / 2)
    ensures !SiblingBelow(Swap(s, idx, (idx - 1) / 2), m, idx)
  {
    var root := (idx - 1) / 2;
    var up := Swap(s, idx, root);
    assert OrderedAt(s, m, root);
    if idx % 2 == 0 {
      assert OrderedAt(s, m, idx - 1);
    }
    forall j: nat | j < |up| && j != root ensures OrderedAt(up, m, j) {
      assert OrderedAt(s, m, j) || j == idx;
    }
    if root > 0 {
      forall j: nat | j < |up| && j > 0 && (j - 1) / 2 == root ensures Key(m, up[(root - 1) / 2]) <= Key(m, up[j]) {
        assert OrderedAt(s, m, j) || j == idx;
      }
    }
  }

  /** An element sifted up from the end of a heap gives a heap, and never takes the sibling swap. */
  lemma PushKeepsHeap<T>(s: seq<T>, m: Keys<T>, e: T)
    requires IsHeap(s, m)
    ensures IsHeap(SiftUp(s + [e], m, |s|), m) && !SwapsSibling(s + [e], m, |s|)
  {
    var all := s + [e];
    forall j: nat | j < |all| && j != |s| ensures OrderedAt(all, m, j) {
      assert OrderedAt(s, m, j);
    }
    SiftUpHeap(all, m, |s|);
  }

  /** Ordered everywhere but between `idx` and its parent or children, and around it if `idx` were skipped. */
  predicate HeapAbove<T>(s: seq<T>, m: Keys<T>, idx: nat) {
    && (forall j: nat | j < |s| && j != idx && (j == 0 || (j - 1) / 2 != idx) :: OrderedAt(s, m, j))
    && (0 < idx < |s| ==>
          forall j: nat | j < |s| && j > 0 && (j - 1) / 2 == idx :: Key(m, s[(idx - 1) / 2]) <= Key(m, s[j]))
  }

  /** Sifting down mends the heap exactly when the element at `idx` is not below its parent. */
  lemma {:induction false} SiftDownHeap<T>(s: seq<T>, m: Keys<T>, idx: nat)
    requires HeapAbove(s, m, idx)
    ensures IsHeap(SiftDown(s, m, idx), m) <==>
      idx == 0 || idx >= |s| || Key(m, s[(idx - 1) / 2]) <= Key(m, s[idx])
    decreases |s| - idx
  {
    if idx * 2 + 1 < |s| && Key(m, s[idx]) > Key(m, s[SmallerChild(s, m, idx)]) {
      DownStep(s, m, idx);
      SiftDownHeap(Swap(s, idx, SmallerChild(s, m, idx)), m, SmallerChild(s, m, idx));
    } else {
      DownStops(s, m, idx);
    }
  }

  lemma DownStops<T>(s: seq<T>, m: Keys<T>, idx: nat)
    requires HeapAbove(s, m, idx)
    requires idx * 2 + 1 < |s| ==> Key(m, s[idx]) <= Key(m, s[SmallerChild(s, m, idx)])
    ensures IsHeap(s, m) <==> idx == 0 || idx >= |s| || Key(m, s[(idx - 1) / 2]) <= Key(m, s[idx])
  {
    forall j: nat | j < |s| && j != idx ensures OrderedAt(s, m, j) {
      if j > 0 && (j - 1) / 2 == idx {
        assert j == idx * 2 + 1 || j == idx * 2 + 2;
      }
    }
    if 0 < idx < |s| {
      assert IsHeap(s, m) <==> OrderedAt(s, m, idx);
    }
  }

  lemma DownStep<T>(s: seq<T>, m: Keys<T>, idx: nat)
    requires HeapAbove(s, m, idx) && idx * 2 + 1 < |s| && Key(m, s[idx]) > Key(m, s[SmallerChild(s, m, idx)])
    ensures var c := SmallerChild(s, m, idx);
      var down := Swap(s, idx, c);
      && (idx == 0 || Key(m, s[(idx - 1) / 2]) <= Key(m, s[idx]))
      && HeapAbove(down, m, c) && Key(m, down[(c - 1) / 2]) <= Key(m, down[c])
  {
    var c := SmallerChild(s, m, idx);
    var down := Swap(s, idx, c);
    assert (c - 1) / 2 == idx;
    forall j: nat | j < |s| && j != c && (j == 0 || (j - 1) / 2 != c) ensures OrderedAt(down, m, j) {
      assert j == idx || (j > 0 && (j - 1) / 2 == idx) || OrderedAt(s, m, j);
    }
    forall j: nat | j < |down| && j > 0 && (j - 1) / 2 == c ensures Key(m, down[idx]) <= Key(m, down[j]) {
      assert OrderedAt(s, m, j);
    }
  }

  /** Whether removing at `idx` moves no element below a larger one: a test a caller can make before the call. */
  predicate CanRemove<T>(s: seq<T>, m: Keys<T>, idx: nat)
    requires idx < |s|
  {
    idx == 0 || idx == |s| - 1 || Key(m, s[(idx - 1) / 2]) <= Key(m, s[|s| - 1])
  }

  /** The elements with the last one moved into place `idx`. */
  function Cut<T>(s: seq<T>, idx: nat): (r: seq<T>)
    requires idx < |s|
    ensures |r| == |s| - 1 && multiset(s) == multiset(r) + multiset{s[idx]}
  {
    var all := Swap(s, idx, |s| - 1);
    assert all == all[..|s| - 1] + [s[idx]];
    all[..|s| - 1]
  }

  /** The elements after place `idx` was filled with the last one, which is then sifted down. */
  function Without<T>(s: seq<T>, m: Keys<T>, idx: nat): seq<T>
    requires idx < |s|
  {
    SiftDown(Cut(s, idx), m, idx)
  }

  lemma CutIsAbove<T>(s: seq<T>, m: Keys<T>, idx: nat)
    requires IsHeap(s, m) && idx < |s|
    ensures HeapAbove(Cut(s, idx), m, idx)
  {
    var cut := Cut(s, idx);
    forall j: nat | j < |cut| && j != idx && (j == 0 || (j - 1) / 2 != idx) ensures OrderedAt(cut, m, j) {
      assert OrderedAt(s, m, j);
    }
    if 0 < idx < |cut| {
      assert OrderedAt(s, m, idx);
      forall j: nat | j < |cut| && j > 0 && (j - 1) / 2 == idx ensures Key(m, cut[(idx - 1) / 2]) <= Key(m, cut[j]) {
        assert OrderedAt(s, m, j);
      }
    }
  }

  /** Removing at `idx` keeps the heap exactly when the last element is not below the parent of the hole. */
  lemma WithoutHeap<T>(s: seq<T>, m: Keys<T>, idx: nat)
    requires IsHeap(s, m) && idx < |s|
    ensures IsHeap(Without(s, m, idx), m) <==> CanRemove(s, m, idx)
    ensures multiset(s) == multiset(Without(s, m, idx)) + multiset{s[idx]}
  {
    CutIsAbove(s, m, idx);
    SiftDownHeap(Cut(s, idx), m, idx);
  }

  // ----- an element pushed back after a removal -----

  /** Whether sifting up from place `i` passes place `q`. */
  predicate OnPath(i: nat, q: nat) {
    q == i || (i > 0 && OnPath((i - 1) / 2, q))
  }

  lemma {:induction false} PathKeys<T>(s: seq<T>, m: Keys<T>, i: nat, q: nat)
    requires IsHeap(s, m) && i < |s| && OnPath(i, q)
    ensures q <= i && Key(m, s[q]) <= Key(m, s[i])
  {
    if q != i {
      assert OrderedAt(s, m, i);
      PathKeys(s, m, (i - 1) / 2, q);
    }
  }

  /** Sifting up leaves a disorder aside from its path as it is. */
  lemma {:induction false} SiftUpAside<T>(s: seq<T>, m: Keys<T>, idx: nat, b: nat)
    requires idx < |s| && 0 < b < |s| && !OnPath(idx, b) && !OnPath(idx, (b - 1) / 2)
    requires forall j: nat | j < |s| && j != idx && j != b :: OrderedAt(s, m, j)
    requires idx > 0 ==>
      forall j: nat | j < |s| && j > 0 && (j - 1) / 2 == idx :: Key(m, s[(idx - 1) / 2]) <= Key(m, s[j])
    ensures SiftUp(s, m, idx)[b] == s[b] && SiftUp(s, m, idx)[(b - 1) / 2] == s[(b - 1) / 2]
    decreases idx
  {
    if idx > 0 && Key(m, s[idx]) < Key(m, s[(idx - 1) / 2]) {
      UpAside(s, m, idx, b);
      SiftUpAside(Swap(s, idx, (idx - 1) / 2), m, (idx - 1) / 2, b);
    }
  }

  lemma UpAside<T>(s: seq<T>, m: Keys<T>, idx: nat, b: nat)
    requires 0 < idx < |s| && 0 < b < |s| && !OnPath(idx, b) && !OnPath(idx, (b - 1) / 2)
    requires forall j: nat | j < |s| && j != idx && j != b :: OrderedAt(s, m, j)
    requires forall j: nat | j < |s| && j > 0 && (j - 1) / 2 == idx :: Key(m, s[(idx - 1) / 2]) <= Key(m, s[j])
    requires Key(m, s[idx]) < Key(m, s[(idx - 1) / 2])
    ensures var root := (idx - 1) / 2;
      var up := Swap(s, idx, root);
      && !SiblingBelow(up, m, idx) && !OnPath(root, b) && !OnPath(root, (b - 1) / 2)
      && up[b] == s[b] && up[(b - 1) / 2] == s[(b - 1) / 2]
      && (forall j: nat | j < |s| && j != root && j != b :: OrderedAt(up, m, j))
      && (root > 0 ==>
           forall j: nat | j < |s| && j > 0 && (j - 1) / 2 == root :: Key(m, up[(root - 1) / 2]) <= Key(m, up[j]))
  {
    var root := (idx - 1) / 2;
    var up := Swap(s, idx, root);
    assert !OnPath(root, b) && !OnPath(root, (b - 1) / 2) && OnPath(root, root);
    assert OrderedAt(s, m, root);
    if idx % 2 == 0 {
      assert (idx - 2) / 2 == root;
      assert OrderedAt(s, m, idx - 1);
    }
    forall j: nat | j < |up| && j != root && j != b ensures OrderedAt(up, m, j) {
      assert OrderedAt(s, m, j) || j == idx;
    }
    if root > 0 {
      forall j: nat | j < |up| && j > 0 && (j - 1) / 2 == root ensures Key(m, up[(root - 1) / 2]) <= Key(m, up[j]) {
        assert OrderedAt(s, m, j) || j == idx;
      }
    }
  }

  /** When the last element is below the parent of the hole, filling the hole with it is all that happens. */
  lemma WithoutStays<T>(s: seq<T>, m: Keys<T>, idx: nat)
    requires IsHeap(s, m) && idx < |s| && !CanRemove(s, m, idx)
    ensures Without(s, m, idx) == Cut(s, idx)
  {
    assert OrderedAt(s, m, idx);
    var cut := Cut(s, idx);
    if idx * 2 + 1 < |cut| {
      var c := SmallerChild(cut, m, idx);
      assert OrderedAt(s, m, c);
    }
  }

  lemma SameKeysHeap<T>(s: seq<T>, m: Keys<T>, k: Keys<T>)
    requires forall t | t in s :: Key(m, t) == Key(k, t)
    ensures IsHeap(s, m) <==> IsHeap(s, k)
  {
    assert forall j: nat | j < |s| :: OrderedAt(s, m, j) <==> OrderedAt(s, k, j);
  }

  /** An element pushed after a removal neither mends the disorder the removal left nor makes one. */
  lemma PushBackHeap<T>(s: seq<T>, m: Keys<T>, idx: nat, r: seq<T>, e: T, k: Keys<T>)
    requires IsHeap(s, m) && idx < |s| && r == Without(s, m, idx)
    requires forall t | t in r :: Key(m, t) == Key(k, t)
    ensures IsHeap(SiftUp(r + [e], k, |r|), k) <==> CanRemove(s, m, idx)
  {
    if CanRemove(s, m, idx) {
      WithoutHeap(s, m, idx);
      SameKeysHeap(r, m, k);
      PushKeepsHeap(r, k, e);
    } else {
      WithoutStays(s, m, idx);
      PushBackBroken(s, m, idx, r, e, k);
    }
  }

  /** The hole and its parent are not above the place of the last element when that is below the parent. */
  lemma LastAside<T>(s: seq<T>, m: Keys<T>, idx: nat)
    requires IsHeap(s, m) && idx < |s| && !CanRemove(s, m, idx)
    ensures !OnPath(|s| - 1, idx) && !OnPath(|s| - 1, (idx - 1) / 2)
  {
    var last, root := |s| - 1, (idx - 1) / 2;
    assert OrderedAt(s, m, idx);
    if OnPath(last, idx) {
      PathKeys(s, m, last, idx);
    }
    if OnPath(last, root) {
      PathKeys(s, m, last, root);
    }
  }

  /** Only the hole is out of order then. */
  lemma OnlyHole<T>(s: seq<T>, m: Keys<T>, idx: nat, e: T, k: Keys<T>, j: nat)
    requires IsHeap(s, m) && idx < |s| && !CanRemove(s, m, idx) && j < |s| - 1
    requires forall t | t in Cut(s, idx) :: Key(m, t) == Key(k, t)
    ensures OrderedAt(Cut(s, idx) + [e], k, j) <==> j != idx
  {
    var r := Cut(s, idx);
    assert r[j] in r && (j > 0 ==> r[(j - 1) / 2] in r);
    assert OrderedAt(s, m, j) && OrderedAt(s, m, idx);
  }

  lemma PushBackBroken<T>(s: seq<T>, m: Keys<T>, idx: nat, r: seq<T>, e: T, k: Keys<T>)
    requires IsHeap(s, m) && idx < |s| && !CanRemove(s, m, idx) && r == Cut(s, idx)
    requires forall t | t in r :: Key(m, t) == Key(k, t)
    ensures !IsHeap(SiftUp(r + [e], k, |r|), k)
  {
    var all := r + [e];
    var last := |s| - 1;
    LastAside(s, m, idx);
    forall j: nat | j < last ensures OrderedAt(all, k, j) <==> j != idx {
      OnlyHole(s, m, idx, e, k, j);
    }
    SiftUpAside(all, k, last, idx);
    StillBroken(all, SiftUp(all, k, last), k, idx);
  }

  lemma StillBroken<T>(s: seq<T>, r: seq<T>, m: Keys<T>, b: nat)
    requires 0 < b < |s| == |r| && r[b] == s[b] && r[(b - 1) / 2] == s[(b - 1) / 2] && !OrderedAt(s, m, b)
    ensures !IsHeap(r, m)
  {
    assert !OrderedAt(r, m, b);
  }

  /** Out of order the extra swap is taken: 3 moves up past 5, and then 1 past 3. */
  lemma SiblingSwapped(s: seq<int>, m: Keys<int>)
    requires s == [5, 1, 3] && forall x | x in s :: Key(m, x) == x
    ensures SwapsSibling(s, m, 2) && SiftUp(s, m, 2) == [1, 3, 5]
  {
    assert s[0] in s && s[1] in s && s[2] in s;
    assert Swap(s, 2, 0) == [3, 1, 5];
    assert Swap([3, 1, 5], 1, 0) == [1, 3, 5];
  }

  /** Equal elements do not move, and of two equal children the left one is the smaller. */
  lemma TiesStay<T>(s: seq<T>, m: Keys<T>, idx: nat)
    requires idx < |s|
    ensures idx > 0 && Key(m, s[idx]) >= Key(m, s[(idx - 1) / 2]) ==> SiftUp(s, m, idx) == s
    ensures idx * 2 + 1 < |s| && Key(m, s[idx]) <= Key(m, s[SmallerChild(s, m, idx)]) ==> SiftDown(s, m, idx) == s
    ensures idx * 2 + 2 < |s| && Key(m, s[idx * 2 + 1]) == Key(m, s[idx * 2 + 2]) ==>
      SmallerChild(s, m, idx) == idx * 2 + 1
  {
  }

  /** A heap that loses its order when the element at place 3 is removed: 3 comes to lie below 10. */
  lemma RemovalCanBreak(s: seq<int>, m: Keys<int>)
    requires s == [1, 10, 2, 11, 12, 3] && forall x | x in s :: Key(m, x) == x
    ensures IsHeap(s, m) && !IsHeap(Without(s, m, 3), m)
  {
    assert s[0] in s && s[1] in s && s[2] in s && s[3] in s && s[4] in s && s[5] in s;
    WithoutHeap(s, m, 3);
  }

  /** The root of a heap has a smallest key. */
  lemma {:induction false} RootIsLeast<T>(s: seq<T>, m: Keys<T>, j: nat)
    requires IsHeap(s, m) && j < |s|
    ensures Key(m, s[0]) <= Key(m, s[j])
  {
    if j > 0 {
      assert OrderedAt(s, m, j);
      RootIsLeast(s, m, (j - 1) / 2);
    }
  }

  // ----- occurrences -----

  predicate Distinct<T(==)>(s: seq<T>) {
    forall i, j | 0 <= i < j < |s| :: s[i] != s[j]
  }

  lemma {:induction false} DistinctCount<T>(s: seq<T>, t: T)
    requires Distinct(s)
    ensures multiset(s)[t] <= 1
  {
    if s != [] {
      assert s == [s[0]] + s[1..];
      DistinctCount(s[1..], t);
      assert s[0] !in s[1..];
    }
  }

  lemma {:induction false} SingleCount<T>(s: seq<T>, i: nat, j: nat)
    requires i < j < |s| && multiset(s)[s[i]] <= 1
    ensures s[i] != s[j]
  {
    assert s == s[..i] + [s[i]] + s[i + 1..];
    assert multiset(s) == multiset(s[..i]) + multiset{s[i]} + multiset(s[i + 1..]);
    assert s[j] in s[i + 1..];
  }

  /** Being without repetition depends only on how often each element occurs. */
  lemma DistinctPerm<T>(s: seq<T>, t: seq<T>)
    requires multiset(s) <= multiset(t) && Distinct(t)
    ensures Distinct(s)
  {
    forall i, j | 0 <= i < j < |s| ensures s[i] != s[j] {
      DistinctCount(t, s[i]);
      SingleCount(s, i, j);
    }
  }
}
