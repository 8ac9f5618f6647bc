/** Entering a separator into an inner node and splitting an inner node: the node images, the
    loops that build them, and what they do to routing. */
module FaunusRouting {
  import opened Bits
  import opened FaunusNodes

  /** The keys after separator `key` enters at `index`; the leftover in slot `last` goes. */
  function KeysWith(keys: seq<Key>, last: nat, index: nat, key: Key): (r: seq<Key>)
    requires index <= last < |keys|
    ensures |r| == |keys|
  {
    keys[..index] + [key] + keys[index..last] + keys[last + 1..]
  }

  /** The children after `child` enters to the right of child `index`. */
  function KidsWith(kids: seq<Addr>, last: nat, index: nat, child: Addr): (r: seq<Addr>)
    requires index <= last && last + 1 < |kids|
    ensures |r| == |kids|
  {
    kids[..index + 1] + [child] + kids[index + 1..last + 1] + kids[last + 2..]
  }

  /** The node with one more separator and the child that starts at it. */
  function WithEntry(n: Node, key: Key, child: Addr): (r: Node)
    requires n.Inner? && n.last + 1 < |n.keys| == |n.kids|
  {
    var index := Route(n, key);
    n.(last := n.last + 1,
       keys := KeysWith(n.keys, n.last, index, key),
       kids := KidsWith(n.kids, n.last, index, child))
  }

  /** The node with one more, empty, slot. */
  function Roomier(n: Node): (r: Node)
    requires n.Inner?
  {
    n.(keys := n.keys + [0], kids := n.kids + [0])
  }

  function Zeros(n: nat): (r: seq<nat>)
    ensures |r| == n && forall i :: 0 <= i < n ==> r[i] == 0
  {
    seq(n, _ => 0)
  }

  /** The two nodes an overfull node is split into: separator `mid` moves up, the children up
      to `mid` stay, the others move right.  Freed slots are zeroed, and separator `mid` is
      left behind as the leftover of the left node. */
  function LeftHalf(w: Node, mid: nat): (r: Node)
    requires w.Inner? && mid + 2 < |w.keys| == |w.kids|
  {
    var rest := Zeros(|w.keys| - mid - 2);
    Inner(w.lock, w.lo, w.keys[mid], w.height, mid, w.keys[..mid + 1] + rest, w.kids[..mid + 1] + rest)
  }

  function RightHalf(w: Node, mid: nat): (r: Node)
    requires w.Inner? && mid + 2 < |w.keys| == |w.kids|
  {
    Inner(0, w.keys[mid], w.hi, w.height, |w.keys| - mid - 2,
          w.keys[mid + 1..] + Zeros(mid), w.kids[mid + 1..] + Zeros(mid))
  }

  // ---- Entering a separator ---------------------------------------------------------------

  ghost predicate Enterable(size: nat, maxKey: Key, n: Node, key: Key) {
    && RoomyShape(size, maxKey, n)
    && n.last + 1 < size
    && n.lo < key < n.hi
    && key !in n.keys[..n.last]
  }

  lemma RoomierShape(size: nat, maxKey: Key, n: Node, key: Key)
    requires RoomyShape(size, maxKey, n)
    ensures RoomyShape(size + 1, maxKey, Roomier(n))
    ensures Route(Roomier(n), key) == Route(n, key)
    ensures Roomier(n).keys[..n.last] == n.keys[..n.last]
  {
    var w := Roomier(n);
    assert forall i :: 0 <= i < size ==> w.keys[i] == n.keys[i];
    var r := Route(n, key);
    assert r <= w.last && (r < w.last ==> key < w.keys[r]);
    SameRoute(n.keys, w.keys, n.last, key, 0);
  }

  lemma {:induction false} SameRoute(s: seq<Key>, t: seq<Key>, last: nat, k: Key, i: nat)
    requires i <= last <= |s| && last <= |t| && s[..last] == t[..last]
    ensures RouteFrom(s, last, k, i) == RouteFrom(t, last, k, i)
    decreases last - i
  {
    if i < last {
      assert s[i] == s[..last][i] == t[..last][i] == t[i];
      SameRoute(s, t, last, k, i + 1);
    }
  }

  /** Slot by slot, the keys after a separator entered at its place. */
  lemma WithEntryKeys(size: nat, maxKey: Key, n: Node, key: Key, child: Addr)
    requires Enterable(size, maxKey, n, key)
    ensures var w := WithEntry(n, key, child); var x := Route(n, key);
      && (forall i :: 0 <= i < x ==> w.keys[i] == n.keys[i] < key)
      && w.keys[x] == key
      && (forall i :: x < i < w.last ==> w.keys[i] == n.keys[i - 1] > key)
      && (forall i :: w.last <= i < size ==> w.keys[i] == n.keys[i])
  {
    var x := Route(n, key);
    assert forall i :: 0 <= i < x ==> n.keys[i] == n.keys[..n.last][i];
    assert x < n.last ==> key < n.keys[x];
  }

  lemma WithEntryShape(size: nat, maxKey: Key, n: Node, key: Key, child: Addr)
    requires Enterable(size, maxKey, n, key)
    ensures RoomyShape(size, maxKey, WithEntry(n, key, child))
  {
    WithEntryKeys(size, maxKey, n, key, child);
    var w := WithEntry(n, key, child);
    var x := Route(n, key);
    forall i, j | 0 <= i < j < w.last
      ensures w.keys[i] < w.keys[j]
    {
      if x < i { assert w.keys[i] == n.keys[i - 1]; }
      if x < j { assert w.keys[j] == n.keys[j - 1]; }
    }
  }

  /** Child by child, what entering a separator changes: child `Route(n, key)` gives the keys
      from `key` on to the new child, every other child keeps its part of the fence. */
  lemma WithEntryParts(size: nat, maxKey: Key, n: Node, key: Key, child: Addr, i: nat)
    requires Enterable(size, maxKey, n, key) && i <= n.last + 1
    ensures var w := WithEntry(n, key, child); var x := Route(n, key);
      && (i < x ==> w.kids[i] == n.kids[i] && Lower(w, i) == Lower(n, i) && Upper(w, i) == Upper(n, i))
      && (i == x ==> w.kids[i] == n.kids[i] && Lower(w, i) == Lower(n, i) && Upper(w, i) == key)
      && (i == x + 1 ==> w.kids[i] == child && Lower(w, i) == key && Upper(w, i) == Upper(n, x))
      && (i > x + 1 ==> w.kids[i] == n.kids[i - 1] && Lower(w, i) == Lower(n, i - 1) && Upper(w, i) == Upper(n, i - 1))
  {
  }

  /** Routing after a separator entered: keys from the separator up to the next one go to the
      new child, all other keys go where they went before. */
  lemma EnterPreservesRouting(size: nat, maxKey: Key, n: Node, key: Key, child: Addr, k: Key)
    requires Enterable(size, maxKey, n, key) && n.Covers(k)
    ensures var w := WithEntry(n, key, child);
      Child(w, k) == if key <= k < Upper(n, Route(n, key)) then child else Child(n, k)
  {
    var w := WithEntry(n, key, child);
    var x := Route(n, key);
    var i := Route(n, k);
    WithEntryShape(size, maxKey, n, key, child);
    RouteBounds(size, maxKey, n, k);
    RouteBounds(size, maxKey, n, key);
    if key <= k < Upper(n, x) {
      WithEntryParts(size, maxKey, n, key, child, x + 1);
      RouteUnique(size, maxKey, w, k, x + 1);
    } else {
      var j := if k < key then i else i + 1;
      assert k < key ==> i <= x;
      assert key <= k ==> x < i;
      WithEntryParts(size, maxKey, n, key, child, j);
      RouteUnique(size, maxKey, w, k, j);
    }
  }

  // ---- Splitting an overfull node -----------------------------------------------------------

  ghost predicate Splittable(size: nat, maxKey: Key, w: Node, mid: nat) {
    RoomyShape(size, maxKey, w) && w.last == size - 1 && 1 <= mid && mid + 2 < size
  }

  lemma HalvesShape(size: nat, maxKey: Key, w: Node, mid: nat)
    requires Splittable(size, maxKey, w, mid)
    ensures RoomyShape(size - 1, maxKey, LeftHalf(w, mid))
    ensures RoomyShape(size - 1, maxKey, RightHalf(w, mid))
  {
    var l, r := LeftHalf(w, mid), RightHalf(w, mid);
    assert forall i :: 0 <= i <= mid ==> l.keys[i] == w.keys[i];
    assert forall i :: 0 <= i < size - 1 - mid ==> r.keys[i] == w.keys[mid + 1 + i];
    assert w.keys[size - 1] == 0 || w.keys[size - 1] == w.hi;
  }

  lemma LeftParts(size: nat, maxKey: Key, w: Node, mid: nat, i: nat)
    requires Splittable(size, maxKey, w, mid) && i <= mid
    ensures var l := LeftHalf(w, mid);
      l.kids[i] == w.kids[i] && Lower(l, i) == Lower(w, i) && Upper(l, i) == Upper(w, i)
  {
  }

  lemma RightParts(size: nat, maxKey: Key, w: Node, mid: nat, i: nat)
    requires Splittable(size, maxKey, w, mid) && i <= size - mid - 2
    ensures var r := RightHalf(w, mid);
      && r.kids[i] == w.kids[mid + 1 + i]
      && Lower(r, i) == Lower(w, mid + 1 + i)
      && Upper(r, i) == Upper(w, mid + 1 + i)
  {
  }

  /** The two halves route every key of the old fence as the overfull node did, keys below the
      middle separator through the left half and the others through the right half. */
  lemma SplitPreservesRouting(size: nat, maxKey: Key, w: Node, mid: nat, k: Key)
    requires Splittable(size, maxKey, w, mid) && w.Covers(k)
    ensures LeftHalf(w, mid).Covers(k) <==> k < w.keys[mid]
    ensures RightHalf(w, mid).Covers(k) <==> w.keys[mid] <= k
    ensures Child(w, k) == if k < w.keys[mid] then Child(LeftHalf(w, mid), k) else Child(RightHalf(w, mid), k)
  {
    if k < w.keys[mid] {
      LeftRoute(size, maxKey, w, mid, k);
    } else {
      RightRoute(size, maxKey, w, mid, k);
    }
  }

  lemma LeftRoute(size: nat, maxKey: Key, w: Node, mid: nat, k: Key)
    requires Splittable(size, maxKey, w, mid) && w.Covers(k) && k < w.keys[mid]
    ensures Child(w, k) == Child(LeftHalf(w, mid), k)
  {
    var i := Route(w, k);
    assert i <= mid;
    RouteBounds(size, maxKey, w, k);
    HalvesShape(size, maxKey, w, mid);
    LeftParts(size, maxKey, w, mid, i);
    hide RoomyShape, Route, RightHalf;
    RouteUnique(size - 1, maxKey, LeftHalf(w, mid), k, i);
  }

  lemma RightRoute(size: nat, maxKey: Key, w: Node, mid: nat, k: Key)
    requires Splittable(size, maxKey, w, mid) && w.Covers(k) && w.keys[mid] <= k
    ensures Child(w, k) == Child(RightHalf(w, mid), k)
  {
    var i := Route(w, k);
    assert mid < i by {
      assert forall j :: i < j < w.last ==> w.keys[i] < w.keys[j];
    }
    RouteBounds(size, maxKey, w, k);
    HalvesShape(size, maxKey, w, mid);
    RightParts(size, maxKey, w, mid, i - mid - 1);
    hide RoomyShape, Route, LeftHalf;
    RouteUnique(size - 1, maxKey, RightHalf(w, mid), k, i - mid - 1);
  }

  // ---- The loops ----------------------------------------------------------------------------

  /** The duplicate test, from the last slot down: it looks at the leftover key too. */
  method FindSeparator(keys: seq<Key>, last: nat, key: Key) returns (found: bool)
    requires last < |keys|
    ensures found <==> key in keys[..last + 1]
  {
    found := false;
    var i := last + 1;
    while i > 0
      invariant 0 <= i <= last + 1
      invariant key !in keys[i..last + 1]
    {
      i := i - 1;
      if keys[i] == key {
        assert keys[..last + 1][i] == key;
        return true;
      }
    }
  }

  lemma {:induction false} RouteIs(keys: seq<Key>, last: nat, k: Key, i: nat, r: nat)
    requires i <= r <= last <= |keys|
    requires forall j :: i <= j < r ==> keys[j] <= k
    requires r < last ==> k < keys[r]
    ensures RouteFrom(keys, last, k, i) == r
    decreases last - i
  {
    if i < r {
      RouteIs(keys, last, k, i + 1, r);
    }
  }

  /** The search for the insertion index, from the last separator down. */
  method FindIndex(keys: seq<Key>, last: nat, key: Key) returns (index: nat)
    requires last <= |keys| && Ascending(keys, last) && key !in keys[..last]
    ensures index == RouteFrom(keys, last, key, 0)
  {
    index := 0;
    var i := last;
    while i > 0
      invariant 0 <= i <= last && index == 0
      invariant forall j :: i <= j < last ==> key < keys[j]
    {
      i := i - 1;
      assert keys[i] in keys[..last];
      if keys[i] < key {
        index := i + 1;
        assert forall j :: 0 <= j < i ==> keys[j] < keys[i];
        break;
      }
    }
    RouteIs(keys, last, key, 0, index);
  }

  /** Shifts keys from `index` on and the children after it one slot to the right. */
  method ShiftRight(keys: array<Key>, kids: array<Addr>, last: nat, index: nat)
    requires keys.Length == kids.Length && last + 1 < keys.Length && index <= last && keys != kids
    modifies keys, kids
    ensures forall j :: 0 <= j < index || last < j < keys.Length ==> keys[j] == old(keys[j])
    ensures forall j :: index < j <= last ==> keys[j] == old(keys[j - 1])
    ensures forall j :: 0 <= j <= index || last + 1 < j < keys.Length ==> kids[j] == old(kids[j])
    ensures forall j :: index + 1 < j <= last + 1 ==> kids[j] == old(kids[j - 1])
  {
    var i := last + 1;
    while i > index
      invariant index <= i <= last + 1
      invariant forall j :: 0 <= j < i || last < j < keys.Length ==> keys[j] == old(keys[j])
      invariant forall j :: i <= j <= last && index < j ==> keys[j] == old(keys[j - 1])
      invariant forall j :: (0 <= j <= i && j <= last) || last + 1 < j < keys.Length ==> kids[j] == old(kids[j])
      invariant forall j :: i < j <= last + 1 ==> kids[j] == old(kids[j - 1])
    {
      if i > index + 1 {
        keys[i - 1] := keys[i - 2];
      }
      kids[i] := kids[i - 1];
      i := i - 1;
    }
  }

  /** Shifts keys and children right and puts the new pair in place, in the arrays. */
  method EnterEntry(keys: array<Key>, kids: array<Addr>, last: nat, index: nat, key: Key, child: Addr)
    requires keys.Length == kids.Length && last + 1 < keys.Length && index <= last
    requires keys != kids
    modifies keys, kids
    ensures keys[..] == KeysWith(old(keys[..]), last, index, key)
    ensures kids[..] == KidsWith(old(kids[..]), last, index, child)
  {
    ShiftRight(keys, kids, last, index);
    kids[index + 1] := child;
    keys[index] := key;
    KeysWithIs(old(keys[..]), keys[..], last, index, key);
    KidsWithIs(old(kids[..]), kids[..], last, index, child);
  }

  lemma KeysWithIs(s: seq<Key>, t: seq<Key>, last: nat, index: nat, key: Key)
    requires index <= last < |s| == |t| && t[index] == key
    requires forall j :: 0 <= j < index ==> t[j] == s[j]
    requires forall j :: index < j <= last ==> t[j] == s[j - 1]
    requires forall j :: last < j < |s| ==> t[j] == s[j]
    ensures t == KeysWith(s, last, index, key)
  {
  }

  lemma KidsWithIs(s: seq<Addr>, t: seq<Addr>, last: nat, index: nat, child: Addr)
    requires index <= last && last + 1 < |s| == |t| && t[index + 1] == child
    requires forall j :: 0 <= j <= index ==> t[j] == s[j]
    requires forall j :: index + 1 < j <= last + 1 ==> t[j] == s[j - 1]
    requires forall j :: last + 1 < j < |s| ==> t[j] == s[j]
    ensures t == KidsWith(s, last, index, child)
  {
  }
}
