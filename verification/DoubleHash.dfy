/** The open-addressing hash tables of dpkg.c: double hashing modulo a prime visits
    every slot, so interning a name finds it or a free slot. */
module DoubleHash {
  import opened Bits
  import opened CStrings
  import opened Primes

  // ---- Steps of any size visit every slot ----

  /** The k-th address probed. */
  function Probe(p: nat, start: nat, step: nat, k: nat): (a: nat)
    requires start < p && step < p
    ensures a < p
  {
    if k == 0 then start
    else
      var b := Probe(p, start, step, k - 1);
      if b >= step then b - step else b + p - step
  }

  lemma {:induction false} ProbeIs(p: nat, start: nat, step: nat, k: nat)
    requires start < p && step < p
    ensures (Probe(p, start, step, k) + k * step) % p == start
  {
    if k > 0 {
      ProbeIs(p, start, step, k - 1);
      ProbeBack(p, step, Probe(p, start, step, k - 1), (k - 1) * step);
      assert k * step == (k - 1) * step + step;
    } else {
      assert k * step == 0;
    }
  }

  /** Going back by step after `gone` keeps the sum modulo p. */
  lemma ProbeBack(p: nat, step: nat, b: nat, gone: nat)
    requires b < p && step < p
    ensures ((if b >= step then b - step else b + p - step) + gone + step) % p == (b + gone) % p
  {
    if b < step { AddModulus(p, b + gone); }
  }

  lemma AddModulus(p: nat, x: nat)
    requires p > 0
    ensures (x + p) % p == x % p
  {
    var q := x / p;
    ModUnique(p, q + 1, x % p, x + p);
  }

  /** No address is probed twice in the first p probes. */
  lemma ProbesDiffer(p: nat, start: nat, step: nat, i: nat, j: nat)
    requires Prime(p) && start < p && 0 < step < p && i < j < p
    ensures Probe(p, start, step, i) != Probe(p, start, step, j)
  {
    if Probe(p, start, step, i) == Probe(p, start, step, j) {
      var a := Probe(p, start, step, i);
      ProbeIs(p, start, step, i);
      ProbeIs(p, start, step, j);
      SameRemainder(p, a + i * step, a + j * step);
      assert (a + j * step) - (a + i * step) == (j - i) * step;
      NoMultiple(p, step, j - i);
    }
  }

  lemma SameRemainder(p: nat, x: nat, y: nat)
    requires p > 0 && x % p == y % p && x <= y
    ensures (y - x) % p == 0
  {
    var a, b := x / p, y / p;
    assert y - x == (b - a) * p;
    MultipleOf(p, b - a);
  }

  /** The addresses probed in the first n probes. */
  ghost function Visited(p: nat, start: nat, step: nat, n: nat): (v: set<nat>)
    requires start < p && step < p
    ensures forall k :: 0 <= k < n ==> Probe(p, start, step, k) in v
    ensures forall a :: a in v ==> a < p
  {
    if n == 0 then {} else Visited(p, start, step, n - 1) + {Probe(p, start, step, n - 1)}
  }

  lemma {:induction false} VisitedAt(p: nat, start: nat, step: nat, n: nat, a: nat) returns (k: nat)
    requires start < p && step < p && a in Visited(p, start, step, n)
    ensures k < n && Probe(p, start, step, k) == a
    decreases n
  {
    if a == Probe(p, start, step, n - 1) { k := n - 1; } else { k := VisitedAt(p, start, step, n - 1, a); }
  }

  lemma {:induction false} VisitedSize(p: nat, start: nat, step: nat, n: nat)
    requires Prime(p) && start < p && 0 < step < p && n <= p
    ensures |Visited(p, start, step, n)| == n
    decreases n
  {
    if n > 0 {
      VisitedSize(p, start, step, n - 1);
      var a := Probe(p, start, step, n - 1);
      if a in Visited(p, start, step, n - 1) {
        var k := VisitedAt(p, start, step, n - 1, a);
        ProbesDiffer(p, start, step, k, n - 1);
      }
    }
  }

  ghost function Below(n: nat): (s: set<nat>)
    ensures forall x: nat :: x in s <==> x < n
    ensures |s| == n
  {
    if n == 0 then {} else Below(n - 1) + {n - 1}
  }

  lemma {:induction false} SubsetSize<T>(a: set<T>, b: set<T>)
    requires a <= b && |a| == |b|
    ensures a == b
    decreases |a|
  {
    if a != {} {
      var x :| x in a;
      SubsetSize(a - {x}, b - {x});
      assert a == (a - {x}) + {x} && b == (b - {x}) + {x};
    }
  }

  /** The first p probes visit every slot. */
  lemma EverySlot(p: nat, start: nat, step: nat, a: nat) returns (k: nat)
    requires Prime(p) && start < p && 0 < step < p && a < p
    ensures k < p && Probe(p, start, step, k) == a
  {
    VisitedSize(p, start, step, p);
    SubsetSize(Visited(p, start, step, p), Below(p));
    k := VisitedAt(p, start, step, p, a);
  }

  // ---- The three primes ----

  const NAME_HASH_PRIME: nat := 16381
  const PACKAGE_HASH_PRIME: nat := 10007
  const STATUS_HASH_PRIME: nat := 8191

  lemma NamePrime()
    ensures Prime(NAME_HASH_PRIME)
  {
    assert NoDivisor(16381, 10);
    assert NoDivisor(16381, 20);
    assert NoDivisor(16381, 30);
    assert NoDivisor(16381, 40);
    assert NoDivisor(16381, 50);
    assert NoDivisor(16381, 60);
    assert NoDivisor(16381, 70);
    assert NoDivisor(16381, 80);
    assert NoDivisor(16381, 90);
    assert NoDivisor(16381, 100);
    assert NoDivisor(16381, 110);
    assert NoDivisor(16381, 120);
    assert NoDivisor(16381, 127);
    PrimeBelowSquare(16381, 127);
  }

  lemma PackagePrime()
    ensures Prime(PACKAGE_HASH_PRIME)
  {
    assert NoDivisor(10007, 10);
    assert NoDivisor(10007, 20);
    assert NoDivisor(10007, 30);
    assert NoDivisor(10007, 40);
    assert NoDivisor(10007, 50);
    assert NoDivisor(10007, 60);
    assert NoDivisor(10007, 70);
    assert NoDivisor(10007, 80);
    assert NoDivisor(10007, 90);
    assert NoDivisor(10007, 100);
    PrimeBelowSquare(10007, 100);
  }

  lemma StatusPrime()
    ensures Prime(STATUS_HASH_PRIME)
  {
    assert NoDivisor(8191, 10);
    assert NoDivisor(8191, 20);
    assert NoDivisor(8191, 30);
    assert NoDivisor(8191, 40);
    assert NoDivisor(8191, 50);
    assert NoDivisor(8191, 60);
    assert NoDivisor(8191, 70);
    assert NoDivisor(8191, 80);
    assert NoDivisor(8191, 90);
    PrimeBelowSquare(8191, 90);
  }

  // ---- make_hash ----

  function Pow64(): (p: nat) { 0x1_0000_0000_0000_0000 }

  function Wrap(x: nat): (r: nat)
    ensures r < Pow64()
  {
    x % Pow64()
  }

  /** The i-th character c, added to the one before it and shifted. */
  function HashStep(h: nat, c: nat, before: nat, i: nat): (r: nat)
    ensures r < Pow64()
  {
    Wrap(h + Shl(c + before, c * i % 24))
  }

  lemma StepIs(h: nat, c: nat, before: nat, i: nat)
    ensures HashStep(h, c, before, i) == Wrap(h + Shl(c + before, c * i % 24))
  {
    hide Shl, Wrap;
  }

  /** The running hash of make_hash over the characters before i: a 64-bit sum of
      shifted character pairs. */
  function HashNum(key: CString, i: nat): (h: nat)
    requires 1 <= i <= |key|
    ensures h < Pow64()
  {
    if i == 1 then Wrap(key[0] as int) else HashStep(HashNum(key, i - 1), key[i - 1] as int, key[i - 2] as int, i - 1)
  }

  /** First address and decrement for a key in a table of p slots.  The empty key hashes
      its terminating NUL. */
  method MakeHash(key: CString, p: nat) returns (start: nat, step: nat)
    requires p >= 3
    ensures start == Start(key, p) && step == Decrement(key, p)
  {
    hide HashStep, Shl, Wrap;
    var h := if key == [] then 0 else Wrap(key[0] as int);
    var i := 1;
    while i < |key|
      invariant 1 <= i && (key != [] ==> i <= |key| && h == HashNum(key, i)) && (key == [] ==> h == 0)
    {
      var c, before := key[i] as int, key[i - 1] as int;
      StepIs(h, c, before, i);
      h := Wrap(h + Shl(c + before, c * i % 24));
      i := i + 1;
    }
    start := h % 0x1_0000_0000 % p;
    step := 1 + h % (p - 1);
  }

  function Hashed(key: CString): (h: nat)
  {
    if key == [] then 0 else HashNum(key, |key|)
  }

  function Start(key: CString, p: nat): (a: nat)
    requires p >= 3
    ensures a < p
  {
    Hashed(key) % 0x1_0000_0000 % p
  }

  function Decrement(key: CString, p: nat): (s: nat)
    requires p >= 3
    ensures 0 < s < p
  {
    1 + Hashed(key) % (p - 1)
  }

  // ---- Searching ----

  /** The slot probed for key after k others. */
  function At(key: CString, p: nat, k: nat): (a: nat)
    requires p >= 3
    ensures a < p
  {
    Probe(p, Start(key, p), Decrement(key, p), k)
  }

  /** A search goes past the first k slots probed for key. */
  ghost predicate GoesPast(p: nat, key: CString, stop: nat -> bool, k: nat)
    requires p >= 3
  {
    forall j {:trigger At(key, p, j)} :: 0 <= j < k ==> !stop(At(key, p, j))
  }

  /** A search for key that stops at the first slot with `stop` ends at a. */
  ghost predicate Ends(p: nat, key: CString, stop: nat -> bool, a: nat, k: nat)
  {
    p >= 3 && At(key, p, k) == a && stop(a) && GoesPast(p, key, stop, k)
  }

  /** It ends at one slot only. */
  lemma EndsOnce(p: nat, key: CString, stop: nat -> bool, a: nat, j: nat, b: nat, k: nat)
    requires Ends(p, key, stop, a, j) && Ends(p, key, stop, b, k)
    ensures a == b
  {
    assert stop(At(key, p, j)) && stop(At(key, p, k));
  }

  /** It ends at the first slot it can stop at. */
  lemma EndsFirst(p: nat, key: CString, stop: nat -> bool, a: nat, j: nat, b: nat, k: nat)
    requires Ends(p, key, stop, a, j) && p >= 3 && At(key, p, k) == b && stop(b)
    ensures j <= k
  {
    assert At(key, p, k) == b;
  }

  // ---- Interning ----

  type Slots = seq<Option<CString>>

  /** A search for a name stops at a free slot and at the name. */
  ghost function NameStop(t: Slots, key: CString): nat -> bool
  {
    (a: nat) => a < |t| ==> t[a].None? || t[a] == Some(key)
  }

  ghost predicate Found(t: Slots, a: nat)
    requires a < |t| && t[a].Some?
  {
    exists k: nat :: Ends(|t|, t[a].value, NameStop(t, t[a].value), a, k)
  }

  /** Every name is where a search for it ends. */
  ghost predicate Placed(t: Slots)
  {
    |t| >= 3 && forall a {:trigger t[a]} :: 0 <= a < |t| && t[a].Some? ==> Found(t, a)
  }

  /** A name is in one slot only. */
  lemma OneSlot(t: Slots, a: nat, b: nat)
    requires Placed(t) && a < |t| && b < |t| && t[a].Some? && t[a] == t[b]
    ensures a == b
  {
    assert Found(t, a) && Found(t, b);
    var key := t[a].value;
    var j: nat :| Ends(|t|, key, NameStop(t, key), a, j);
    var k: nat :| Ends(|t|, key, NameStop(t, key), b, k);
    EndsOnce(|t|, key, NameStop(t, key), a, j, b, k);
  }

  /** A name interned before is found again, and no other name is. */
  lemma Again(t: Slots, a: nat, key: CString, b: nat, k: nat, key': CString)
    requires Placed(t) && a < |t| && t[a] == Some(key) && b < |t| && Ends(|t|, key', NameStop(t, key'), b, k)
    ensures a == b <==> key == key'
  {
    if key == key' {
      assert Found(t, a);
      var j: nat :| Ends(|t|, key, NameStop(t, key), a, j);
      EndsOnce(|t|, key, NameStop(t, key), a, j, b, k);
    }
  }

  /** Putting a name in a free slot, or where it is, keeps the slots a search goes past. */
  lemma InternPast(t: Slots, key: CString, a: nat, t': Slots, name: CString, k: nat)
    requires |t| >= 3 && a < |t| && (t[a].None? || t[a] == Some(key)) && t' == t[a := Some(key)]
    requires GoesPast(|t|, name, NameStop(t, name), k)
    ensures GoesPast(|t|, name, NameStop(t', name), k)
  {
    forall j | 0 <= j < k ensures !NameStop(t', name)(At(name, |t|, j)) {
      assert !NameStop(t, name)(At(name, |t|, j));
    }
  }

  /** Putting the name where its search ended keeps every name where its search ends. */
  lemma InternKeeps(t: Slots, key: CString, a: nat, k: nat, t': Slots)
    requires Placed(t) && a < |t| && Ends(|t|, key, NameStop(t, key), a, k) && t' == t[a := Some(key)]
    ensures Placed(t')
  {
    forall b {:trigger t'[b]} | 0 <= b < |t'| && t'[b].Some? ensures Found(t', b) {
      if b == a {
        InternPast(t, key, a, t', key, k);
        assert Ends(|t'|, key, NameStop(t', key), a, k);
      } else {
        assert t[b].Some? && Found(t, b);
        var name := t[b].value;
        var j: nat :| Ends(|t|, name, NameStop(t, name), b, j);
        InternPast(t, key, a, t', name, j);
        assert Ends(|t'|, name, NameStop(t', name), b, j);
      }
    }
  }

  // ---- Room ----

  /** Free slots among the first n. */
  function Free(t: Slots, n: nat): (c: nat)
    requires n <= |t|
  {
    if n == 0 then 0 else Free(t, n - 1) + if t[n - 1].None? then 1 else 0
  }

  lemma {:induction false} SomeFree(t: Slots, n: nat) returns (a: nat)
    requires n <= |t| && Free(t, n) > 0
    ensures a < n && t[a].None?
  {
    if t[n - 1].None? { a := n - 1; } else { a := SomeFree(t, n - 1); }
  }

  lemma {:induction false} FreeAfter(t: Slots, a: nat, v: CString, n: nat)
    requires n <= |t| && a < |t|
    ensures Free(t[a := Some(v)], n) == Free(t, n) - if a < n && t[a].None? then 1 else 0
  {
    if n > 0 { FreeAfter(t, a, v, n - 1); }
  }

  lemma {:induction false} AllFree(t: Slots, n: nat)
    requires n <= |t| && forall a :: 0 <= a < |t| ==> t[a].None?
    ensures Free(t, n) == n
  {
    if n > 0 { AllFree(t, n - 1); }
  }

  /** The names of w that the table does not hold yet. */
  ghost function Missing(t: Slots, w: set<CString>): (m: set<CString>)
    ensures m <= w
  {
    set k | k in w && Some(k) !in t
  }

  /** There is room for all of w. */
  ghost predicate Room(t: Slots, w: set<CString>)
  {
    Free(t, |t|) >= |Missing(t, w)|
  }

  /** Every name keeps its slot. */
  ghost predicate Grew(t: Slots, t': Slots)
  {
    |t| == |t'| && forall b {:trigger t'[b]} :: 0 <= b < |t| && t[b].Some? ==> t'[b] == t[b]
  }

  /** The key is there, or there is room for it. */
  ghost predicate CanIntern(t: Slots, key: CString)
  {
    Some(key) in t || Free(t, |t|) > 0
  }

  /** Interning a name of w leaves room for the rest of w. */
  lemma RoomAfter(t: Slots, w: set<CString>, key: CString, a: nat, t': Slots)
    requires Room(t, w) && key in w && a < |t| && t' == t[a := Some(key)]
    requires t[a] == Some(key) || (t[a].None? && Some(key) !in t)
    ensures Room(t', w)
  {
    FreeAfter(t, a, key, |t|);
    assert t'[a] == Some(key);
    assert forall b :: 0 <= b < |t| && b != a ==> t'[b] == t[b];
    if t[a].None? {
      assert Missing(t', w) <= Missing(t, w) - {key};
      Subset(Missing(t', w), Missing(t, w) - {key});
    } else {
      assert t' == t;
    }
  }

  lemma Subset(a: set<CString>, b: set<CString>)
    requires a <= b
    ensures |a| <= |b|
  {
    assert b == a + (b - a);
  }

  lemma GrewTwice(t: Slots, u: Slots, v: Slots)
    requires Grew(t, u) && Grew(u, v)
    ensures Grew(t, v)
  {
    assert forall b :: 0 <= b < |t| && t[b].Some? ==> u[b] == t[b];
  }

  class NameTable {
    var slots: Slots

    ghost predicate Valid()
      reads this
    {
      |slots| == NAME_HASH_PRIME && Placed(slots)
    }

    constructor ()
      ensures Valid() && slots == seq(NAME_HASH_PRIME, _ => None) && Free(slots, |slots|) == NAME_HASH_PRIME
    {
      slots := seq(NAME_HASH_PRIME, _ => None);
      new;
      AllFree(slots, NAME_HASH_PRIME);
    }

    /** The probe loop: it ends because the step is not 0 and the table size is prime. */
    method Search(key: CString, ghost goal: nat) returns (a: nat, ghost k: nat)
      requires |slots| == NAME_HASH_PRIME && goal < |slots| && NameStop(slots, key)(goal)
      ensures a < |slots| && Ends(|slots|, key, NameStop(slots, key), a, k)
    {
      ghost var p := |slots|;
      NamePrime();
      var addr, step := MakeHash(key, NAME_HASH_PRIME);
      ghost var last := EverySlot(p, addr, step, goal);
      k := 0;
      while slots[addr].Some?
        invariant addr == At(key, p, k) && k <= last && GoesPast(p, key, NameStop(slots, key), k)
        decreases last - k
      {
        if slots[addr].value == key {
          return addr, k;
        }
        addr := if addr >= step then addr - step else addr + NAME_HASH_PRIME - step;
        k := k + 1;
      }
      a := addr;
    }

    /** A slot where the search for key stops. */
    ghost method Goal(key: CString) returns (goal: nat)
      requires CanIntern(slots, key)
      ensures goal < |slots| && NameStop(slots, key)(goal)
    {
      if Some(key) in slots {
        goal :| 0 <= goal < |slots| && slots[goal] == Some(key);
      } else {
        goal := SomeFree(slots, |slots|);
      }
    }

    /** search_name_hashtable: the index of key, which is entered if it is new. */
    method Intern(key: CString) returns (a: nat)
      requires Valid() && CanIntern(slots, key)
      modifies this
      ensures Valid() && a < |slots| && slots == old(slots)[a := Some(key)]
      ensures if Some(key) in old(slots) then old(slots)[a] == Some(key) else old(slots)[a].None?
      ensures forall b, name :: 0 <= b < |slots| && old(slots)[b] == Some(name) ==> (a == b <==> name == key)
      ensures Grew(old(slots), slots)
    {
      ghost var t, k := slots, 0;
      ghost var goal := Goal(key);
      a, k := Search(key, goal);
      forall b, name | 0 <= b < |t| && t[b] == Some(name) ensures a == b <==> name == key {
        Again(t, b, name, a, k, key);
      }
      slots := slots[a := Some(key)];
      InternKeeps(t, key, a, k, slots);
    }

    /** A name of a set that there is room for. */
    method InternIn(key: CString, ghost w: set<CString>) returns (a: nat)
      requires Valid() && Room(slots, w) && key in w
      modifies this
      ensures Valid() && Room(slots, w) && Grew(old(slots), slots) && a < |slots| && slots[a] == Some(key)
    {
      ghost var t := slots;
      if Some(key) !in slots {
        assert key in Missing(slots, w);
      }
      a := Intern(key);
      RoomAfter(t, w, key, a, slots);
    }

    /** Over any run of calls that there is room for, however often names repeat, indices
        are equal exactly when the names are, and every index keeps its name. */
    method InternAll(keys: seq<CString>) returns (idx: seq<nat>)
      requires Valid() && Room(slots, set k | k in keys)
      modifies this
      ensures Valid() && |idx| == |keys| && forall i :: 0 <= i < |keys| ==> idx[i] < |slots|
                                                                            && slots[idx[i]] == Some(keys[i])
      ensures forall i, j :: 0 <= i < |keys| && 0 <= j < |keys| ==> (idx[i] == idx[j] <==> keys[i] == keys[j])
      ensures Grew(old(slots), slots)
    {
      ghost var w := set k | k in keys;
      idx := [];
      var n := 0;
      while n < |keys|
        invariant 0 <= n == |idx| <= |keys| && Valid() && Room(slots, w) && Grew(old(slots), slots)
        invariant forall i :: 0 <= i < n ==> idx[i] < |slots| && slots[idx[i]] == Some(keys[i])
      {
        var a := InternIn(keys[n], w);
        idx := idx + [a];
        n := n + 1;
      }
      forall i, j | 0 <= i < |keys| && 0 <= j < |keys| && keys[i] == keys[j] ensures idx[i] == idx[j] {
        OneSlot(slots, idx[i], idx[j]);
      }
    }
  }
}
