/** Specification functions for the loops of demo/demo.c: which contacts
    `generateCollisions` records, and in which order the step applies the impulse
    and correction routines to pairs of bodies. */
module Collisions {
  import opened Vec
  import opened DemoTypes

  // ---------------------------------------------------------------------------
  // Pair generation (generateCollisions)
  // ---------------------------------------------------------------------------

  /** The pair `(bi, bj)` is skipped without asking the collision routine: both have
      zero mass, or both have a velocity the engine calls near zero. */
  predicate Pruned(bi: Body, bj: Body, e: Engine) {
    (bi.mass == 0.0 && bj.mass == 0.0) || (e.nearZero(bi.velocity) && e.nearZero(bj.velocity))
  }

  /** The scan of pairs from position `(i, j)` of the nested loops on, with `acc` the
      manifolds recorded so far and `room` the free slots on entry: stops once `room`
      manifolds are recorded, skips pruned pairs, records `(i, j)` when the collision
      routine reports a contact. */
  function Scan(bs: seq<Body>, n: int, i: int, j: int, acc: seq<KeysManifold>, room: int, e: Engine)
    : seq<KeysManifold>
    requires 0 <= i < j && n <= |bs|
    decreases n - i, n - j
  {
    if |acc| >= room || i >= n then acc
    else if j >= n then Scan(bs, n, i + 1, i + 2, acc, room, e)
    else if Pruned(bs[i], bs[j], e) then Scan(bs, n, i, j + 1, acc, room, e)
    else match e.solveCollision(bs[i], bs[j])
      case None => Scan(bs, n, i, j + 1, acc, room, e)
      case Some(m) => Scan(bs, n, i, j + 1, acc + [KeysManifold(i, j, m)], room, e)
  }

  /** The manifolds one call of `generateCollisions` appends, for the first `n` bodies
      of `bs` and `room` free manifold slots. */
  function Generate(bs: seq<Body>, n: int, room: int, e: Engine): seq<KeysManifold>
    requires n <= |bs|
  {
    Scan(bs, n, 0, 1, [], room, e)
  }

  /** Lexicographic order on index pairs, the order of the nested loops. */
  predicate LexLt(i: int, j: int, p: int, q: int) {
    i < p || (i == p && j < q)
  }

  /** `km` is a contact the scan may record: keys `0 <= aKey < bKey < n`, the pair is
      not pruned, and the collision routine reports `km.manifold` for it. */
  predicate Recordable(bs: seq<Body>, n: int, e: Engine, km: KeysManifold)
    requires n <= |bs|
  {
    && 0 <= km.aKey < km.bKey < n
    && !Pruned(bs[km.aKey], bs[km.bKey], e)
    && e.solveCollision(bs[km.aKey], bs[km.bKey]) == Some(km.manifold)
  }

  /** Some element of `ms` from index `from` on has keys `(p, q)`. */
  predicate Records(ms: seq<KeysManifold>, from: int, p: int, q: int) {
    exists k :: from <= k < |ms| && 0 <= k && ms[k].aKey == p && ms[k].bKey == q
  }

  /** A scan keeps what was recorded before it, and adds nothing once `room` is full. */
  lemma {:induction false} ScanExtends(bs: seq<Body>, n: int, i: int, j: int, acc: seq<KeysManifold>, room: int, e: Engine)
    requires 0 <= i < j && n <= |bs|
    ensures var r := Scan(bs, n, i, j, acc, room, e);
      |acc| <= |r| && r[..|acc|] == acc && (|acc| <= room ==> |r| <= room)
    decreases n - i, n - j
  {
    if |acc| >= room || i >= n {
    } else if j >= n {
      ScanExtends(bs, n, i + 1, i + 2, acc, room, e);
    } else if Pruned(bs[i], bs[j], e) {
      ScanExtends(bs, n, i, j + 1, acc, room, e);
    } else {
      match e.solveCollision(bs[i], bs[j])
      case None => ScanExtends(bs, n, i, j + 1, acc, room, e);
      case Some(m) =>
        var acc' := acc + [KeysManifold(i, j, m)];
        ScanExtends(bs, n, i, j + 1, acc', room, e);
        var r := Scan(bs, n, i, j + 1, acc', room, e);
        assert r[..|acc|] == r[..|acc'|][..|acc|];
    }
  }

  /** Every element of `r` from index `lo` on is recordable and not before `(i, j)`
      in loop order. */
  predicate RecordableFrom(bs: seq<Body>, n: int, e: Engine, r: seq<KeysManifold>, lo: int, i: int, j: int)
    requires n <= |bs|
  {
    forall k :: lo <= k < |r| && 0 <= k ==> Recordable(bs, n, e, r[k]) && !LexLt(r[k].aKey, r[k].bKey, i, j)
  }

  /** The keys of `r` from index `lo` on strictly increase in loop order. */
  predicate SortedFrom(r: seq<KeysManifold>, lo: int) {
    forall k1, k2 :: lo <= k1 < k2 < |r| && 0 <= k1 ==> LexLt(r[k1].aKey, r[k1].bKey, r[k2].aKey, r[k2].bKey)
  }

  /** Everything a scan from `(i, j)` adds is recordable and comes at or after `(i, j)`. */
  lemma {:induction false} ScanRecordable(bs: seq<Body>, n: int, i: int, j: int, acc: seq<KeysManifold>, room: int, e: Engine)
    requires 0 <= i < j && n <= |bs|
    ensures RecordableFrom(bs, n, e, Scan(bs, n, i, j, acc, room, e), |acc|, i, j)
    decreases n - i, n - j
  {
    if |acc| >= room || i >= n {
    } else if j >= n {
      ScanRecordable(bs, n, i + 1, i + 2, acc, room, e);
    } else if Pruned(bs[i], bs[j], e) {
      ScanRecordable(bs, n, i, j + 1, acc, room, e);
    } else {
      match e.solveCollision(bs[i], bs[j])
      case None => ScanRecordable(bs, n, i, j + 1, acc, room, e);
      case Some(m) =>
        var km := KeysManifold(i, j, m);
        var acc' := acc + [km];
        ScanRecordable(bs, n, i, j + 1, acc', room, e);
        ScanExtends(bs, n, i, j + 1, acc', room, e);
        var r := Scan(bs, n, i, j + 1, acc', room, e);
        assert r[|acc|] == km by { assert r[..|acc'|] == acc'; }
        assert Recordable(bs, n, e, km);
    }
  }

  /** The keys a scan adds strictly increase in loop order. */
  lemma {:induction false} ScanSorted(bs: seq<Body>, n: int, i: int, j: int, acc: seq<KeysManifold>, room: int, e: Engine)
    requires 0 <= i < j && n <= |bs|
    ensures SortedFrom(Scan(bs, n, i, j, acc, room, e), |acc|)
    decreases n - i, n - j
  {
    if |acc| >= room || i >= n {
    } else if j >= n {
      ScanSorted(bs, n, i + 1, i + 2, acc, room, e);
    } else if Pruned(bs[i], bs[j], e) {
      ScanSorted(bs, n, i, j + 1, acc, room, e);
    } else {
      match e.solveCollision(bs[i], bs[j])
      case None => ScanSorted(bs, n, i, j + 1, acc, room, e);
      case Some(m) =>
        var km := KeysManifold(i, j, m);
        var acc' := acc + [km];
        ScanSorted(bs, n, i, j + 1, acc', room, e);
        ScanRecordable(bs, n, i, j + 1, acc', room, e);
        ScanExtends(bs, n, i, j + 1, acc', room, e);
        var r := Scan(bs, n, i, j + 1, acc', room, e);
        assert r[|acc|] == km by { assert r[..|acc'|] == acc'; }
        forall k2 | |acc| < k2 < |r|
          ensures LexLt(i, j, r[k2].aKey, r[k2].bKey)
        {
          assert !LexLt(r[k2].aKey, r[k2].bKey, i, j + 1);
        }
    }
  }

  /** A scan that ends below `room` records every recordable pair at or after `(i, j)`. */
  lemma {:induction false} ScanComplete(bs: seq<Body>, n: int, i: int, j: int, acc: seq<KeysManifold>, room: int, e: Engine,
                                        p: int, q: int)
    requires 0 <= i < j && n <= |bs|
    requires 0 <= p < q < n && !LexLt(p, q, i, j)
    requires !Pruned(bs[p], bs[q], e) && e.solveCollision(bs[p], bs[q]).Some?
    requires |Scan(bs, n, i, j, acc, room, e)| < room
    ensures Records(Scan(bs, n, i, j, acc, room, e), |acc|, p, q)
    decreases n - i, n - j
  {
    ScanExtends(bs, n, i, j, acc, room, e);
    if |acc| >= room || i >= n {
      assert false;
    } else if j >= n {
      ScanComplete(bs, n, i + 1, i + 2, acc, room, e, p, q);
    } else if Pruned(bs[i], bs[j], e) {
      ScanComplete(bs, n, i, j + 1, acc, room, e, p, q);
    } else {
      match e.solveCollision(bs[i], bs[j])
      case None => ScanComplete(bs, n, i, j + 1, acc, room, e, p, q);
      case Some(m) =>
        var acc' := acc + [KeysManifold(i, j, m)];
        var r := Scan(bs, n, i, j + 1, acc', room, e);
        ScanExtends(bs, n, i, j + 1, acc', room, e);
        if p == i && q == j {
          assert r[|acc|] == acc'[|acc|] by { assert r[..|acc'|] == acc'; }
        } else {
          ScanComplete(bs, n, i, j + 1, acc', room, e, p, q);
        }
    }
  }

  /** Every generated manifold is recordable, and the keys strictly increase in loop
      order, so each pair appears at most once; at most `room` are generated. */
  lemma GenerateSound(bs: seq<Body>, n: int, room: int, e: Engine)
    requires n <= |bs|
    ensures room >= 0 ==> |Generate(bs, n, room, e)| <= room
    ensures forall k :: 0 <= k < |Generate(bs, n, room, e)| ==> Recordable(bs, n, e, Generate(bs, n, room, e)[k])
    ensures forall k1, k2 :: 0 <= k1 < k2 < |Generate(bs, n, room, e)| ==>
      LexLt(Generate(bs, n, room, e)[k1].aKey, Generate(bs, n, room, e)[k1].bKey,
            Generate(bs, n, room, e)[k2].aKey, Generate(bs, n, room, e)[k2].bKey)
  {
    ScanExtends(bs, n, 0, 1, [], room, e);
    ScanRecordable(bs, n, 0, 1, [], room, e);
    ScanSorted(bs, n, 0, 1, [], room, e);
  }

  /** Below the capacity cut-off, every unpruned pair the collision routine reports
      is generated. */
  lemma GenerateComplete(bs: seq<Body>, n: int, room: int, e: Engine, p: int, q: int)
    requires n <= |bs|
    requires 0 <= p < q < n && !Pruned(bs[p], bs[q], e) && e.solveCollision(bs[p], bs[q]).Some?
    requires |Generate(bs, n, room, e)| < room
    ensures Records(Generate(bs, n, room, e), 0, p, q)
  {
    ScanComplete(bs, n, 0, 1, [], room, e, p, q);
  }

  /** The number of loop positions `(i, j)`, `(i, j + 1)`, ... the nested loops still
      visit from `(i, j)` on, for `n` bodies. */
  function PairsFrom(n: int, i: int, j: int): nat
    requires 0 <= i < j
    decreases n - i, n - j
  {
    if i >= n then 0
    else if j >= n then PairsFrom(n, i + 1, i + 2)
    else 1 + PairsFrom(n, i, j + 1)
  }

  /** A scan records at most one manifold per loop position it visits. */
  lemma {:induction false} ScanBounded(bs: seq<Body>, n: int, i: int, j: int, acc: seq<KeysManifold>, room: int, e: Engine)
    requires 0 <= i < j && n <= |bs|
    ensures |Scan(bs, n, i, j, acc, room, e)| <= |acc| + PairsFrom(n, i, j)
    decreases n - i, n - j
  {
    if |acc| >= room || i >= n {
    } else if j >= n {
      ScanBounded(bs, n, i + 1, i + 2, acc, room, e);
    } else if Pruned(bs[i], bs[j], e) {
      ScanBounded(bs, n, i, j + 1, acc, room, e);
    } else {
      match e.solveCollision(bs[i], bs[j])
      case None => ScanBounded(bs, n, i, j + 1, acc, room, e);
      case Some(m) => ScanBounded(bs, n, i, j + 1, acc + [KeysManifold(i, j, m)], room, e);
    }
  }

  /** With less room a scan records a prefix of what it records with more room, and
      the same list when it stops below the smaller room. */
  lemma {:induction false} ScanPrefix(bs: seq<Body>, n: int, i: int, j: int, acc: seq<KeysManifold>,
                                      room: int, room': int, e: Engine)
    requires 0 <= i < j && n <= |bs|
    requires |acc| <= room <= room'
    ensures var r := Scan(bs, n, i, j, acc, room, e);
      var r' := Scan(bs, n, i, j, acc, room', e);
      |r| <= |r'| && r'[..|r|] == r && (|r| < room ==> r == r')
    decreases n - i, n - j
  {
    if |acc| >= room {
      ScanExtends(bs, n, i, j, acc, room', e);
    } else if i >= n {
    } else if j >= n {
      ScanPrefix(bs, n, i + 1, i + 2, acc, room, room', e);
    } else if Pruned(bs[i], bs[j], e) {
      ScanPrefix(bs, n, i, j + 1, acc, room, room', e);
    } else {
      match e.solveCollision(bs[i], bs[j])
      case None => ScanPrefix(bs, n, i, j + 1, acc, room, room', e);
      case Some(m) => ScanPrefix(bs, n, i, j + 1, acc + [KeysManifold(i, j, m)], room, room', e);
    }
  }

  /** Every contact one generation pass finds when capacity never runs out: room for
      one more manifold than there are loop positions. */
  function Contacts(bs: seq<Body>, n: int, e: Engine): seq<KeysManifold>
    requires n <= |bs|
  {
    Generate(bs, n, PairsFrom(n, 0, 1) + 1, e)
  }

  /** Without the capacity cut-off, the pass records a pair exactly when it is a pair
      of live bodies that is not pruned and for which the collision routine reports a
      contact. */
  lemma ContactsExactly(bs: seq<Body>, n: int, e: Engine, p: int, q: int)
    requires n <= |bs|
    ensures Records(Contacts(bs, n, e), 0, p, q)
        <==> 0 <= p < q < n && !Pruned(bs[p], bs[q], e) && e.solveCollision(bs[p], bs[q]).Some?
  {
    var room := PairsFrom(n, 0, 1) + 1;
    var c := Contacts(bs, n, e);
    GenerateSound(bs, n, room, e);
    if Records(c, 0, p, q) {
      var k :| 0 <= k < |c| && c[k].aKey == p && c[k].bKey == q;
      assert Recordable(bs, n, e, c[k]);
    }
    if 0 <= p < q < n && !Pruned(bs[p], bs[q], e) && e.solveCollision(bs[p], bs[q]).Some? {
      ScanBounded(bs, n, 0, 1, [], room, e);
      GenerateComplete(bs, n, room, e, p, q);
    }
  }

  /** At capacity the pass keeps the first `room` contacts in loop order and drops the
      rest: what it records is the prefix of `Contacts` of length `min(room, |Contacts|)`. */
  lemma GenerateTruncates(bs: seq<Body>, n: int, room: int, e: Engine)
    requires n <= |bs| && 0 <= room
    ensures var g := Generate(bs, n, room, e);
      var c := Contacts(bs, n, e);
      |g| == (if |c| <= room then |c| else room) && g == c[..|g|]
  {
    var full := PairsFrom(n, 0, 1) + 1;
    ScanBounded(bs, n, 0, 1, [], full, e);
    GenerateSound(bs, n, room, e);
    if room <= full {
      ScanPrefix(bs, n, 0, 1, [], room, full, e);
    } else {
      ScanPrefix(bs, n, 0, 1, [], full, room, e);
    }
  }

  /** When the collision routine reports no contact at all, a scan records nothing. */
  lemma {:induction false} ScanWithoutContacts(bs: seq<Body>, n: int, i: int, j: int, acc: seq<KeysManifold>,
                                               room: int, e: Engine)
    requires 0 <= i < j && n <= |bs|
    requires forall a, b :: e.solveCollision(a, b) == None
    ensures Scan(bs, n, i, j, acc, room, e) == acc
    decreases n - i, n - j
  {
    if |acc| >= room || i >= n {
    } else if j >= n {
      ScanWithoutContacts(bs, n, i + 1, i + 2, acc, room, e);
    } else {
      ScanWithoutContacts(bs, n, i, j + 1, acc, room, e);
    }
  }

  // ---------------------------------------------------------------------------
  // The manifold slots and bodies after each phase of a step
  // ---------------------------------------------------------------------------

  /** Every one of the manifolds `ms` has keys `0 <= aKey < bKey < n`. */
  predicate OrderedKeys(ms: seq<KeysManifold>, n: int) {
    forall k :: 0 <= k < |ms| ==> 0 <= ms[k].aKey < ms[k].bKey < n
  }

  /** The manifold slots after a generation pass that starts with `c0` live manifolds
      in `ms`: those, then the manifolds `Generate` appends in the free slots, then the
      remaining slots as they were. */
  function Generated(bs: seq<Body>, ms: seq<KeysManifold>, n: int, c0: int, e: Engine): (r: seq<KeysManifold>)
    requires n <= |bs| && 0 <= c0 <= |ms|
    ensures |r| == |ms|
  {
    GenerateSound(bs, n, |ms| - c0, e);
    var g := Generate(bs, n, |ms| - c0, e);
    ms[..c0] + g + ms[c0 + |g|..]
  }

  /** After generation the live manifolds still name two distinct live bodies, lower
      first, and slots below `m` that named bodies below `bound` still do. */
  lemma GeneratedKeys(bs: seq<Body>, ms: seq<KeysManifold>, n: int, c0: int, e: Engine, m: int, bound: int)
    requires n <= |bs| && 0 <= c0 <= |ms| && OrderedKeys(ms[..c0], n)
    ensures var c1 := c0 + |Generate(bs, n, |ms| - c0, e)|;
      c1 <= |ms| && OrderedKeys(Generated(bs, ms, n, c0, e)[..c1], n)
    ensures 0 <= m <= |ms| && n <= bound && KeysIn(ms[..m], bound) ==>
      KeysIn(Generated(bs, ms, n, c0, e)[..m], bound)
  {
    var g := Generate(bs, n, |ms| - c0, e);
    GenerateSound(bs, n, |ms| - c0, e);
    var r := Generated(bs, ms, n, c0, e);
    var c1 := c0 + |g|;
    forall k | 0 <= k < c1
      ensures 0 <= r[k].aKey < r[k].bKey < n
    {
      if k < c0 {
        assert r[k] == ms[..c0][k];
      } else {
        assert r[k] == g[k - c0];
        assert Recordable(bs, n, e, g[k - c0]);
      }
    }
    if 0 <= m <= |ms| && n <= bound && KeysIn(ms[..m], bound) {
      forall k | 0 <= k < m
        ensures 0 <= r[k].aKey < bound && 0 <= r[k].bKey < bound
      {
        if k >= c1 {
          assert r[k] == ms[k] == ms[..m][k];
        }
      }
    }
  }

  /** The bodies after the per-body routine `g(dt, gravity, .)` is applied to the first
      `n` of them. */
  function IntegrateEach(bs: seq<Body>, n: int, g: (real, V2, Body) -> Body, dt: real, gravity: V2)
    : (r: seq<Body>)
    ensures |r| == |bs|
  {
    seq(|bs|, k requires 0 <= k < |bs| => if k < n then g(dt, gravity, bs[k]) else bs[k])
  }

  /** The bodies after the force of the first `n` of them is set to zero. */
  function ZeroForces(bs: seq<Body>, n: int): (r: seq<Body>)
    ensures |r| == |bs|
  {
    seq(|bs|, k requires 0 <= k < |bs| => if k < n then bs[k].(force := Zero) else bs[k])
  }

  /** The manifold slots after the first `c` are re-initialised from the two bodies
      each names; the keys of every slot are kept. */
  function InitLive(bs: seq<Body>, ms: seq<KeysManifold>, c: int, f: (Body, Body, Manifold) -> Manifold)
    : (r: seq<KeysManifold>)
    requires 0 <= c <= |ms| && KeysIn(ms[..c], |bs|)
    ensures |r| == |ms|
    ensures forall k :: 0 <= k < |ms| ==> r[k].aKey == ms[k].aKey && r[k].bKey == ms[k].bKey
  {
    seq(|ms|, k requires 0 <= k < |ms| =>
      if k < c then
        assert ms[k] == ms[..c][k];
        ms[k].(manifold := f(bs[ms[k].aKey], bs[ms[k].bKey], ms[k].manifold))
      else ms[k])
  }

  // ---------------------------------------------------------------------------
  // Applying a pair routine to manifolds in order (solveCollisions, correctPositions)
  // ---------------------------------------------------------------------------

  /** Every key of `ms` indexes one of `n` bodies. */
  predicate KeysIn(ms: seq<KeysManifold>, n: int) {
    forall k :: 0 <= k < |ms| ==> 0 <= ms[k].aKey < n && 0 <= ms[k].bKey < n
  }

  /** The indices `0, 1, ..., n - 1` in order. */
  function Range(n: int): (r: seq<int>)
    ensures |r| == if n < 0 then 0 else n
    ensures forall k :: 0 <= k < |r| ==> r[k] == k
    decreases n
  {
    if n <= 0 then [] else Range(n - 1) + [n - 1]
  }

  /** `it` passes over `n` manifolds, each in index order. */
  function Schedule(it: int, n: int): (r: seq<int>)
    requires n >= 0
    ensures |r| == if it <= 0 then 0 else it * n
    ensures forall k :: 0 <= k < |r| ==> 0 <= r[k] < n
    decreases it
  {
    if it <= 0 then [] else Schedule(it - 1, n) + Range(n)
  }

  /** Pass `r` of the schedule visits manifold `c` at position `r * n + c`. */
  lemma {:induction false} ScheduleAt(it: int, n: int, r: int, c: int)
    requires n >= 0 && 0 <= r < it && 0 <= c < n
    ensures 0 <= r * n + c < |Schedule(it, n)| && Schedule(it, n)[r * n + c] == c
    decreases it
  {
    var s := Schedule(it - 1, n);
    assert |s| == (it - 1) * n;
    if r < it - 1 {
      ScheduleAt(it - 1, n, r, c);
      assert r * n + c < (it - 1) * n by {
        assert r * n <= (it - 2) * n;
        assert (it - 2) * n + n == (it - 1) * n;
      }
    } else {
      assert r * n == |s|;
    }
  }

  /** The bodies after one pair routine call on manifold `km`: the routine's first
      result is written to body `aKey`, then its second to body `bKey`. */
  function ApplyPair(bs: seq<Body>, km: KeysManifold, f: (Manifold, Body, Body) -> (Body, Body))
    : (r: seq<Body>)
    requires 0 <= km.aKey < |bs| && 0 <= km.bKey < |bs|
    ensures |r| == |bs|
    ensures r[km.bKey] == f(km.manifold, bs[km.aKey], bs[km.bKey]).1
    ensures km.aKey != km.bKey ==> r[km.aKey] == f(km.manifold, bs[km.aKey], bs[km.bKey]).0
    ensures forall k :: 0 <= k < |bs| && k != km.aKey && k != km.bKey ==> r[k] == bs[k]
  {
    var out := f(km.manifold, bs[km.aKey], bs[km.bKey]);
    bs[km.aKey := out.0][km.bKey := out.1]
  }

  /** The bodies after applying `f` to the manifolds `ms[slots[0]], ms[slots[1]], ...`
      in that order. */
  function ApplySlots(bs: seq<Body>, ms: seq<KeysManifold>, slots: seq<int>,
                      f: (Manifold, Body, Body) -> (Body, Body)): (r: seq<Body>)
    requires KeysIn(ms, |bs|)
    requires forall k :: 0 <= k < |slots| ==> 0 <= slots[k] < |ms|
    ensures |r| == |bs|
    decreases |slots|
  {
    if slots == [] then bs
    else ApplyPair(ApplySlots(bs, ms, slots[..|slots| - 1], f), ms[slots[|slots| - 1]], f)
  }

  /** No manifold among the first `c` of `ms` names body `k`. */
  predicate Untouched(ms: seq<KeysManifold>, c: int, k: int)
    requires c <= |ms|
  {
    forall s :: 0 <= s < c ==> ms[s].aKey != k && ms[s].bKey != k
  }

  /** The bodies after applying `f` to the first `i` manifolds of `ms`, in index order. */
  function ApplyFirst(bs: seq<Body>, ms: seq<KeysManifold>, i: int, f: (Manifold, Body, Body) -> (Body, Body))
    : (r: seq<Body>)
    requires KeysIn(ms, |bs|) && 0 <= i <= |ms|
    ensures |r| == |bs|
    decreases i
  {
    if i == 0 then bs else ApplyPair(ApplyFirst(bs, ms, i - 1, f), ms[i - 1], f)
  }

  /** The bodies after `it` passes of `f` over all of `ms`. */
  function Rounds(bs: seq<Body>, ms: seq<KeysManifold>, it: int, f: (Manifold, Body, Body) -> (Body, Body))
    : (r: seq<Body>)
    requires KeysIn(ms, |bs|)
    ensures |r| == |bs|
    decreases it
  {
    if it <= 0 then bs else ApplyFirst(Rounds(bs, ms, it - 1, f), ms, |ms|, f)
  }

  /** A pass over the first `i` manifolds leaves a body none of them names as it was. */
  lemma {:induction false} ApplyFirstFrame(bs: seq<Body>, ms: seq<KeysManifold>, i: int,
                                           f: (Manifold, Body, Body) -> (Body, Body), k: int)
    requires KeysIn(ms, |bs|) && 0 <= i <= |ms| && 0 <= k < |bs| && Untouched(ms, i, k)
    ensures ApplyFirst(bs, ms, i, f)[k] == bs[k]
    decreases i
  {
    if i > 0 {
      assert ms[i - 1].aKey != k && ms[i - 1].bKey != k;
      ApplyFirstFrame(bs, ms, i - 1, f, k);
    }
  }

  /** Any number of passes over `ms` leaves a body no manifold of `ms` names as it was. */
  lemma {:induction false} RoundsFrame(bs: seq<Body>, ms: seq<KeysManifold>, it: int,
                                       f: (Manifold, Body, Body) -> (Body, Body), k: int)
    requires KeysIn(ms, |bs|) && 0 <= k < |bs| && Untouched(ms, |ms|, k)
    ensures Rounds(bs, ms, it, f)[k] == bs[k]
    decreases it
  {
    if it > 0 {
      RoundsFrame(bs, ms, it - 1, f, k);
      ApplyFirstFrame(Rounds(bs, ms, it - 1, f), ms, |ms|, f, k);
    }
  }

  /** A pass over the first `i` manifolds applies exactly the slots `0 .. i - 1`. */
  lemma {:induction false} ApplyFirstIsRange(bs: seq<Body>, ms: seq<KeysManifold>, i: int,
                                             f: (Manifold, Body, Body) -> (Body, Body))
    requires KeysIn(ms, |bs|) && 0 <= i <= |ms|
    ensures ApplyFirst(bs, ms, i, f) == ApplySlots(bs, ms, Range(i), f)
    decreases i
  {
    if i > 0 {
      ApplyFirstIsRange(bs, ms, i - 1, f);
      assert Range(i)[..i - 1] == Range(i - 1);
    }
  }

  /** `it` rounds apply `f` once for each entry of `Schedule(it, |ms|)`, in order: that
      is `it * |ms|` applications, manifold `c` at position `r * |ms| + c`. */
  lemma {:induction false} RoundsFollowSchedule(bs: seq<Body>, ms: seq<KeysManifold>, it: int,
                                                f: (Manifold, Body, Body) -> (Body, Body))
    requires KeysIn(ms, |bs|)
    ensures Rounds(bs, ms, it, f) == ApplySlots(bs, ms, Schedule(it, |ms|), f)
    decreases it
  {
    if it > 0 {
      var s := Schedule(it - 1, |ms|);
      var prev := Rounds(bs, ms, it - 1, f);
      RoundsFollowSchedule(bs, ms, it - 1, f);
      assert prev == ApplySlots(bs, ms, s, f);
      ApplyFirstIsRange(prev, ms, |ms|, f);
      ApplySlotsAppend(bs, ms, s, Range(|ms|), f);
      assert Schedule(it, |ms|) == s + Range(|ms|);
    }
  }

  /** Applying `s` then `t` is applying `s + t`. */
  lemma {:induction false} ApplySlotsAppend(bs: seq<Body>, ms: seq<KeysManifold>, s: seq<int>, t: seq<int>,
                                            f: (Manifold, Body, Body) -> (Body, Body))
    requires KeysIn(ms, |bs|)
    requires forall k :: 0 <= k < |s| ==> 0 <= s[k] < |ms|
    requires forall k :: 0 <= k < |t| ==> 0 <= t[k] < |ms|
    ensures ApplySlots(bs, ms, s + t, f) == ApplySlots(ApplySlots(bs, ms, s, f), ms, t, f)
    decreases |t|
  {
    if t == [] {
      assert s + t == s;
    } else {
      var t' := t[..|t| - 1];
      ApplySlotsAppend(bs, ms, s, t', f);
      assert (s + t)[..|s + t| - 1] == s + t';
    }
  }

  /** A pass over the first `i` manifolds depends only on those `i` manifolds. */
  lemma {:induction false} ApplyFirstPrefix(bs: seq<Body>, ms: seq<KeysManifold>, ms': seq<KeysManifold>, i: int,
                                            f: (Manifold, Body, Body) -> (Body, Body))
    requires KeysIn(ms, |bs|) && KeysIn(ms', |bs|)
    requires 0 <= i <= |ms| && i <= |ms'| && ms[..i] == ms'[..i]
    ensures ApplyFirst(bs, ms, i, f) == ApplyFirst(bs, ms', i, f)
    decreases i
  {
    if i > 0 {
      assert ms[..i - 1] == ms[..i][..i - 1] && ms'[..i - 1] == ms'[..i][..i - 1];
      ApplyFirstPrefix(bs, ms, ms', i - 1, f);
      assert ms[i - 1] == ms[..i][i - 1] && ms'[i - 1] == ms'[..i][i - 1];
    }
  }

  /** The indices `lo, lo + 1, ..., hi - 1` in order. */
  function Between(lo: int, hi: int): (r: seq<int>)
    requires 0 <= lo <= hi
    ensures |r| == hi - lo && forall k :: 0 <= k < |r| ==> r[k] == lo + k
  {
    seq(hi - lo, k => lo + k)
  }

  /** The first `n` indices are the first `c` followed by `c, ..., n - 1`. */
  lemma RangeSplit(c: int, n: int)
    requires 0 <= c <= n
    ensures Range(n) == Range(c) + Between(c, n)
  {
    var t := Between(c, n);
    forall k | 0 <= k < n ensures Range(n)[k] == (Range(c) + t)[k] {
      if k >= c { assert t[k - c] == k; }
    }
  }

  /** A correction pass bounded by `n` slots, when only `c <= n` of them are live,
      is the pass over the live manifolds followed by the stale slots `c .. n - 1`,
      in index order. */
  lemma PassOverStaleSlots(bs: seq<Body>, ms: seq<KeysManifold>, c: int, n: int,
                           f: (Manifold, Body, Body) -> (Body, Body))
    requires 0 <= c <= n <= |ms| && KeysIn(ms[..n], |bs|)
    ensures KeysIn(ms[..c], |bs|)
    ensures ApplyFirst(bs, ms[..n], n, f) == ApplySlots(ApplyFirst(bs, ms[..c], c, f), ms[..n], Between(c, n), f)
  {
    var s := ms[..n];
    assert ms[..c] == s[..c];
    forall k | 0 <= k < c ensures 0 <= ms[..c][k].aKey < |bs| && 0 <= ms[..c][k].bKey < |bs| {
      assert ms[..c][k] == s[k];
    }
    var live := ApplySlots(bs, s, Range(c), f);
    calc {
      ApplyFirst(bs, s, n, f);
      { ApplyFirstIsRange(bs, s, n, f); }
      ApplySlots(bs, s, Range(n), f);
      { RangeSplit(c, n); }
      ApplySlots(bs, s, Range(c) + Between(c, n), f);
      { ApplySlotsAppend(bs, s, Range(c), Between(c, n), f); }
      ApplySlots(live, s, Between(c, n), f);
    }
    calc {
      live;
      { ApplyFirstIsRange(bs, s, c, f); }
      ApplyFirst(bs, s, c, f);
      { ApplyFirstPrefix(bs, s, ms[..c], c, f); }
      ApplyFirst(bs, ms[..c], c, f);
    }
  }

  /** A correction pass bounded by `n` slots, when `c >= n` manifolds are live, stops
      after the first `n` of them: the live manifolds from `n` on are never corrected. */
  lemma PassSkipsLiveSlots(bs: seq<Body>, ms: seq<KeysManifold>, c: int, n: int,
                           f: (Manifold, Body, Body) -> (Body, Body))
    requires 0 <= n <= c <= |ms| && KeysIn(ms[..c], |bs|)
    ensures KeysIn(ms[..n], |bs|)
    ensures ApplyFirst(bs, ms[..n], n, f) == ApplyFirst(bs, ms[..c], n, f)
  {
    forall k | 0 <= k < n ensures 0 <= ms[..n][k].aKey < |bs| && 0 <= ms[..n][k].bKey < |bs| {
      assert ms[..n][k] == ms[..c][k];
    }
    assert ms[..n][..n] == ms[..c][..n];
    ApplyFirstPrefix(bs, ms[..n], ms[..c], n, f);
  }

  /** A slot visited by a pass over the first `visited` slots is a live manifold of
      the first `live` exactly when it is below both; the difference is the slots
      from `live` to `visited` (dead but visited) or from `visited` to `live` (live
      but skipped). */
  lemma VisitedVersusLive(visited: int, live: int, k: int)
    ensures (k in Range(visited) && k !in Range(live)) <==> live <= k < visited && 0 <= k
    ensures (k in Range(live) && k !in Range(visited)) <==> visited <= k < live && 0 <= k
  {
    if 0 <= k < visited { assert Range(visited)[k] == k; }
    if 0 <= k < live { assert Range(live)[k] == k; }
  }
}
