/**
 * The bookkeeping of the per-file progress display: files own phases,
 * phases own sub-phases, each with a total, a completed count and a state;
 * a phase update rolls up into its file as a weighted mean. Rendering
 * (Rich task ids, tree symbols, descriptions) and logging are left out:
 * `task_ids` is modelled as the set of its keys.
 *
 * Keys are built by the source as `file_{n}`, `{file}_phase_{n}` and
 * `{phase}_sub_{n}`; here they are the structured values those strings
 * spell, with `KeyText` giving the spelling.
 */
module FileProgress {
  import opened Wrappers
  import PyStr

  datatype Key = File(n: nat) | Phase(owner: Key, n: nat) | Sub(owner: Key, n: nat)

  /** The string the source uses for a key. */
  function KeyText(k: Key): string
  {
    match k
    case File(n) => "file_" + PyStr.NatToString(n)
    case Phase(o, n) => KeyText(o) + "_phase_" + PyStr.NatToString(n)
    case Sub(o, n) => KeyText(o) + "_sub_" + PyStr.NatToString(n)
  }

  /** The key a key was made under, if any. */
  function Owner(k: Key): Option<Key>
  {
    if k.File? then None else Some(k.owner)
  }

  /** The shapes the source creates: a file, a phase of a file, a sub-phase of such a phase. */
  predicate Shaped(k: Key)
  {
    k.File? || (k.Phase? && k.owner.File?) || (k.Sub? && k.owner.Phase? && k.owner.owner.File?)
  }

  /** The keys that own child lists: files and their phases. */
  predicate ListOwner(k: Key)
  {
    k.File? || (k.Phase? && k.owner.File?)
  }

  datatype TaskState = Pending | Active | Done

  datatype Manager = Manager(
    hierarchy: map<Key, seq<Key>>,
    ids: set<Key>,
    weights: map<Key, real>,
    totals: map<Key, int>,
    completed: map<Key, int>,
    states: map<Key, TaskState>,
    order: seq<Key>,
    names: map<Key, string>,
    fileCounter: nat,
    phaseCounters: map<Key, nat>,
    subCounters: map<Key, nat>)

  datatype ProgressError = ValueError(message: string) | KeyError(key: Key)

  function NewManager(): (m: Manager)
    ensures Inv(m) && m.ids == {}
  {
    Manager(map[], {}, map[], map[], map[], map[], [], map[], 0, map[], map[])
  }

  /** Child lists belong to files and phases and hold only keys made under their owner. */
  ghost predicate ListsShaped(m: Manager)
  {
    Lists(m.hierarchy)
  }

  ghost predicate Lists(h: map<Key, seq<Key>>)
  {
    forall p :: p in h ==> ListOwner(p) && (forall c :: c in h[p] ==> Owner(c) == Some(p))
  }

  /** Every live key has the maps the operations read. */
  ghost predicate Domains(m: Manager)
  {
    forall k :: k in m.ids ==>
      Shaped(k) && Depth(k) <= 2 && k in m.totals && k in m.completed && k in m.states && k in m.names
      && (ListOwner(k) ==> k in m.hierarchy)
      && (k.File? ==> k in m.phaseCounters)
      && (k.Phase? ==> k in m.subCounters)
  }

  /** Counters run ahead of every key made with them, and only files and phases have counters. */
  ghost predicate CountersAhead(m: Manager)
  {
    (forall f :: f in m.phaseCounters ==> f.File? && f.n < m.fileCounter)
    && (forall p :: p in m.subCounters ==> p.Phase? && p.owner.File? && Below(m, p))
    && (forall k :: k in m.ids ==> Below(m, k))
    && (forall p, c :: p in m.hierarchy && c in m.hierarchy[p] ==> Below(m, c))
  }

  /** `k` and every key it was made under were numbered by counters that have since moved past them. */
  ghost predicate Below(m: Manager, k: Key)
  {
    match k
    case File(n) => n < m.fileCounter
    case Phase(o, n) => Below(m, o) && (o in m.phaseCounters ==> n < m.phaseCounters[o])
    case Sub(o, n) => Below(m, o) && (o in m.subCounters ==> n < m.subCounters[o])
  }

  /** The creation order lists each key at most once. */
  ghost predicate NoDup(m: Manager)
  {
    forall x :: multiset(m.order)[x] <= 1
  }

  /** The creation order lists exactly the live keys, and each child list holds a key at most once. */
  ghost predicate OrderMatches(m: Manager)
  {
    NoDup(m)
    && (forall x :: x in m.order <==> x in m.ids)
    && (forall p, c :: p in m.hierarchy ==> multiset(m.hierarchy[p])[c] <= 1)
  }

  ghost predicate Inv(m: Manager)
  {
    ListsShaped(m) && Domains(m) && CountersAhead(m) && OrderMatches(m)
  }

  /** `_validate_weight`: clamp into [0, 1]. */
  function ValidateWeight(w: real): (r: real)
    ensures 0.0 <= r <= 1.0
    ensures 0.0 <= w <= 1.0 ==> r == w
    ensures w < 0.0 ==> r == 0.0
    ensures w > 1.0 ==> r == 1.0
  {
    if w < 0.0 then 0.0 else if w > 1.0 then 1.0 else w
  }

  /** `_safe_task_operation`: only live keys may be updated. */
  predicate Live(m: Manager, k: Key)
  {
    k in m.ids
  }

  /**
   * `_find_parent_key`: the source scans every child list for the key; lists
   * only hold keys made under their owner, so the owner's list is the only
   * one to look at.
   */
  function FindParent(m: Manager, c: Key): (r: Option<Key>)
  {
    if c.File? then None
    else if c.owner in m.hierarchy && c in m.hierarchy[c.owner] then Some(c.owner)
    else None
  }

  /** The scan finds a parent exactly when some list holds the key, and then it is that list's owner. */
  lemma FindParentIsListHolder(m: Manager, c: Key, p: Key)
    requires ListsShaped(m)
    ensures FindParent(m, c) == Some(p) <==> (p in m.hierarchy && c in m.hierarchy[p])
    ensures FindParent(m, c).None? <==> (forall q :: q in m.hierarchy ==> c !in m.hierarchy[q])
  {
  }

  /** `start_file`: the next `file_{n}`, active, with total 100 and nothing done. */
  function StartFile(m: Manager, filename: string): (r: (Manager, Key))
    requires Inv(m)
    ensures Inv(r.0)
    ensures r.1 == File(m.fileCounter) && r.1 !in m.ids && r.0.ids == m.ids + {r.1}
    ensures r.0.fileCounter == m.fileCounter + 1
    ensures r.0.totals[r.1] == 100 && r.0.completed[r.1] == 0 && r.0.states[r.1] == Active
    ensures r.0.hierarchy[r.1] == [] && r.0.phaseCounters[r.1] == 0 && r.0.names[r.1] == filename
    ensures r.0.order == m.order + [r.1]
  {
    var key := File(m.fileCounter);
    var m1 := m.(
      fileCounter := m.fileCounter + 1,
      ids := m.ids + {key},
      hierarchy := m.hierarchy[key := []],
      totals := m.totals[key := 100],
      completed := m.completed[key := 0],
      states := m.states[key := Active],
      order := m.order + [key],
      names := m.names[key := filename],
      phaseCounters := m.phaseCounters[key := 0]);
    StartFileKeepsInv(m, filename, m1);
    (m1, key)
  }

  lemma StartFileKeepsInv(m: Manager, filename: string, m1: Manager)
    requires Inv(m)
    requires var key := File(m.fileCounter);
      m1 == m.(fileCounter := m.fileCounter + 1, ids := m.ids + {key}, hierarchy := m.hierarchy[key := []],
               totals := m.totals[key := 100], completed := m.completed[key := 0], states := m.states[key := Active],
               order := m.order + [key], names := m.names[key := filename], phaseCounters := m.phaseCounters[key := 0])
    ensures Inv(m1)
  {
    var key := File(m.fileCounter);
    BelowGrows(m, m1);
    AddKeepsInv(m, m1, key);
  }

  /** How a `start_*` operation grows the child lists: the new key's list, and the key at the end of its owner's list. */
  ghost predicate ListsGrowBy(m: Manager, m1: Manager, key: Key)
  {
    (forall p :: p in m.hierarchy ==> p in m1.hierarchy)
    && (forall p :: p in m1.hierarchy ==>
          (p == key && ListOwner(key) && m1.hierarchy[p] == [])
          || (p in m.hierarchy && m1.hierarchy[p] == m.hierarchy[p])
          || (p in m.hierarchy && Owner(key) == Some(p) && m1.hierarchy[p] == m.hierarchy[p] + [key]))
  }

  /** What every `start_*` operation does besides choosing the key: a fresh key gets its data and a place at the end of the order. */
  ghost predicate AddsKey(m: Manager, m1: Manager, key: Key)
  {
    key !in m.ids && !Below(m, key) && Below(m1, key) && Shaped(key) && Depth(key) <= 2
    && m1.ids == m.ids + {key} && m1.order == m.order + [key]
    && m.totals.Keys + {key} <= m1.totals.Keys && m.completed.Keys + {key} <= m1.completed.Keys
    && m.states.Keys + {key} <= m1.states.Keys && m.names.Keys + {key} <= m1.names.Keys
    && (ListOwner(key) ==> key in m1.hierarchy)
    && (key.File? ==> key in m1.phaseCounters) && (key.Phase? ==> key in m1.subCounters)
    && m.phaseCounters.Keys <= m1.phaseCounters.Keys && m.subCounters.Keys <= m1.subCounters.Keys
    && (forall f :: f in m1.phaseCounters ==> f.File? && f.n < m1.fileCounter)
    && (forall p :: p in m1.subCounters ==> p in m.subCounters || p == key)
    && (key in m1.subCounters ==> key.Phase?)
    && (forall x :: Below(m, x) ==> Below(m1, x))
    && ListsGrowBy(m, m1, key)
  }

  lemma AddKeepsInv(m: Manager, m1: Manager, key: Key)
    requires Inv(m) && AddsKey(m, m1, key)
    ensures Inv(m1)
  {
    AddKeepsLists(m, m1, key);
    AddKeepsDomains(m, m1, key);
    AddKeepsCounters(m, m1, key);
    AddKeepsOrder(m, m1, key);
  }

  lemma AddKeepsLists(m: Manager, m1: Manager, key: Key)
    requires ListsShaped(m) && AddsKey(m, m1, key)
    ensures ListsShaped(m1)
  {
    forall p | p in m1.hierarchy
      ensures ListOwner(p) && (forall c :: c in m1.hierarchy[p] ==> Owner(c) == Some(p))
    {
      if p == key && m1.hierarchy[p] == [] {
        assert ListOwner(key);
      }
    }
  }

  lemma AddKeepsDomains(m: Manager, m1: Manager, key: Key)
    requires Domains(m) && AddsKey(m, m1, key)
    ensures Domains(m1)
  {
    forall x | x in m1.ids
      ensures Shaped(x) && Depth(x) <= 2 && x in m1.totals && x in m1.completed && x in m1.states && x in m1.names
      ensures ListOwner(x) ==> x in m1.hierarchy
      ensures x.File? ==> x in m1.phaseCounters
      ensures x.Phase? ==> x in m1.subCounters
    {
      if x != key {
        assert x in m.ids;
      }
    }
  }

  lemma AddKeepsCounters(m: Manager, m1: Manager, key: Key)
    requires CountersAhead(m) && AddsKey(m, m1, key)
    ensures CountersAhead(m1)
  {
    forall p, c | p in m1.hierarchy && c in m1.hierarchy[p] ensures Below(m1, c)
    {
      if c != key {
        assert c in m.hierarchy[p];
      }
    }
  }

  lemma AddKeepsOrder(m: Manager, m1: Manager, key: Key)
    requires OrderMatches(m) && CountersAhead(m) && AddsKey(m, m1, key)
    ensures OrderMatches(m1)
  {
    assert key !in m.order;
    assert forall x :: multiset(m1.order)[x] == multiset(m.order)[x] + (if x == key then 1 else 0);
    forall p, c | p in m1.hierarchy ensures multiset(m1.hierarchy[p])[c] <= 1
    {
      if p in m.hierarchy && m1.hierarchy[p] == m.hierarchy[p] + [key] && p != key {
        assert key !in m.hierarchy[p];
        assert multiset(m1.hierarchy[p]) == multiset(m.hierarchy[p]) + multiset{key};
      }
    }
  }

  lemma ShapedDepth(k: Key)
    requires Shaped(k)
    ensures Depth(k) <= 2
  {
    if k.Sub? {
      assert Depth(k.owner) == Depth(k.owner.owner) + 1;
    }
  }

  /** Counters that only move forward keep every key below them. */
  lemma BelowGrows(m: Manager, m1: Manager)
    requires m1.fileCounter >= m.fileCounter
    requires forall f :: f in m.phaseCounters ==> f in m1.phaseCounters && m1.phaseCounters[f] >= m.phaseCounters[f]
    requires forall p :: p in m.subCounters ==> p in m1.subCounters && m1.subCounters[p] >= m.subCounters[p]
    requires forall f :: f in m1.phaseCounters && f !in m.phaseCounters ==> f.File? && f.n >= m.fileCounter
    requires forall p :: p in m1.subCounters && p !in m.subCounters ==> p.Phase? && !Below(m, p)
    ensures forall k :: Below(m, k) ==> Below(m1, k)
  {
    forall k | Below(m, k) ensures Below(m1, k) { BelowGrowsAt(m, m1, k); }
  }

  lemma BelowGrowsAt(m: Manager, m1: Manager, k: Key)
    requires m1.fileCounter >= m.fileCounter
    requires forall f :: f in m.phaseCounters ==> f in m1.phaseCounters && m1.phaseCounters[f] >= m.phaseCounters[f]
    requires forall p :: p in m.subCounters ==> p in m1.subCounters && m1.subCounters[p] >= m.subCounters[p]
    requires forall f :: f in m1.phaseCounters && f !in m.phaseCounters ==> f.File? && f.n >= m.fileCounter
    requires forall p :: p in m1.subCounters && p !in m.subCounters ==> p.Phase? && !Below(m, p)
    requires Below(m, k)
    ensures Below(m1, k)
  {
    match k
    case File(n) =>
    case Phase(o, n) => BelowGrowsAt(m, m1, o);
    case Sub(o, n) => BelowGrowsAt(m, m1, o);
  }

  // ---------------------------------------------------------------------
  // `_cleanup_task_and_children` and `complete_file`

  /** The children listed under `k`, or none (`task_hierarchy.get(k, [])`). */
  function Kids(m: Manager, k: Key): seq<Key>
  {
    if k in m.hierarchy then m.hierarchy[k] else []
  }

  function Depth(k: Key): nat
  {
    match k
    case File(_) => 0
    case Phase(o, _) => Depth(o) + 1
    case Sub(o, _) => Depth(o) + 1
  }

  /** `x` was made, directly or not, under `k`. */
  predicate Under(x: Key, k: Key)
  {
    !x.File? && (x.owner == k || Under(x.owner, k))
  }

  lemma UnderDeeper(x: Key, k: Key)
    requires Under(x, k)
    ensures Depth(x) > Depth(k)
  {
    if x.owner != k { UnderDeeper(x.owner, k); }
  }

  /** Two keys of one depth have no key made under both. */
  lemma UnderOne(x: Key, a: Key, b: Key)
    requires Under(x, a) && Under(x, b) && Depth(a) == Depth(b)
    ensures a == b
  {
    if x.owner == a {
      if x.owner != b { UnderDeeper(x.owner, b); }
    } else if x.owner == b {
      UnderDeeper(x.owner, a);
    } else {
      UnderOne(x.owner, a, b);
    }
  }

  /** `[x for x in s if x not in gone]`. */
  function Without(s: seq<Key>, gone: set<Key>): seq<Key>
  {
    if |s| == 0 then []
    else (if s[0] in gone then [] else [s[0]]) + Without(s[1..], gone)
  }

  /** Filtering keeps exactly the elements not in `gone`, and never adds a repeat. */
  lemma WithoutKeeps(s: seq<Key>, gone: set<Key>)
    ensures forall x :: x in Without(s, gone) <==> x in s && x !in gone
    ensures forall x :: multiset(Without(s, gone))[x] <= multiset(s)[x]
  {
    if |s| > 0 {
      WithoutKeeps(s[1..], gone);
      assert s == [s[0]] + s[1..];
    }
  }

  lemma WithoutTwice(s: seq<Key>, a: set<Key>, b: set<Key>)
    ensures Without(Without(s, a), b) == Without(s, a + b)
  {
    if |s| > 0 {
      WithoutTwice(s[1..], a, b);
      var t := (if s[0] in a then [] else [s[0]]) + Without(s[1..], a);
      if s[0] !in a { assert t[1..] == Without(s[1..], a); }
      else { assert t == Without(s[1..], a); }
    }
  }

  /** Removing the only occurrence of `x` is filtering `x` out. */
  lemma RemoveOnly(s: seq<Key>, x: Key)
    requires x in s && multiset(s)[x] <= 1
    ensures PyStr.RemoveFirst(s, x) == Without(s, {x})
  {
    var i := PyStr.IndexOf(s, x);
    OnceOnly(s, i);
    WithoutAround(s[..i], x, s[i + 1..]);
  }

  lemma WithoutAround(a: seq<Key>, x: Key, b: seq<Key>)
    requires x !in a && x !in b
    ensures Without(a + [x] + b, {x}) == a + b
  {
    if |a| == 0 {
      assert a + [x] + b == [x] + b;
      assert ([x] + b)[1..] == b;
      WithoutAbsent(b, {x});
    } else {
      assert (a + [x] + b)[1..] == a[1..] + [x] + b;
      WithoutAround(a[1..], x, b);
      assert a + b == [a[0]] + (a[1..] + b);
    }
  }

  /** An element that occurs once is absent after its position. */
  lemma OnceOnly(s: seq<Key>, i: nat)
    requires i < |s| && multiset(s)[s[i]] <= 1
    ensures s == s[..i] + [s[i]] + s[i + 1..] && s[i] !in s[i + 1..]
  {
    assert s == s[..i] + [s[i]] + s[i + 1..];
    assert multiset(s) == multiset(s[..i]) + multiset{s[i]} + multiset(s[i + 1..]);
  }

  lemma WithoutAbsent(s: seq<Key>, gone: set<Key>)
    requires forall x :: x in s ==> x !in gone
    ensures Without(s, gone) == s
  {
    if |s| > 0 { WithoutAbsent(s[1..], gone); }
  }

  lemma WithoutConcat(a: seq<Key>, b: seq<Key>, gone: set<Key>)
    ensures Without(a + b, gone) == Without(a, gone) + Without(b, gone)
  {
    if |a| > 0 {
      assert (a + b)[1..] == a[1..] + b;
      WithoutConcat(a[1..], b, gone);
    } else {
      assert a + b == b;
    }
  }

  /** The manager with the data of the keys in `data` dropped and the keys in `live` gone from `task_ids`. */
  function Erase(m: Manager, data: set<Key>, live: set<Key>): Manager
  {
    m.(ids := m.ids - live, totals := m.totals - data, completed := m.completed - data,
       states := m.states - data, names := m.names - data, weights := m.weights - data,
       hierarchy := m.hierarchy - data, subCounters := m.subCounters - data,
       order := Without(m.order, data))
  }

  lemma EraseTwice(m: Manager, d1: set<Key>, l1: set<Key>, d2: set<Key>, l2: set<Key>)
    ensures Erase(Erase(m, d1, l1), d2, l2) == Erase(m, d1 + d2, l1 + l2)
  {
    WithoutTwice(m.order, d1, d2);
  }

  /**
   * The keys `_cleanup_task_and_children(k)` takes out of `task_ids`: every
   * live child listed under `k` and, in turn, the live children listed under it.
   */
  function Reached(ids: set<Key>, h: map<Key, seq<Key>>, k: Key): set<Key>
    requires Lists(h)
    requires Depth(k) <= 2
    decreases 3 - Depth(k), 1, 0
  {
    if k in h then ReachedList(ids, h, k, h[k]) else {}
  }

  function ReachedList(ids: set<Key>, h: map<Key, seq<Key>>, owner: Key, ks: seq<Key>): set<Key>
    requires Lists(h)
    requires Depth(owner) <= 1 && forall c :: c in ks ==> Owner(c) == Some(owner)
    decreases 3 - Depth(owner), 0, |ks|
  {
    if |ks| == 0 then {}
    else
      DepthOfChild(ks[0], owner);
      (if ks[0] in ids then {ks[0]} + Reached(ids, h, ks[0]) else {}) + ReachedList(ids, h, owner, ks[1..])
  }

  lemma DepthOfChild(c: Key, owner: Key)
    requires Owner(c) == Some(owner)
    ensures Depth(c) == Depth(owner) + 1
  {
  }

  /** Only keys made under `k` are reached from it. */
  lemma {:induction false} ReachedUnder(ids: set<Key>, h: map<Key, seq<Key>>, k: Key)
    requires Lists(h)
    requires Depth(k) <= 2
    ensures forall x :: x in Reached(ids, h, k) ==> Under(x, k)
    decreases 3 - Depth(k), 1, 0
  {
    if k in h { ReachedListUnder(ids, h, k, h[k]); }
  }

  lemma {:induction false} ReachedListUnder(ids: set<Key>, h: map<Key, seq<Key>>, owner: Key, ks: seq<Key>)
    requires Lists(h)
    requires Depth(owner) <= 1 && forall c :: c in ks ==> Owner(c) == Some(owner)
    ensures forall x :: x in ReachedList(ids, h, owner, ks) ==> Under(x, owner)
    decreases 3 - Depth(owner), 0, |ks|
  {
    if |ks| > 0 {
      ReachedListUnder(ids, h, owner, ks[1..]);
      DepthOfChild(ks[0], owner);
      if ks[0] in ids {
        ReachedUnder(ids, h, ks[0]);
        forall x | x in Reached(ids, h, ks[0]) ensures Under(x, owner) { UnderTrans(x, ks[0], owner); }
      }
    }
  }

  lemma UnderTrans(x: Key, c: Key, k: Key)
    requires Under(x, c) && Owner(c) == Some(k)
    ensures Under(x, k)
  {
    if x.owner != c { UnderTrans(x.owner, c, k); }
  }

  /** What is reached from `k` depends only on `k`'s list and on the keys made under `k`. */
  lemma {:induction false} ReachedFrame(ids: set<Key>, h: map<Key, seq<Key>>, ids': set<Key>, h': map<Key, seq<Key>>, k: Key)
    requires Lists(h)
    requires Lists(h')
    requires Depth(k) <= 2
    requires forall x :: x == k || Under(x, k) ==> (x in h <==> x in h') && (x in h ==> h[x] == h'[x])
    requires forall x :: Under(x, k) ==> (x in ids <==> x in ids')
    ensures Reached(ids, h, k) == Reached(ids', h', k)
    decreases 3 - Depth(k), 1, 0
  {
    if k in h { ReachedListFrame(ids, h, ids', h', k, h[k]); }
  }

  lemma {:induction false} ReachedListFrame(ids: set<Key>, h: map<Key, seq<Key>>, ids': set<Key>, h': map<Key, seq<Key>>, owner: Key, ks: seq<Key>)
    requires Lists(h)
    requires Lists(h')
    requires Depth(owner) <= 1 && forall c :: c in ks ==> Owner(c) == Some(owner)
    requires forall x :: Under(x, owner) ==> (x in h <==> x in h') && (x in h ==> h[x] == h'[x])
    requires forall x :: Under(x, owner) ==> (x in ids <==> x in ids')
    ensures ReachedList(ids, h, owner, ks) == ReachedList(ids', h', owner, ks)
    decreases 3 - Depth(owner), 0, |ks|
  {
    if |ks| > 0 {
      ReachedListFrame(ids, h, ids', h', owner, ks[1..]);
      var c := ks[0];
      DepthOfChild(c, owner);
      forall x | x == c || Under(x, c) ensures Under(x, owner) {
        if x != c { UnderTrans(x, c, owner); }
      }
      ReachedFrame(ids, h, ids', h', c);
    }
  }

  /** The tracking data of `k` dropped, as the tail of `_cleanup_task_and_children` does; `task_ids` is left alone. */
  function ClearEntry(m: Manager, k: Key): (r: Manager)
    requires NoDup(m)
    ensures r == Erase(m, {k}, {})
  {
    var order := if k in m.order then PyStr.RemoveFirst(m.order, k) else m.order;
    RemoveIfPresent(m.order, k);
    m.(states := m.states - {k}, totals := m.totals - {k}, completed := m.completed - {k},
       names := m.names - {k}, weights := m.weights - {k}, order := order,
       hierarchy := m.hierarchy - {k}, subCounters := m.subCounters - {k})
  }

  /** `if k in order: order.remove(k)`, on an order without repeats, filters `k` out. */
  lemma RemoveIfPresent(s: seq<Key>, k: Key)
    requires multiset(s)[k] <= 1
    ensures (if k in s then PyStr.RemoveFirst(s, k) else s) == Without(s, {k})
  {
    if k in s { RemoveOnly(s, k); } else { WithoutAbsent(s, {k}); }
  }

  /** `del self.task_ids[c]`. */
  function Drop(m: Manager, c: Key): (r: Manager)
    ensures r == Erase(m, {}, {c})
  {
    WithoutAbsent(m.order, {});
    m.(ids := m.ids - {c})
  }

  /**
   * `_cleanup_task_and_children(k)`: every live child listed under `k` is
   * cleaned up in turn and leaves `task_ids`; then `k`'s own data is dropped.
   * The result is the manager with exactly the reached keys and `k`'s data erased.
   */
  function Cleanup(m: Manager, k: Key): (r: Manager)
    requires ListsShaped(m) && NoDup(m) && Depth(k) <= 2
    ensures var gone := Reached(m.ids, m.hierarchy, k); r == Erase(m, gone + {k}, gone)
    decreases 3 - Depth(k), 1, 0
  {
    var m1 := if k in m.hierarchy then CleanupList(m, k, m.hierarchy[k]) else m;
    CleanupTail(m, k, Reached(m.ids, m.hierarchy, k), m1);
    ClearEntry(m1, k)
  }

  lemma CleanupTail(m: Manager, k: Key, gone: set<Key>, m1: Manager)
    requires NoDup(m) && (k !in m.hierarchy ==> gone == {})
    requires m1 == if k in m.hierarchy then Erase(m, gone, gone) else m
    ensures NoDup(m1) && Erase(m1, {k}, {}) == Erase(m, gone + {k}, gone)
  {
    EraseNothing(m);
    EraseKeeps(m, gone, gone);
    EraseTwice(m, gone, gone, {k}, {});
  }

  lemma EraseNothing(m: Manager)
    ensures Erase(m, {}, {}) == m
  {
    WithoutAbsent(m.order, {});
  }

  /** Erasing keeps the child lists' shape and the order free of repeats. */
  lemma EraseKeeps(m: Manager, data: set<Key>, live: set<Key>)
    ensures ListsShaped(m) ==> ListsShaped(Erase(m, data, live))
    ensures NoDup(m) ==> NoDup(Erase(m, data, live))
  {
    WithoutKeeps(m.order, data);
  }

  /** The loop of `_cleanup_task_and_children` over the children listed under `owner`. */
  function CleanupList(m: Manager, owner: Key, ks: seq<Key>): (r: Manager)
    requires ListsShaped(m) && NoDup(m) && Depth(owner) <= 1
    requires forall c :: c in ks ==> Owner(c) == Some(owner)
    ensures var gone := ReachedList(m.ids, m.hierarchy, owner, ks); r == Erase(m, gone, gone)
    decreases 3 - Depth(owner), 0, |ks|
  {
    if |ks| == 0 then EraseNothing(m); m
    else
      var c := ks[0];
      DepthOfChild(c, owner);
      var a := if c in m.ids then {c} + Reached(m.ids, m.hierarchy, c) else {};
      var m1 := if c in m.ids then Drop(Cleanup(m, c), c) else m;
      FirstChildErased(m, c, a, m1);
      var r := CleanupList(m1, owner, ks[1..]);
      RestAfterFirst(m, owner, ks, a);
      EraseTwice(m, a, a, ReachedList(m1.ids, m1.hierarchy, owner, ks[1..]), ReachedList(m1.ids, m1.hierarchy, owner, ks[1..]));
      r
  }

  /** Cleaning up a live child and dropping it erases the child and what it reaches. */
  lemma FirstChildErased(m: Manager, c: Key, a: set<Key>, m1: Manager)
    requires ListsShaped(m) && NoDup(m) && Depth(c) <= 2
    requires a == if c in m.ids then {c} + Reached(m.ids, m.hierarchy, c) else {}
    requires var gone := Reached(m.ids, m.hierarchy, c);
      m1 == if c in m.ids then Drop(Erase(m, gone + {c}, gone), c) else m
    ensures m1 == Erase(m, a, a) && ListsShaped(m1) && NoDup(m1)
  {
    if c in m.ids {
      var gone := Reached(m.ids, m.hierarchy, c);
      EraseTwice(m, gone + {c}, gone, {}, {c});
      assert gone + {c} + {} == a && gone + {c} == a;
    } else {
      EraseNothing(m);
    }
    EraseKeeps(m, a, a);
  }

  /** After the first child's subtree `a` is erased, the rest of the list reaches what it reached before, less `a`. */
  lemma RestAfterFirst(m: Manager, owner: Key, ks: seq<Key>, a: set<Key>)
    requires ListsShaped(m) && Depth(owner) <= 1 && |ks| > 0
    requires forall c :: c in ks ==> Owner(c) == Some(owner)
    requires Depth(ks[0]) == Depth(owner) + 1
    requires a == if ks[0] in m.ids then {ks[0]} + Reached(m.ids, m.hierarchy, ks[0]) else {}
    ensures Lists(m.hierarchy - a)
      && a + ReachedList(m.ids - a, m.hierarchy - a, owner, ks[1..]) == ReachedList(m.ids, m.hierarchy, owner, ks)
  {
    DepthOfChild(ks[0], owner);
    if ks[0] in m.ids {
      ReachedUnder(m.ids, m.hierarchy, ks[0]);
      RestFrame(m.ids, m.hierarchy, owner, ks[0], ks[1..], a);
    } else {
      assert m.ids - a == m.ids && m.hierarchy - a == m.hierarchy;
    }
  }

  lemma {:induction false} RestFrame(ids: set<Key>, h: map<Key, seq<Key>>, owner: Key, c: Key, ks: seq<Key>, a: set<Key>)
    requires Lists(h)
    requires Depth(owner) <= 1 && Owner(c) == Some(owner)
    requires forall d :: d in ks ==> Owner(d) == Some(owner)
    requires c in ids && a == {c} + Reached(ids, h, c)
    requires forall x :: x in a ==> x == c || Under(x, c)
    ensures Lists(h - a) && ReachedList(ids - a, h - a, owner, ks) == ReachedList(ids, h, owner, ks) - a
    decreases |ks|
  {
    if |ks| > 0 {
      RestFrame(ids, h, owner, c, ks[1..], a);
      var d := ks[0];
      DepthOfChild(d, owner);
      DepthOfChild(c, owner);
      if d == c {
      } else {
        forall x | x == d || Under(x, d) ensures x !in a
        {
          if x == c { UnderDeeper(x, d); }
          else if x in a {
            if x == d { UnderDeeper(x, c); } else { UnderOne(x, c, d); }
          }
        }
        ReachedFrame(ids, h, ids - a, h - a, d);
        if d in ids {
          ReachedUnder(ids, h, d);
        }
      }
    }
  }

  /**
   * `complete_file(k)`: a key that is not live is ignored; otherwise the key,
   * every live child listed under it and every live child listed under
   * those leave `task_ids` and lose their data, and the key's phase counter
   * goes. Nothing else changes.
   */
  function CompleteFile(m: Manager, k: Key): (r: Manager)
    requires Inv(m)
    ensures Inv(r)
    ensures k !in m.ids ==> r == m
    ensures k in m.ids ==>
      var gone := Reached(m.ids, m.hierarchy, k) + {k};
      r == Erase(m, gone, gone).(phaseCounters := m.phaseCounters - {k})
  {
    if k !in m.ids then m
    else
      var m1 := m.(completed := m.completed[k := 100], states := m.states[k := Done]);
      var m2 := Cleanup(m1, k);
      EraseKeeps(m1, Reached(m1.ids, m1.hierarchy, k) + {k}, Reached(m1.ids, m1.hierarchy, k));
      var m3 := Drop(ClearEntry(m2, k), k).(phaseCounters := m2.phaseCounters - {k});
      CompleteFileErases(m, k, m1, m2, m3);
      ErasedTreeKeepsInv(m, Reached(m.ids, m.hierarchy, k) + {k}, m3);
      m3
  }

  lemma CompleteFileErases(m: Manager, k: Key, m1: Manager, m2: Manager, m3: Manager)
    requires ListsShaped(m) && Depth(k) <= 2
    requires m1 == m.(completed := m.completed[k := 100], states := m.states[k := Done])
    requires var g := Reached(m1.ids, m1.hierarchy, k); m2 == Erase(m1, g + {k}, g)
    requires m3 == Erase(m2, {k}, {k}).(phaseCounters := m2.phaseCounters - {k})
    ensures var gone := Reached(m.ids, m.hierarchy, k) + {k};
      m3 == Erase(m, gone, gone).(phaseCounters := m.phaseCounters - {k})
  {
    var g := Reached(m.ids, m.hierarchy, k) + {k};
    EraseTwice(m1, g, g - {k}, {k}, {k});
    assert g + {k} == g && g - {k} + {k} == g;
    ErasedEdits(m, k, g, m1);
  }

  /** Data written for a key that is then erased leaves no trace. */
  lemma ErasedEdits(m: Manager, k: Key, g: set<Key>, m1: Manager)
    requires k in g
    requires m1 == m.(completed := m.completed[k := 100], states := m.states[k := Done])
    ensures Erase(m1, g, g) == Erase(m, g, g)
  {
    assert m1.completed - g == m.completed - g;
    assert m1.states - g == m.states - g;
  }

  /** Erasing a set of keys together with their `task_ids` entries, and maybe a phase counter, keeps the invariant. */
  lemma ErasedTreeKeepsInv(m: Manager, gone: set<Key>, r: Manager)
    requires Inv(m)
    requires r.phaseCounters.Keys <= m.phaseCounters.Keys
    requires r == Erase(m, gone, gone).(phaseCounters := r.phaseCounters)
    requires forall f :: f in r.phaseCounters ==> r.phaseCounters[f] == m.phaseCounters[f]
    requires forall f :: f in m.ids && f !in gone && f.File? ==> f in r.phaseCounters
    ensures Inv(r)
  {
    EraseKeepsDomains(m, gone, r);
    EraseKeepsCounters(m, gone, r);
    EraseKeepsOrder(m, gone, r);
  }

  lemma EraseKeepsDomains(m: Manager, gone: set<Key>, r: Manager)
    requires Domains(m)
    requires r == Erase(m, gone, gone).(phaseCounters := r.phaseCounters)
    requires forall f :: f in m.ids && f !in gone && f.File? ==> f in r.phaseCounters
    ensures Domains(r)
  {
  }

  lemma EraseKeepsCounters(m: Manager, gone: set<Key>, r: Manager)
    requires CountersAhead(m)
    requires r.phaseCounters.Keys <= m.phaseCounters.Keys
    requires r == Erase(m, gone, gone).(phaseCounters := r.phaseCounters)
    requires forall f :: f in r.phaseCounters ==> r.phaseCounters[f] == m.phaseCounters[f]
    ensures CountersAhead(r)
  {
    forall x | Below(m, x) ensures Below(r, x) { BelowShrinks(m, r, x); }
  }

  lemma EraseKeepsOrder(m: Manager, gone: set<Key>, r: Manager)
    requires OrderMatches(m)
    requires r == Erase(m, gone, gone).(phaseCounters := r.phaseCounters)
    ensures OrderMatches(r)
  {
    WithoutKeeps(m.order, gone);
  }

  /** Counters that are dropped but never lowered keep every key below them. */
  lemma BelowShrinks(m: Manager, r: Manager, k: Key)
    requires Below(m, k) && r.fileCounter == m.fileCounter
    requires forall f :: f in r.phaseCounters ==> f in m.phaseCounters && r.phaseCounters[f] == m.phaseCounters[f]
    requires forall p :: p in r.subCounters ==> p in m.subCounters && r.subCounters[p] == m.subCounters[p]
    ensures Below(r, k)
  {
    match k
    case File(_) =>
    case Phase(o, _) => BelowShrinks(m, r, o);
    case Sub(o, _) => BelowShrinks(m, r, o);
  }

  /** `complete_file` takes out the file, its live listed phases and their live listed sub-phases. */
  lemma CompleteFileRemovesTree(m: Manager, f: Key, p: Key, q: Key)
    requires Inv(m) && f in m.ids && f.File?
    ensures var r := CompleteFile(m, f);
      f !in r.ids && f !in r.totals && f !in r.completed && f !in r.states && f !in r.hierarchy
      && f !in r.phaseCounters && f !in r.order
      && (p in Kids(m, f) && p in m.ids ==> p !in r.ids && p !in r.totals && p !in r.hierarchy && p !in r.subCounters)
      && (p in Kids(m, f) && p in m.ids && q in Kids(m, p) && q in m.ids ==> q !in r.ids && q !in r.totals && q !in r.order)
  {
    WithoutKeeps(m.order, Reached(m.ids, m.hierarchy, f) + {f});
    if p in Kids(m, f) && p in m.ids {
      ListedPhaseReached(m, f, m.hierarchy[f], p, q);
    }
  }

  /** Keys not made under the completed file keep everything recorded about them. */
  lemma CompleteFileKeepsOthers(m: Manager, f: Key, x: Key)
    requires Inv(m) && f in m.ids && x != f && !Under(x, f)
    ensures var r := CompleteFile(m, f);
      (x in r.ids <==> x in m.ids) && (x in r.order <==> x in m.order)
      && Lookup(r.totals, x) == Lookup(m.totals, x) && Lookup(r.completed, x) == Lookup(m.completed, x)
      && Lookup(r.states, x) == Lookup(m.states, x) && Lookup(r.names, x) == Lookup(m.names, x)
      && Lookup(r.weights, x) == Lookup(m.weights, x) && Lookup(r.hierarchy, x) == Lookup(m.hierarchy, x)
  {
    var gone := Reached(m.ids, m.hierarchy, f) + {f};
    ReachedUnder(m.ids, m.hierarchy, f);
    assert x !in gone;
    EraseOutside(m, gone, x);
  }

  lemma EraseOutside(m: Manager, gone: set<Key>, x: Key)
    requires x !in gone
    ensures var r := Erase(m, gone, gone);
      (x in r.ids <==> x in m.ids) && (x in r.order <==> x in m.order)
      && Lookup(r.totals, x) == Lookup(m.totals, x) && Lookup(r.completed, x) == Lookup(m.completed, x)
      && Lookup(r.states, x) == Lookup(m.states, x) && Lookup(r.names, x) == Lookup(m.names, x)
      && Lookup(r.weights, x) == Lookup(m.weights, x) && Lookup(r.hierarchy, x) == Lookup(m.hierarchy, x)
  {
    WithoutKeeps(m.order, gone);
  }

  function Lookup<V>(mp: map<Key, V>, k: Key): Option<V>
  {
    if k in mp then Some(mp[k]) else None
  }

  lemma {:induction false} ListedPhaseReached(m: Manager, f: Key, ks: seq<Key>, p: Key, q: Key)
    requires ListsShaped(m) && f.File? && f in m.hierarchy
    requires forall c :: c in ks ==> Owner(c) == Some(f)
    requires p in ks && p in m.ids
    ensures p in ReachedList(m.ids, m.hierarchy, f, ks)
    ensures q in Kids(m, p) && q in m.ids ==> q in ReachedList(m.ids, m.hierarchy, f, ks)
  {
    DepthOfChild(ks[0], f);
    if ks[0] == p {
      if q in Kids(m, p) && q in m.ids {
        assert p in m.hierarchy;
        var kq := m.hierarchy[p];
        DepthOfChild(q, p);
        QueuedReached(m, p, kq, q);
      }
    } else {
      ListedPhaseReached(m, f, ks[1..], p, q);
    }
  }

  lemma {:induction false} QueuedReached(m: Manager, p: Key, ks: seq<Key>, q: Key)
    requires ListsShaped(m) && Depth(p) <= 1
    requires forall c :: c in ks ==> Owner(c) == Some(p)
    requires q in ks && q in m.ids
    ensures q in ReachedList(m.ids, m.hierarchy, p, ks)
  {
    DepthOfChild(ks[0], p);
    if ks[0] != q { QueuedReached(m, p, ks[1..], q); }
  }

  // ---------------------------------------------------------------------
  // Phases and sub-phases

  /**
   * `start_phase`: `ValueError` for a key that is not live; a live key that
   * has no phase counter (a phase or a sub-phase) fails with `KeyError`.
   * Otherwise the next `{file}_phase_{n}` is appended to the file's list,
   * pending, with the clamped weight and `estimated_work or 0` as total.
   */
  function StartPhase(m: Manager, f: Key, name: string, weight: real, estimated: Option<int>): (r: Result<(Manager, Key), ProgressError>)
    requires Inv(m)
    ensures f !in m.ids ==> r == Failure(ValueError("File key '" + KeyText(f) + "' not found"))
    ensures f in m.ids && !f.File? ==> r == Failure(KeyError(f))
    ensures r.Success? <==> f in m.ids && f.File?
    ensures r.Success? ==>
      var (m1, key) := r.value;
      Inv(m1) && key == Phase(f, m.phaseCounters[f]) && key !in m.ids && m1.ids == m.ids + {key}
      && m1.hierarchy[f] == m.hierarchy[f] + [key] && m1.hierarchy[key] == []
      && key in m1.weights && m1.weights[key] == ValidateWeight(weight) && m1.totals[key] == estimated.GetOr(0)
      && m1.completed[key] == 0 && m1.states[key] == Pending && m1.names[key] == name
      && m1.phaseCounters[f] == m.phaseCounters[f] + 1 && m1.subCounters[key] == 0
      && m1.order == m.order + [key]
    ensures r.Success? ==> forall x :: x != r.value.1 ==>
      Lookup(r.value.0.totals, x) == Lookup(m.totals, x) && Lookup(r.value.0.completed, x) == Lookup(m.completed, x)
      && Lookup(r.value.0.weights, x) == Lookup(m.weights, x)
  {
    if f !in m.ids then Failure(ValueError("File key '" + KeyText(f) + "' not found"))
    else if f !in m.phaseCounters then Failure(KeyError(f))
    else
      var n := m.phaseCounters[f];
      var key := Phase(f, n);
      var m1 := m.(
        phaseCounters := m.phaseCounters[f := n + 1],
        ids := m.ids + {key},
        hierarchy := m.hierarchy[f := m.hierarchy[f] + [key]][key := []],
        weights := m.weights[key := ValidateWeight(weight)],
        totals := m.totals[key := estimated.GetOr(0)],
        completed := m.completed[key := 0],
        states := m.states[key := Pending],
        order := m.order + [key],
        names := m.names[key := name],
        subCounters := m.subCounters[key := 0]);
      StartPhaseAdds(m, f, key, m1);
      AddKeepsInv(m, m1, key);
      Success((m1, key))
  }

  lemma StartPhaseAdds(m: Manager, f: Key, key: Key, m1: Manager)
    requires CountersAhead(m) && f in m.ids && f in m.phaseCounters && f in m.hierarchy && key == Phase(f, m.phaseCounters[f])
    requires m1.ids == m.ids + {key} && m1.order == m.order + [key] && m1.fileCounter == m.fileCounter
    requires m1.phaseCounters == m.phaseCounters[f := m.phaseCounters[f] + 1]
    requires m1.subCounters == m.subCounters[key := 0]
    requires m1.hierarchy == m.hierarchy[f := m.hierarchy[f] + [key]][key := []]
    requires m.totals.Keys + {key} <= m1.totals.Keys && m.completed.Keys + {key} <= m1.completed.Keys
    requires m.states.Keys + {key} <= m1.states.Keys && m.names.Keys + {key} <= m1.names.Keys
    ensures AddsKey(m, m1, key)
  {
    BelowGrows(m, m1);
    ShapedDepth(key);
    assert ListsGrowBy(m, m1, key);
  }

  /**
   * `start_subphase`: `ValueError` for a key that is not live, `KeyError`
   * for a live key without a sub-phase counter (a file or a sub-phase);
   * otherwise the next `{phase}_sub_{n}` is appended to the phase's list,
   * pending, with the given total.
   */
  function StartSubphase(m: Manager, p: Key, name: string, total: int): (r: Result<(Manager, Key), ProgressError>)
    requires Inv(m)
    ensures p !in m.ids ==> r == Failure(ValueError("Phase key '" + KeyText(p) + "' not found"))
    ensures p in m.ids && !p.Phase? ==> r == Failure(KeyError(p))
    ensures r.Success? <==> p in m.ids && p.Phase?
    ensures r.Success? ==>
      var (m1, key) := r.value;
      Inv(m1) && key == Sub(p, m.subCounters[p]) && key !in m.ids && m1.ids == m.ids + {key}
      && m1.hierarchy[p] == m.hierarchy[p] + [key]
      && m1.totals[key] == total && m1.completed[key] == 0 && m1.states[key] == Pending && m1.names[key] == name
      && m1.subCounters[p] == m.subCounters[p] + 1 && m1.order == m.order + [key]
  {
    if p !in m.ids then Failure(ValueError("Phase key '" + KeyText(p) + "' not found"))
    else if p !in m.subCounters then Failure(KeyError(p))
    else
      var n := m.subCounters[p];
      var key := Sub(p, n);
      var m1 := m.(
        subCounters := m.subCounters[p := n + 1],
        ids := m.ids + {key},
        hierarchy := m.hierarchy[p := m.hierarchy[p] + [key]],
        totals := m.totals[key := total],
        completed := m.completed[key := 0],
        states := m.states[key := Pending],
        order := m.order + [key],
        names := m.names[key := name]);
      StartSubphaseAdds(m, p, key, m1);
      AddKeepsInv(m, m1, key);
      Success((m1, key))
  }

  lemma StartSubphaseAdds(m: Manager, p: Key, key: Key, m1: Manager)
    requires CountersAhead(m) && p in m.ids && p in m.subCounters && p in m.hierarchy && key == Sub(p, m.subCounters[p])
    requires m1.ids == m.ids + {key} && m1.order == m.order + [key] && m1.fileCounter == m.fileCounter
    requires m1.phaseCounters == m.phaseCounters
    requires m1.subCounters == m.subCounters[p := m.subCounters[p] + 1]
    requires m1.hierarchy == m.hierarchy[p := m.hierarchy[p] + [key]]
    requires m.totals.Keys + {key} <= m1.totals.Keys && m.completed.Keys + {key} <= m1.completed.Keys
    requires m.states.Keys + {key} <= m1.states.Keys && m.names.Keys + {key} <= m1.names.Keys
    ensures AddsKey(m, m1, key)
  {
    BelowGrows(m, m1);
    ShapedDepth(key);
    assert ListsGrowBy(m, m1, key);
  }

  /** Edits of totals, completed counts and states that keep which keys have them keep the invariant. */
  lemma EditKeepsInv(m: Manager, m1: Manager)
    requires Inv(m)
    requires m1 == m.(totals := m1.totals, completed := m1.completed, states := m1.states)
    requires m1.totals.Keys == m.totals.Keys && m1.completed.Keys == m.completed.Keys && m1.states.Keys == m.states.Keys
    ensures Inv(m1)
  {
    assert Domains(m1);
    forall x | Below(m, x) ensures Below(m1, x) { BelowShrinks(m, m1, x); }
  }

  /** `activate_phase`: a live key becomes active; anything else is ignored. */
  function ActivatePhase(m: Manager, k: Key): (r: Manager)
    requires Inv(m)
    ensures Inv(r)
    ensures Live(m, k) ==> r == m.(states := m.states[k := Active])
    ensures !Live(m, k) ==> r == m
  {
    if Live(m, k) then
      var r := m.(states := m.states[k := Active]);
      EditKeepsInv(m, r);
      r
    else m
  }

  /** `update_subphase`: a live key's completed count moves by `advance`, unchecked; anything else is ignored. */
  function UpdateSubphase(m: Manager, k: Key, advance: int): (r: Manager)
    requires Inv(m)
    ensures Inv(r)
    ensures Live(m, k) ==> r == m.(completed := m.completed[k := m.completed[k] + advance])
    ensures !Live(m, k) ==> r == m
  {
    if Live(m, k) then
      var r := m.(completed := m.completed[k := m.completed[k] + advance]);
      EditKeepsInv(m, r);
      r
    else m
  }

  /** `set_phase_total`: a live key's total is replaced; anything else is ignored. */
  function SetPhaseTotal(m: Manager, k: Key, total: int): (r: Manager)
    requires Inv(m)
    ensures Inv(r)
    ensures Live(m, k) ==> r == m.(totals := m.totals[k := total])
    ensures !Live(m, k) ==> r == m
  {
    if Live(m, k) then
      var r := m.(totals := m.totals[k := total]);
      EditKeepsInv(m, r);
      r
    else m
  }

  // ---------------------------------------------------------------------
  // `_update_parent_progress`

  /** A sibling's weight; `task_weights.get(key, 1.0)`. */
  function WeightOf(m: Manager, s: Key): real
  {
    if s in m.weights then m.weights[s] else 1.0
  }

  /**
   * A sibling's progress as a fraction: done over total capped at 1 when
   * the total is positive, else 1 when anything is done; a sibling with no
   * data that is no longer live counts as finished.
   */
  function SiblingProgress(m: Manager, s: Key): (r: real)
    ensures r <= 1.0
    ensures s in m.completed && s in m.totals && m.completed[s] >= 0 ==> 0.0 <= r
    ensures s in m.completed && s in m.totals && m.totals[s] > 0 && 0 <= m.completed[s] <= m.totals[s] ==>
      r * m.totals[s] as real == m.completed[s] as real
    ensures s in m.completed && s in m.totals && m.completed[s] >= m.totals[s] && m.completed[s] > 0 ==> r == 1.0
    ensures (s !in m.completed || s !in m.totals) ==> (r == 1.0 <==> s !in m.ids)
  {
    if s in m.completed && s in m.totals then
      var total := m.totals[s];
      var done := m.completed[s];
      if total > 0 then PyStr.MinR(1.0, done as real / total as real)
      else if done > 0 then 1.0 else 0.0
    else if s !in m.ids then 1.0
    else 0.0
  }

  function TotalWeight(m: Manager, ks: seq<Key>): real
  {
    if |ks| == 0 then 0.0 else WeightOf(m, ks[0]) + TotalWeight(m, ks[1..])
  }

  function WeightedProgress(m: Manager, ks: seq<Key>): real
  {
    if |ks| == 0 then 0.0 else SiblingProgress(m, ks[0]) * WeightOf(m, ks[0]) + WeightedProgress(m, ks[1..])
  }

  /** `int(min(100, max(0, x * 100)))`; the clamp makes the truncation a floor. */
  function Percent(x: real): (r: int)
    ensures 0 <= r <= 100
    ensures 0.0 <= x <= 1.0 ==> r as real <= x * 100.0 < r as real + 1.0
    ensures x <= 0.0 ==> r == 0
    ensures x >= 1.0 ==> r == 100
  {
    var clamped := PyStr.MinR(100.0, PyStr.MaxR(0.0, x * 100.0));
    clamped.Floor
  }

  /** The parent's new percentage from its listed children, when their weights add up to something positive. */
  function Rollup(m: Manager, p: Key): (r: Option<int>)
    requires p in m.hierarchy
    ensures r.Some? <==> TotalWeight(m, m.hierarchy[p]) > 0.0
    ensures r.Some? ==> 0 <= r.value <= 100
  {
    var total := TotalWeight(m, m.hierarchy[p]);
    if total > 0.0 then Some(Percent(WeightedProgress(m, m.hierarchy[p]) / total)) else None
  }

  /**
   * `_update_parent_progress(c)`: the live parent listing `c` gets the
   * weighted mean of its children as its completed percentage. Nothing else
   * changes.
   */
  function UpdateParent(m: Manager, c: Key): (r: Manager)
    requires Inv(m)
    ensures Inv(r)
    ensures r == m.(completed := r.completed) && r.completed.Keys == m.completed.Keys
    ensures forall x :: x in m.completed && r.completed[x] != m.completed[x] ==>
      FindParent(m, c) == Some(x) && x in m.ids && Rollup(m, x) == Some(r.completed[x])
    ensures forall p :: FindParent(m, c) == Some(p) && p in m.ids && Rollup(m, p).Some? ==>
      r.completed[p] == Rollup(m, p).value
  {
    match FindParent(m, c)
    case None => m
    case Some(p) =>
      if p !in m.ids then m
      else match Rollup(m, p)
        case None => m
        case Some(v) =>
          var r := m.(completed := m.completed[p := v]);
          EditKeepsInv(m, r);
          r
  }

  /** A roll-up leaves the count of any key other than the child's parent alone. */
  lemma UpdateParentElsewhere(m: Manager, c: Key, x: Key)
    requires Inv(m) && x in m.completed && FindParent(m, c) != Some(x)
    ensures UpdateParent(m, c).completed[x] == m.completed[x]
  {
  }

  /** When every listed child is finished, the roll-up is 100. */
  lemma {:induction false} AllDoneSums(m: Manager, ks: seq<Key>)
    requires forall s :: s in ks ==> SiblingProgress(m, s) == 1.0
    ensures WeightedProgress(m, ks) == TotalWeight(m, ks)
  {
    if |ks| > 0 { AllDoneSums(m, ks[1..]); }
  }

  lemma {:induction false} NoneDoneSums(m: Manager, ks: seq<Key>)
    requires forall s :: s in ks ==> SiblingProgress(m, s) == 0.0
    ensures WeightedProgress(m, ks) == 0.0
  {
    if |ks| > 0 { NoneDoneSums(m, ks[1..]); }
  }

  lemma RollupAllDone(m: Manager, p: Key)
    requires p in m.hierarchy && TotalWeight(m, m.hierarchy[p]) > 0.0
    requires forall s :: s in m.hierarchy[p] ==> SiblingProgress(m, s) == 1.0
    ensures Rollup(m, p) == Some(100)
  {
    var ks := m.hierarchy[p];
    AllDoneSums(m, ks);
    assert WeightedProgress(m, ks) / TotalWeight(m, ks) == 1.0;
  }

  lemma RollupNoneDone(m: Manager, p: Key)
    requires p in m.hierarchy && TotalWeight(m, m.hierarchy[p]) > 0.0
    requires forall s :: s in m.hierarchy[p] ==> SiblingProgress(m, s) == 0.0
    ensures Rollup(m, p) == Some(0)
  {
    var ks := m.hierarchy[p];
    NoneDoneSums(m, ks);
    assert WeightedProgress(m, ks) / TotalWeight(m, ks) == 0.0;
  }

  /** The count `update_phase` records for a live key: an absolute count wins over an advance, and a non-positive advance changes nothing. */
  function RecordPhase(m: Manager, k: Key, completed: Option<int>, advance: int): (r: Manager)
    requires Inv(m) && Live(m, k)
    ensures Inv(r) && r == m.(completed := r.completed) && r.completed.Keys == m.completed.Keys
    ensures completed.Some? ==> r.completed[k] == completed.value
    ensures completed.None? && advance > 0 ==> r.completed[k] == m.completed[k] + advance
    ensures completed.None? && advance <= 0 ==> r.completed[k] == m.completed[k]
    ensures forall x :: x in m.completed && x != k ==> r.completed[x] == m.completed[x]
  {
    var r := match completed
      case Some(v) => m.(completed := m.completed[k := v])
      case None => if advance > 0 then m.(completed := m.completed[k := m.completed[k] + advance]) else m;
    EditKeepsInv(m, r);
    r
  }

  /** `update_phase`: the count is recorded, then the parent is rolled up; a key that is not live is ignored. */
  function UpdatePhase(m: Manager, k: Key, completed: Option<int>, advance: int): (r: Manager)
    requires Inv(m)
    ensures Inv(r)
    ensures !Live(m, k) ==> r == m
    ensures Live(m, k) ==> r == UpdateParent(RecordPhase(m, k, completed, advance), k)
  {
    if !Live(m, k) then m
    else UpdateParent(RecordPhase(m, k, completed, advance), k)
  }

  // ---------------------------------------------------------------------
  // `complete_subphase` and `complete_phase`

  /** Nothing is recorded about `k` any more, and no child list holds it. */
  ghost predicate Gone(m: Manager, k: Key)
  {
    k !in m.ids && k !in m.totals && k !in m.completed && k !in m.states && k !in m.names && k !in m.order
    && (forall q :: q in m.hierarchy ==> k !in m.hierarchy[q])
  }

  /** The deletions `complete_phase` and `complete_subphase` share: `task_ids`, totals, counts, states, names and the creation order. */
  function Forget(m: Manager, k: Key): (r: Manager)
    requires NoDup(m)
    ensures r == m.(ids := m.ids - {k}, totals := m.totals - {k}, completed := m.completed - {k},
                    states := m.states - {k}, names := m.names - {k}, order := Without(m.order, {k}))
  {
    RemoveIfPresent(m.order, k);
    m.(ids := m.ids - {k}, totals := m.totals - {k}, completed := m.completed - {k},
       states := m.states - {k}, names := m.names - {k},
       order := if k in m.order then PyStr.RemoveFirst(m.order, k) else m.order)
  }

  /** `task_hierarchy[parent].remove(k)` when the parent's list holds `k`. */
  function Unlist(h: map<Key, seq<Key>>, parent: Option<Key>, k: Key): map<Key, seq<Key>>
  {
    if parent.Some? && parent.value in h && k in h[parent.value]
    then h[parent.value := PyStr.RemoveFirst(h[parent.value], k)]
    else h
  }

  /** `Unlist` changes at most one list, and that one only by taking `k` out. */
  lemma UnlistChanges(h: map<Key, seq<Key>>, parent: Option<Key>, k: Key)
    ensures var u := Unlist(h, parent, k);
      u.Keys == h.Keys
      && forall p :: p in u ==> u[p] == h[p] || (k in h[p] && u[p] == PyStr.RemoveFirst(h[p], k))
  {
  }

  /** Taking one key out, and at most that key out of one list, keeps the invariant. */
  ghost predicate RemovesKey(m: Manager, r: Manager, k: Key)
  {
    r.ids == m.ids - {k} && r.order == Without(m.order, {k})
    && r.fileCounter == m.fileCounter && r.phaseCounters == m.phaseCounters
    && (forall p :: p in r.subCounters ==> p in m.subCounters && r.subCounters[p] == m.subCounters[p])
    && m.subCounters.Keys - {k} <= r.subCounters.Keys
    && m.totals.Keys - {k} <= r.totals.Keys && m.completed.Keys - {k} <= r.completed.Keys
    && m.states.Keys - {k} <= r.states.Keys && m.names.Keys - {k} <= r.names.Keys
    && m.hierarchy.Keys - {k} <= r.hierarchy.Keys
    && (forall p :: p in r.hierarchy ==>
          p in m.hierarchy && (r.hierarchy[p] == m.hierarchy[p] || (k in m.hierarchy[p] && r.hierarchy[p] == PyStr.RemoveFirst(m.hierarchy[p], k))))
  }

  /** `Forget` with a new hierarchy, weights and sub-phase counters that take out at most `k` is such a removal. */
  lemma ForgetRemovesKey(m: Manager, k: Key, h: map<Key, seq<Key>>, w: map<Key, real>, sc: map<Key, nat>)
    requires NoDup(m)
    requires h.Keys <= m.hierarchy.Keys && m.hierarchy.Keys - {k} <= h.Keys
    requires forall p :: p in h ==> h[p] == m.hierarchy[p] || (k in m.hierarchy[p] && h[p] == PyStr.RemoveFirst(m.hierarchy[p], k))
    requires forall p :: p in sc ==> p in m.subCounters && sc[p] == m.subCounters[p]
    requires m.subCounters.Keys - {k} <= sc.Keys
    ensures RemovesKey(m, Forget(m, k).(hierarchy := h, weights := w, subCounters := sc), k)
  {
  }

  lemma RemoveKeepsInv(m: Manager, r: Manager, k: Key)
    requires Inv(m) && RemovesKey(m, r, k)
    ensures Inv(r)
  {
    RemoveKeepsLists(m, r, k);
    RemoveKeepsCounters(m, r, k);
    RemoveKeepsOrder(m, r, k);
  }

  lemma RemoveKeepsLists(m: Manager, r: Manager, k: Key)
    requires ListsShaped(m) && RemovesKey(m, r, k)
    ensures ListsShaped(r)
  {
  }

  lemma RemoveKeepsCounters(m: Manager, r: Manager, k: Key)
    requires CountersAhead(m) && RemovesKey(m, r, k)
    ensures CountersAhead(r)
  {
    forall x | Below(m, x) ensures Below(r, x) { BelowShrinks(m, r, x); }
  }

  lemma RemoveKeepsOrder(m: Manager, r: Manager, k: Key)
    requires OrderMatches(m) && RemovesKey(m, r, k)
    ensures OrderMatches(r)
  {
    WithoutKeeps(m.order, {k});
    forall p, c | p in r.hierarchy ensures multiset(r.hierarchy[p])[c] <= 1
    {
      assert multiset(m.hierarchy[p])[c] <= 1;
      if r.hierarchy[p] != m.hierarchy[p] {
        assert multiset(r.hierarchy[p]) == multiset(m.hierarchy[p]) - multiset{k};
      }
    }
  }

  /** Taking `k` out of its owner's list, where a live key can only be, leaves it in no list. */
  lemma UnlistedEverywhere(m: Manager, k: Key)
    requires ListsShaped(m) && OrderMatches(m)
    ensures var h := Unlist(m.hierarchy, FindParent(m, k), k);
      forall q :: q in h ==> k !in h[q]
  {
    var h := Unlist(m.hierarchy, FindParent(m, k), k);
    forall q | q in h ensures k !in h[q]
    {
      if FindParent(m, k) == Some(q) {
        assert multiset(PyStr.RemoveFirst(m.hierarchy[q], k))[k] == 0;
      }
    }
  }

  /**
   * `complete_subphase`: a live key leaves `task_ids`, its data and the
   * creation order go, and its owner's list no longer holds it. Anything
   * else is ignored.
   */
  function CompleteSubphase(m: Manager, k: Key): (r: Manager)
    requires Inv(m)
    ensures Inv(r)
    ensures !Live(m, k) ==> r == m
    ensures Live(m, k) ==> Gone(r, k) && r.ids == m.ids - {k}
    ensures forall x :: x != k ==> Lookup(r.totals, x) == Lookup(m.totals, x)
    ensures forall x :: x != k ==> Lookup(r.completed, x) == Lookup(m.completed, x)
    ensures forall x :: x != k ==> Lookup(r.states, x) == Lookup(m.states, x)
    ensures forall x :: x != k ==> Lookup(r.names, x) == Lookup(m.names, x)
    ensures forall q :: q in m.hierarchy <==> q in r.hierarchy
  {
    if !Live(m, k) then m
    else
      var parent := FindParent(m, k);
      var r := Forget(m, k).(hierarchy := Unlist(m.hierarchy, parent, k));
      UnlistChanges(m.hierarchy, parent, k);
      ForgetRemovesKey(m, k, r.hierarchy, r.weights, r.subCounters);
      WithoutKeeps(m.order, {k});
      RemoveKeepsInv(m, r, k);
      UnlistedEverywhere(m, k);
      r
  }

  /**
   * `complete_phase` as written: the count is set to the total (100 when the
   * total is not positive), the parent is rolled up, and then the phase is
   * taken out of `task_ids`, its data, its weight, its own list and its
   * parent's list. Sub-phases listed under it stay live. A key that is not
   * live is ignored.
   */
  function CompletePhaseAsWritten(m: Manager, k: Key): (r: Manager)
    requires Inv(m)
    ensures Inv(r)
    ensures !Live(m, k) ==> r == m
    ensures Live(m, k) ==> Gone(r, k) && k !in r.weights && k !in r.hierarchy && k !in r.subCounters
    ensures Live(m, k) ==> r.ids == m.ids - {k}
  {
    if !Live(m, k) then m
    else
      var m2 := FinishPhase(m, k);
      var r := Forget(m2, k).(hierarchy := Unlist(m2.hierarchy, FindParent(m2, k), k) - {k},
                               weights := m2.weights - {k}, subCounters := m2.subCounters - {k});
      UnlistChanges(m2.hierarchy, FindParent(m2, k), k);
      ForgetRemovesKey(m2, k, r.hierarchy, r.weights, r.subCounters);
      WithoutKeeps(m2.order, {k});
      RemoveKeepsInv(m2, r, k);
      UnlistedEverywhere(m2, k);
      r
  }

  /** `complete_phase`'s first step: the count set to the total, or to 100 when the total is not positive. */
  function MarkFull(m: Manager, k: Key): (r: Manager)
    requires Inv(m) && Live(m, k)
    ensures Inv(r) && r == m.(completed := r.completed) && r.completed.Keys == m.completed.Keys
    ensures r.completed[k] == (if m.totals[k] > 0 then m.totals[k] else 100)
    ensures forall x :: x in m.completed && x != k ==> r.completed[x] == m.completed[x]
  {
    var total := m.totals[k];
    var r := m.(completed := m.completed[k := if total > 0 then total else 100]);
    EditKeepsInv(m, r);
    r
  }

  /** The first half of `complete_phase`: the count made full, the parent rolled up, the state made completed. */
  function FinishPhase(m: Manager, k: Key): (r: Manager)
    requires Inv(m) && Live(m, k)
    ensures Inv(r) && r.ids == m.ids && r.hierarchy == m.hierarchy && r.weights == m.weights && r.order == m.order
    ensures r.totals == m.totals && r.states == m.states[k := Done]
    ensures r.completed == UpdateParent(MarkFull(m, k), k).completed
    ensures r.completed[k] == (if m.totals[k] > 0 then m.totals[k] else 100)
  {
    var m2 := UpdateParent(MarkFull(m, k), k);
    var r := m2.(states := m2.states[k := Done]);
    EditKeepsInv(m2, r);
    r
  }

  /**
   * `complete_phase` with the roll-up it evidently intends: as written, but
   * the phase stays in its parent's list with its weight, so that later
   * roll-ups count it as finished, which `_update_parent_progress` is
   * written to do.
   */
  function CompletePhase(m: Manager, k: Key): (r: Manager)
    requires Inv(m)
    ensures Inv(r)
    ensures !Live(m, k) ==> r == m
    ensures Live(m, k) ==> (k !in r.ids && k !in r.totals && k !in r.completed && k !in r.order
      && k !in r.hierarchy && k !in r.subCounters && r.ids == m.ids - {k})
    ensures Live(m, k) ==> r.hierarchy == m.hierarchy - {k} && r.weights == m.weights
  {
    if !Live(m, k) then m
    else
      var m2 := FinishPhase(m, k);
      var r := Forget(m2, k).(hierarchy := m2.hierarchy - {k}, subCounters := m2.subCounters - {k});
      ForgetRemovesKey(m2, k, r.hierarchy, r.weights, r.subCounters);
      WithoutKeeps(m2.order, {k});
      RemoveKeepsInv(m2, r, k);
      r
  }

  /** A child that has left `task_ids` and has no count, but is still listed with its weight, counts as finished. */
  lemma GoneCountsFull(m: Manager, r: Manager, k: Key)
    requires r.hierarchy == m.hierarchy - {k} && r.weights == m.weights && k !in r.completed && k !in r.ids
    ensures FindParent(m, k).Some? ==> FindParent(r, k) == FindParent(m, k)
    ensures WeightOf(r, k) == WeightOf(m, k) && SiblingProgress(r, k) == 1.0
  {
    if FindParent(m, k).Some? {
      assert k.owner != k;
    }
  }

  /** After the corrected `complete_phase`, the phase still counts in its parent's roll-up, as finished and with its weight. */
  lemma CompletedPhaseCountsFull(m: Manager, k: Key)
    requires Inv(m) && Live(m, k)
    ensures var r := CompletePhase(m, k);
      (FindParent(m, k).Some? ==> FindParent(r, k) == FindParent(m, k))
      && WeightOf(r, k) == WeightOf(m, k) && SiblingProgress(r, k) == 1.0
  {
    GoneCountsFull(m, CompletePhase(m, k), k);
  }

  // ---------------------------------------------------------------------
  // A file with two phases of equal weight: finishing the first and then
  // reporting 10% of the second.

  /** A live file listing two live phases `a` and `b`, each of weight 0.5 and total 100, with nothing done. */
  ghost predicate TwoPhaseFile(m: Manager, f: Key, a: Key, b: Key)
  {
    Inv(m) && f.File? && f in m.ids && a in m.ids && b in m.ids && a != b
    && a.Phase? && a.owner == f && b.Phase? && b.owner == f
    && f in m.hierarchy && m.hierarchy[f] == [a, b]
    && a in m.totals && a in m.completed && m.totals[a] == 100 && m.completed[a] == 0 && WeightOf(m, a) == 0.5
    && b in m.totals && b in m.completed && m.totals[b] == 100 && m.completed[b] == 0 && WeightOf(m, b) == 0.5
  }

  /** A file with one phase, as `start_file` and `start_phase` leave it. */
  function OnePhase(): (r: (Manager, Key, Key))
    ensures Inv(r.0) && r.1 == File(0) && r.2 == Phase(File(0), 0) && r.0.ids == {r.1, r.2}
    ensures r.0.hierarchy[r.1] == [r.2]
    ensures r.0.totals[r.2] == 100 && r.0.completed[r.2] == 0 && WeightOf(r.0, r.2) == 0.5
  {
    var (m1, f) := StartFile(NewManager(), "doc");
    var s2 := StartPhase(m1, f, "a", 0.5, Some(100));
    (s2.value.0, f, s2.value.1)
  }

  /** The same file after a second `start_phase`. */
  function TwoPhases(): (r: (Manager, Key, Key, Key))
    ensures TwoPhaseFile(r.0, r.1, r.2, r.3)
  {
    var (m2, f, a) := OnePhase();
    var s3 := StartPhase(m2, f, "b", 0.5, Some(100));
    var (m3, b) := s3.value;
    SecondPhase(m2, f, a, m3, b);
    (m3, f, a, b)
  }

  /** What `start_phase` promises about a second phase makes the file a two-phase one. */
  lemma SecondPhase(m2: Manager, f: Key, a: Key, m3: Manager, b: Key)
    requires f == File(0) && a == Phase(File(0), 0) && m2.ids == {f, a} && f in m2.hierarchy && m2.hierarchy[f] == [a]
    requires a in m2.totals && a in m2.completed && m2.totals[a] == 100 && m2.completed[a] == 0 && WeightOf(m2, a) == 0.5
    requires Inv(m3) && b == Phase(f, 1) && m3.ids == m2.ids + {b}
    requires f in m3.hierarchy && m3.hierarchy[f] == m2.hierarchy[f] + [b]
    requires b in m3.totals && b in m3.completed && m3.totals[b] == 100 && m3.completed[b] == 0 && WeightOf(m3, b) == 0.5
    requires Lookup(m3.totals, a) == Lookup(m2.totals, a) && Lookup(m3.completed, a) == Lookup(m2.completed, a)
    requires Lookup(m3.weights, a) == Lookup(m2.weights, a)
    ensures TwoPhaseFile(m3, f, a, b)
  {
  }

  /** `remove` on a two-element list. */
  lemma RemoveFirstOfPair(a: Key, b: Key)
    ensures PyStr.RemoveFirst([a, b], a) == [b]
  {
    var r := PyStr.RemoveFirst([a, b], a);
    assert |multiset(r)| == 1;
    assert r[0] in multiset(r);
  }

  /** Within its total, a sibling's progress is its count over its total. */
  lemma SiblingRatio(m: Manager, s: Key)
    requires s in m.completed && s in m.totals && m.totals[s] > 0 && 0 <= m.completed[s] <= m.totals[s]
    ensures SiblingProgress(m, s) == m.completed[s] as real / m.totals[s] as real
  {
  }

  /** The sums over a list of two. */
  lemma PairSums(m: Manager, a: Key, b: Key)
    ensures TotalWeight(m, [a, b]) == WeightOf(m, a) + WeightOf(m, b)
    ensures WeightedProgress(m, [a, b]) == SiblingProgress(m, a) * WeightOf(m, a) + SiblingProgress(m, b) * WeightOf(m, b)
  {
    assert [a, b][1..] == [b];
    assert [b][1..] == [];
    assert TotalWeight(m, [b]) == WeightOf(m, b) + TotalWeight(m, []);
    assert WeightedProgress(m, [b]) == SiblingProgress(m, b) * WeightOf(m, b) + WeightedProgress(m, []);
  }

  /** The sums over a list of one. */
  lemma SingleSums(m: Manager, b: Key)
    ensures TotalWeight(m, [b]) == WeightOf(m, b)
    ensures WeightedProgress(m, [b]) == SiblingProgress(m, b) * WeightOf(m, b)
  {
    assert [b][1..] == [];
  }

  /** A list of `a` finished and `b` untouched, of equal weight, rolls up to 50. */
  lemma RollupHalf(m: Manager, f: Key, a: Key, b: Key)
    requires f in m.hierarchy && m.hierarchy[f] == [a, b] && WeightOf(m, a) == 0.5 && WeightOf(m, b) == 0.5
    requires a in m.completed && a in m.totals && m.completed[a] == 100 && m.totals[a] == 100
    requires b in m.completed && b in m.totals && m.completed[b] == 0 && m.totals[b] == 100
    ensures Rollup(m, f) == Some(50)
  {
    SiblingRatio(m, b);
    PairSums(m, a, b);
    assert WeightedProgress(m, [a, b]) / TotalWeight(m, [a, b]) == 0.5;
  }

  /** A list of `b` alone at 10 of 100 rolls up to 10, whatever its weight. */
  lemma RollupTenthAlone(m: Manager, f: Key, b: Key)
    requires f in m.hierarchy && m.hierarchy[f] == [b] && WeightOf(m, b) == 0.5
    requires b in m.completed && b in m.totals && m.completed[b] == 10 && m.totals[b] == 100
    ensures Rollup(m, f) == Some(10)
  {
    SiblingRatio(m, b);
    SingleSums(m, b);
    assert WeightedProgress(m, [b]) == 0.05;
  }

  /** A list of `a`, finished and gone, and `b` at 10 of 100, of equal weight, rolls up to 55. */
  lemma RollupGoneAndTenth(m: Manager, f: Key, a: Key, b: Key)
    requires f in m.hierarchy && m.hierarchy[f] == [a, b] && WeightOf(m, a) == 0.5 && WeightOf(m, b) == 0.5
    requires a !in m.completed && a !in m.ids
    requires b in m.completed && b in m.totals && m.completed[b] == 10 && m.totals[b] == 100
    ensures Rollup(m, f) == Some(55)
  {
    SiblingRatio(m, b);
    PairSums(m, a, b);
    assert WeightedProgress(m, [a, b]) == 0.55;
  }

  /** Finishing `a` rolls the file up to 50%. */
  lemma FinishFirstOfTwo(m: Manager, f: Key, a: Key, b: Key)
    requires TwoPhaseFile(m, f, a, b)
    ensures FinishPhase(m, a).completed[f] == 50
  {
    var m1 := MarkFull(m, a);
    assert FindParent(m1, a) == Some(f);
    RollupHalf(m1, f, a, b);
  }

  /** As written, finishing `a` leaves `b` alone in the file's list. */
  lemma AsWrittenDropsFirst(m: Manager, f: Key, a: Key, b: Key)
    requires TwoPhaseFile(m, f, a, b)
    ensures var m1 := CompletePhaseAsWritten(m, a);
      Inv(m1) && f in m1.hierarchy && m1.hierarchy[f] == [b] && Lookup(m1.completed, f) == Some(50)
      && b in m1.ids && f in m1.ids && Lookup(m1.totals, b) == Some(100) && WeightOf(m1, b) == 0.5
  {
    FinishFirstOfTwo(m, f, a, b);
    var m2 := FinishPhase(m, a);
    assert FindParent(m2, a) == Some(f);
    RemoveFirstOfPair(a, b);
    var m1 := Forget(m2, a).(hierarchy := Unlist(m2.hierarchy, FindParent(m2, a), a) - {a},
                              weights := m2.weights - {a}, subCounters := m2.subCounters - {a});
    assert CompletePhaseAsWritten(m, a) == m1;
    assert m1.hierarchy[f] == [b];
  }

  /**
   * As written, finishing `a` brings the file to 50%, but once `a` has left
   * the file's list, 10% of `b` is the file's whole progress: it falls to 10%.
   */
  lemma ProgressFallsAsWritten(m: Manager, f: Key, a: Key, b: Key)
    requires TwoPhaseFile(m, f, a, b)
    ensures var m1 := CompletePhaseAsWritten(m, a);
      var m2 := UpdatePhase(m1, b, Some(10), 0);
      Lookup(m1.completed, f) == Some(50) && Lookup(m2.completed, f) == Some(10)
  {
    AsWrittenDropsFirst(m, f, a, b);
    var m1 := CompletePhaseAsWritten(m, a);
    var m3 := RecordPhase(m1, b, Some(10), 0);
    assert UpdatePhase(m1, b, Some(10), 0) == UpdateParent(m3, b);
    RollupTenthAlone(m3, f, b);
    assert FindParent(m3, b) == Some(f);
  }

  /** With the correction, finishing `a` leaves both phases in the file's list. */
  lemma CorrectedKeepsFirst(m: Manager, f: Key, a: Key, b: Key)
    requires TwoPhaseFile(m, f, a, b)
    ensures var m1 := CompletePhase(m, a);
      Inv(m1) && f in m1.hierarchy && m1.hierarchy[f] == [a, b] && Lookup(m1.completed, f) == Some(50)
      && b in m1.ids && f in m1.ids && a !in m1.ids && Lookup(m1.totals, b) == Some(100)
      && Lookup(m1.completed, b) == Some(0) && a !in m1.completed
      && WeightOf(m1, a) == 0.5 && WeightOf(m1, b) == 0.5
  {
    FinishFirstOfTwo(m, f, a, b);
    var mf := MarkFull(m, a);
    assert b in m.hierarchy[f] && b != f && mf.completed[b] == 0;
    FindParentIsListHolder(mf, a, f);
    UpdateParentElsewhere(mf, a, b);
    var m2 := FinishPhase(m, a);
    var m1 := Forget(m2, a).(hierarchy := m2.hierarchy - {a}, subCounters := m2.subCounters - {a});
    assert CompletePhase(m, a) == m1;
  }

  /** With the phase kept in its parent's list, the file goes from 50% to 55%. */
  lemma ProgressGrowsCorrected(m: Manager, f: Key, a: Key, b: Key)
    requires TwoPhaseFile(m, f, a, b)
    ensures var m1 := CompletePhase(m, a);
      var m2 := UpdatePhase(m1, b, Some(10), 0);
      Lookup(m1.completed, f) == Some(50) && Lookup(m2.completed, f) == Some(55)
  {
    CorrectedKeepsFirst(m, f, a, b);
    var m1 := CompletePhase(m, a);
    var m3 := RecordPhase(m1, b, Some(10), 0);
    assert UpdatePhase(m1, b, Some(10), 0) == UpdateParent(m3, b);
    RollupGoneAndTenth(m3, f, a, b);
    assert FindParent(m3, b) == Some(f);
  }

  /** The state `start_file` and two `start_phase` calls build has that shape, so both runs happen. */
  lemma TwoPhasesReachable()
    ensures var (m, f, a, b) := TwoPhases();
      Lookup(CompletePhaseAsWritten(m, a).completed, f) == Some(50)
      && Lookup(UpdatePhase(CompletePhaseAsWritten(m, a), b, Some(10), 0).completed, f) == Some(10)
      && Lookup(UpdatePhase(CompletePhase(m, a), b, Some(10), 0).completed, f) == Some(55)
  {
    var (m, f, a, b) := TwoPhases();
    ProgressFallsAsWritten(m, f, a, b);
    ProgressGrowsCorrected(m, f, a, b);
  }
}
