/**
 * What the three-way merge promises (src/patch/patchMerge.ts): stealing
 * partitions a dictionary, `$set` conflicts leave no key on both sides,
 * pull conflicts neither lose nor duplicate the other side's entries, the
 * decisions are applied by index, and the leftovers reach the result.
 */
module MergeProps {
  import opened Wrappers
  import opened Values
  import opened Dict
  import opened Patch
  import opened PatchMerge
  import ArraySet

  // ---------------------------------------------------------------------------
  // Stealing

  /** `_stealKeyMatches` returns exactly the entries below the prefix and leaves exactly the others. */
  lemma {:induction false} StealMembers<V>(m: seq<(Path, V)>, prefix: Path, n: nat)
    requires n <= |m|
    ensures forall i :: 0 <= i < |Matching(m, prefix, n)| ==>
              Matching(m, prefix, n)[i] in m[..n] && Below(Matching(m, prefix, n)[i].0, prefix)
    ensures forall i :: 0 <= i < |Remaining(m, prefix, n)| ==>
              Remaining(m, prefix, n)[i] in m[..n] && !Below(Remaining(m, prefix, n)[i].0, prefix)
    ensures forall i :: 0 <= i < n ==>
              if Below(m[i].0, prefix) then m[i] in Matching(m, prefix, n) else m[i] in Remaining(m, prefix, n)
  {
    if n > 0 {
      StealMembers(m, prefix, n - 1);
      assert m[..n] == m[..n - 1] + [m[n - 1]];
      var a, b := Matching(m, prefix, n - 1), Remaining(m, prefix, n - 1);
      if Below(m[n - 1].0, prefix) {
        assert Matching(m, prefix, n) == a + [m[n - 1]] && Remaining(m, prefix, n) == b;
      } else {
        assert Matching(m, prefix, n) == a && Remaining(m, prefix, n) == b + [m[n - 1]];
      }
    }
  }

  /** One more entry lands on exactly one side of the steal. */
  lemma StealStep<V>(m: seq<(Path, V)>, prefix: Path, n: nat)
    requires 0 < n <= |m|
    ensures multiset(Matching(m, prefix, n)) + multiset(Remaining(m, prefix, n))
         == multiset(Matching(m, prefix, n - 1)) + multiset(Remaining(m, prefix, n - 1)) + multiset{m[n - 1]}
  {
    var a, b, x := Matching(m, prefix, n - 1), Remaining(m, prefix, n - 1), m[n - 1];
    if Below(x.0, prefix) {
      assert Matching(m, prefix, n) == a + [x];
    } else {
      assert Remaining(m, prefix, n) == b + [x];
    }
  }

  /** Every entry lands on exactly one side of the steal. */
  lemma {:induction false} StealPartition<V>(m: seq<(Path, V)>, prefix: Path, n: nat)
    requires n <= |m|
    ensures multiset(Matching(m, prefix, n)) + multiset(Remaining(m, prefix, n)) == multiset(m[..n])
  {
    if n > 0 {
      var x := m[n - 1];
      calc {
        multiset(Matching(m, prefix, n)) + multiset(Remaining(m, prefix, n));
        { StealStep(m, prefix, n); }
        multiset(Matching(m, prefix, n - 1)) + multiset(Remaining(m, prefix, n - 1)) + multiset{x};
        { StealPartition(m, prefix, n - 1); }
        multiset(m[..n - 1]) + multiset{x};
        { assert m[..n] == m[..n - 1] + [x]; }
        multiset(m[..n]);
      }
    }
  }

  /** With nothing below the prefix, the dictionary is left as it was. */
  lemma {:induction false} StealNothing<V>(m: seq<(Path, V)>, prefix: Path, n: nat)
    requires n <= |m|
    requires Matching(m, prefix, n) == []
    ensures Remaining(m, prefix, n) == m[..n]
  {
    if n > 0 {
      assert m[..n] == m[..n - 1] + [m[n - 1]];
      StealNothing(m, prefix, n - 1);
    }
  }

  // ---------------------------------------------------------------------------
  // Dictionary facts

  lemma {:induction false} ValueOfDelete(m: seq<(Path, Value)>, d: Path, k: Path)
    requires d != k
    ensures ValueOf(Delete(m, d), k) == ValueOf(m, k)
  {
    if m != [] {
      ValueOfDelete(m[1..], d, k);
    }
  }

  lemma {:induction false} ValueOfUnique(m: seq<(Path, Value)>, i: nat)
    requires i < |m| && UniqueKeys(m)
    ensures ValueOf(m, m[i].0) == m[i].1
  {
    if i > 0 {
      assert m[0].0 != m[i].0;
      ValueOfUnique(m[1..], i - 1);
    }
  }

  lemma {:induction false} DeleteKeys(m: seq<(Path, Value)>, d: Path)
    ensures forall k :: k in KeysOf(Delete(m, d)) <==> k in KeysOf(m) && k != d
  {
    DeleteSpec(m, d);
    forall k ensures k in KeysOf(Delete(m, d)) <==> k in KeysOf(m) && k != d {
      if k in KeysOf(Delete(m, d)) {
        var i :| 0 <= i < |Delete(m, d)| && Delete(m, d)[i].0 == k;
        assert Delete(m, d)[i] in m;
      }
      if k in KeysOf(m) && k != d {
        var i :| 0 <= i < |m| && m[i].0 == k;
        assert m[i] in Delete(m, d);
      }
    }
  }

  /** A key that is not among the keys reads as `undefined`. */
  lemma {:induction false} ValueOfAbsent(m: seq<(Path, Value)>, k: Path)
    requires k !in KeysOf(m)
    ensures ValueOf(m, k) == Undef
  {
    if m != [] {
      assert m[0].0 == KeysOf(m)[0];
      assert forall j :: 0 <= j < |m[1..]| ==> KeysOf(m[1..])[j] == KeysOf(m)[j + 1];
      ValueOfAbsent(m[1..], k);
    }
  }

  /** No element occurs twice. */
  ghost predicate Distinct<T>(s: seq<T>)
  {
    forall i, j :: 0 <= i < j < |s| ==> s[i] != s[j]
  }

  /** The shared keys come in local order, so they repeat no key when the local keys do not. */
  lemma {:induction false} IntersectionDistinct<T(!new)>(a: seq<T>, b: seq<T>)
    requires Distinct(a)
    ensures Distinct(ArraySet.Intersection(a, b))
  {
    if a != [] {
      assert Distinct(a[1..]) by {
        forall i, j | 0 <= i < j < |a[1..]| ensures a[1..][i] != a[1..][j] {
          assert a[1..][i] == a[i + 1] && a[1..][j] == a[j + 1];
        }
      }
      IntersectionDistinct(a[1..], b);
      var t := ArraySet.Intersection(a[1..], b);
      assert a[0] !in t by {
        forall j | 0 <= j < |a[1..]| ensures a[1..][j] != a[0] {
          assert a[1..][j] == a[j + 1];
        }
      }
      if a[0] in b {
        var r := [a[0]] + t;
        forall i, j | 0 <= i < j < |r| ensures r[i] != r[j] {
          if i == 0 {
            assert r[j] == t[j - 1] && t[j - 1] in t;
          } else {
            assert r[i] == t[i - 1] && r[j] == t[j - 1];
          }
        }
      }
    }
  }

  // ---------------------------------------------------------------------------
  // `$set` conflicts

  /** A `$set` conflict: two single-key fragments for one key with different values; `eAuto` keeps the local one. */
  predicate SetConflictShape(c: Conflict)
  {
    c.autoDecision == eLocal
    && |c.local.sets| == 1 && |c.remote.sets| == 1
    && c.local.sets[0].0 == c.remote.sets[0].0 && c.local.sets[0].1 != c.remote.sets[0].1
    && c.local.pushes == [] && c.local.pulls == [] && c.remote.pushes == [] && c.remote.pulls == []
  }

  /** Entries only leave the two sides, and a processed key has left the local side. */
  lemma {:induction false} SetStepsShrink(keys: seq<Path>, init: SetScan, n: nat)
    requires n <= |keys|
    ensures forall e :: e in SetSteps(keys, init, n).local ==> e in init.local && e.0 !in keys[..n]
    ensures forall e :: e in SetSteps(keys, init, n).remote ==> e in init.remote
  {
    if n > 0 {
      SetStepsShrink(keys, init, n - 1);
      var s := SetSteps(keys, init, n - 1);
      var key := keys[n - 1];
      var t := SetStep(s, key);
      assert SetSteps(keys, init, n) == t;
      DeleteSpec(s.local, key);
      DeleteSpec(s.remote, key);
      assert t.local == Delete(s.local, key);
      assert keys[..n] == keys[..n - 1] + [key];
    }
  }

  /** The loop only appends conflicts, each of the `$set` shape. */
  lemma {:induction false} SetStepsConflicts(keys: seq<Path>, init: SetScan, n: nat)
    requires n <= |keys|
    ensures |init.conflicts| <= |SetSteps(keys, init, n).conflicts|
    ensures SetSteps(keys, init, n).conflicts[..|init.conflicts|] == init.conflicts
    ensures forall i :: |init.conflicts| <= i < |SetSteps(keys, init, n).conflicts| ==> SetConflictShape(SetSteps(keys, init, n).conflicts[i])
  {
    if n > 0 {
      SetStepsConflicts(keys, init, n - 1);
    }
  }

  /** An entry's key is among the keys. */
  lemma KeyOfEntry<V>(m: seq<(Path, V)>, e: (Path, V))
    requires e in m
    ensures e.0 in KeysOf(m)
  {
    var p :| 0 <= p < |m| && m[p] == e;
    assert KeysOf(m)[p] == e.0;
  }

  /** After `_getSetConflicts` no key is set on both sides, and every conflict has the `$set` shape. */
  lemma SetConflictsDisjoint(local: seq<(Path, Value)>, remote: seq<(Path, Value)>)
    ensures var s := SetConflicts(local, remote);
            forall i, j :: 0 <= i < |s.local| && 0 <= j < |s.remote| ==> s.local[i].0 != s.remote[j].0
    ensures forall c :: c in SetConflicts(local, remote).conflicts ==> SetConflictShape(c)
  {
    var keys := SharedKeys(local, remote);
    var s := SetConflicts(local, remote);
    SetStepsShrink(keys, SetScan([], local, remote), |keys|);
    SetStepsConflicts(keys, SetScan([], local, remote), |keys|);
    assert keys[..|keys|] == keys;
    forall i, j | 0 <= i < |s.local| && 0 <= j < |s.remote| ensures s.local[i].0 != s.remote[j].0 {
      KeyOfEntry(local, s.local[i]);
      KeyOfEntry(remote, s.remote[j]);
      assert s.local[i].0 !in keys;
    }
    forall c | c in s.conflicts ensures SetConflictShape(c) {
      var i :| 0 <= i < |s.conflicts| && s.conflicts[i] == c;
    }
  }

  /** Between steps `m` and `n` the loop only touches the keys `keys[m..n]`, and keeps its earlier conflicts. */
  lemma {:induction false} SetStepsFrame(keys: seq<Path>, init: SetScan, m: nat, n: nat, k: Path)
    requires m <= n <= |keys| && k !in keys[m..n]
    ensures ValueOf(SetSteps(keys, init, n).local, k) == ValueOf(SetSteps(keys, init, m).local, k)
    ensures ValueOf(SetSteps(keys, init, n).remote, k) == ValueOf(SetSteps(keys, init, m).remote, k)
    ensures k in KeysOf(SetSteps(keys, init, n).remote) <==> k in KeysOf(SetSteps(keys, init, m).remote)
    ensures forall c :: c in SetSteps(keys, init, m).conflicts ==> c in SetSteps(keys, init, n).conflicts
  {
    if m < n {
      assert keys[m..n] == keys[m..n - 1] + [keys[n - 1]];
      SetStepsFrame(keys, init, m, n - 1, k);
      var s := SetSteps(keys, init, n - 1);
      ValueOfDelete(s.local, keys[n - 1], k);
      ValueOfDelete(s.remote, keys[n - 1], k);
      DeleteKeys(s.remote, keys[n - 1]);
    }
  }

  /** A removed key is gone for good: later steps only delete. */
  lemma {:induction false} SetStepsGone(keys: seq<Path>, init: SetScan, m: nat, n: nat, k: Path)
    requires m <= n <= |keys| && k !in KeysOf(SetSteps(keys, init, m).remote)
    ensures k !in KeysOf(SetSteps(keys, init, n).remote)
  {
    if m < n {
      SetStepsGone(keys, init, m, n - 1, k);
      DeleteKeys(SetSteps(keys, init, n - 1).remote, keys[n - 1]);
    }
  }

  /** The element at `p` of a sequence without repetitions occurs neither before nor after `p`. */
  lemma DistinctAt<T>(s: seq<T>, p: nat)
    requires Distinct(s) && p < |s|
    ensures s[p] !in s[..p] && s[p] !in s[p + 1..]
  {
    forall j | 0 <= j < p ensures s[..p][j] != s[p] { }
    var t := s[p + 1..];
    forall j | 0 <= j < |t| ensures t[j] != s[p] {
      assert t[j] == s[p + 1 + j];
    }
  }

  /** The step for a shared key, reached with the key's original values. */
  lemma SetStepAt(keys: seq<Path>, init: SetScan, p: nat)
    requires p < |keys| && keys[p] !in keys[..p]
    ensures var k, q := keys[p], SetSteps(keys, init, p + 1);
            var lv, rv := ValueOf(init.local, k), ValueOf(init.remote, k);
            k !in KeysOf(q.local)
            && (lv == rv ==> ValueOf(q.remote, k) == rv && (k in KeysOf(q.remote) <==> k in KeysOf(init.remote)))
            && (lv != rv ==> k !in KeysOf(q.remote)
                             && Conflict(eLocal, Update([(k, lv)], [], []), Update([(k, rv)], [], [])) in q.conflicts)
  {
    var k := keys[p];
    assert keys[0..p] == keys[..p];
    SetStepsFrame(keys, init, 0, p, k);
    var q := SetSteps(keys, init, p);
    DeleteKeys(q.local, k);
    DeleteKeys(q.remote, k);
  }

  /** A key set on one side only is left alone. */
  lemma SetConflictsUnshared(local: seq<(Path, Value)>, remote: seq<(Path, Value)>, k: Path)
    requires k !in KeysOf(local) || k !in KeysOf(remote)
    ensures ValueOf(SetConflicts(local, remote).local, k) == ValueOf(local, k)
    ensures ValueOf(SetConflicts(local, remote).remote, k) == ValueOf(remote, k)
  {
    var keys := SharedKeys(local, remote);
    assert k !in keys;
    assert keys[0..|keys|] == keys;
    SetStepsFrame(keys, SetScan([], local, remote), 0, |keys|, k);
  }

  /**
   * `_getSetConflicts` on a key set on both sides: to the same value, it
   * stays only on the remote side; to different values, it leaves both sides
   * and becomes a conflict of the two values, which `eAuto` resolves to the
   * local one.
   */
  lemma SetConflictsShared(local: seq<(Path, Value)>, remote: seq<(Path, Value)>, k: Path)
    requires UniqueKeys(local) && k in KeysOf(local) && k in KeysOf(remote)
    ensures var s := SetConflicts(local, remote);
            var lv, rv := ValueOf(local, k), ValueOf(remote, k);
            k !in KeysOf(s.local)
            && (lv == rv ==> ValueOf(s.remote, k) == rv && k in KeysOf(s.remote))
            && (lv != rv ==> k !in KeysOf(s.remote)
                             && Conflict(eLocal, Update([(k, lv)], [], []), Update([(k, rv)], [], [])) in s.conflicts)
  {
    var keys := SharedKeys(local, remote);
    var init := SetScan([], local, remote);
    assert k in keys;
    var p :| 0 <= p < |keys| && keys[p] == k;
    assert Distinct(KeysOf(local));
    IntersectionDistinct(KeysOf(local), KeysOf(remote));
    DistinctAt(keys, p);
    SetStepsLocalGone(keys, init, k);
    SetStepsSharedRemote(keys, init, p);
  }

  /** A key the loop visits is gone from the local `$set` at the end. */
  lemma SetStepsLocalGone(keys: seq<Path>, init: SetScan, k: Path)
    requires k in keys
    ensures k !in KeysOf(SetSteps(keys, init, |keys|).local)
  {
    SetStepsShrink(keys, init, |keys|);
    assert keys[..|keys|] == keys;
  }

  /** The remote `$set` and the conflicts at the end of the loop, for a key visited once. */
  lemma SetStepsSharedRemote(keys: seq<Path>, init: SetScan, p: nat)
    requires p < |keys| && keys[p] !in keys[..p] && keys[p] !in keys[p + 1..]
    ensures var k, s := keys[p], SetSteps(keys, init, |keys|);
            var lv, rv := ValueOf(init.local, k), ValueOf(init.remote, k);
            (lv == rv ==> ValueOf(s.remote, k) == rv && (k in KeysOf(s.remote) <==> k in KeysOf(init.remote)))
            && (lv != rv ==> k !in KeysOf(s.remote)
                             && Conflict(eLocal, Update([(k, lv)], [], []), Update([(k, rv)], [], [])) in s.conflicts)
  {
    var k := keys[p];
    SetStepAt(keys, init, p);
    assert keys[p + 1..|keys|] == keys[p + 1..];
    SetStepsFrame(keys, init, p + 1, |keys|, k);
    if ValueOf(init.local, k) != ValueOf(init.remote, k) {
      SetStepsGone(keys, init, p + 1, |keys|, k);
    }
  }

  // ---------------------------------------------------------------------------
  // Pull conflicts

  /** The side of a pull conflict that pulls. */
  function PullSide(c: Conflict, pullIsLocal: bool): Update
  {
    if pullIsLocal then c.local else c.remote
  }

  /** The side of a pull conflict that holds the entries taken from the other patch. */
  function TakenSide(c: Conflict, pullIsLocal: bool): Update
  {
    if pullIsLocal then c.remote else c.local
  }

  /**
   * A pull conflict: `eAuto` picks the pulling side, which pulls one element
   * of one sub-model array; the other side holds a non-empty fragment whose
   * every key lies below that element's path.
   */
  predicate PullConflictShape(c: Conflict, pullIsLocal: bool)
  {
    var pull, taken := PullSide(c, pullIsLocal), TakenSide(c, pullIsLocal);
    c.autoDecision == (if pullIsLocal then eLocal else eRemote)
    && pull.sets == [] && pull.pushes == [] && |pull.pulls| == 1
    && pull.pulls[0].1.dataType == ArrayType.eSubModel && |pull.pulls[0].1.idsAndPositions| == 1
    && !IsEmpty(taken)
    && var prefix := pull.pulls[0].0 + [pull.pulls[0].1.idsAndPositions[0].position];
       (forall i :: 0 <= i < |taken.sets| ==> Below(taken.sets[i].0, prefix))
       && (forall i :: 0 <= i < |taken.pushes| ==> Below(taken.pushes[i].0, prefix))
       && (forall i :: 0 <= i < |taken.pulls| ==> Below(taken.pulls[i].0, prefix))
  }

  /** The elements a list of pull conflicts pulls, in order. */
  function PulledIds(cs: seq<Conflict>, pullIsLocal: bool): seq<IdPos>
  {
    if cs == [] then []
    else
      var pull := PullSide(cs[|cs| - 1], pullIsLocal);
      PulledIds(cs[..|cs| - 1], pullIsLocal) + (if pull.pulls == [] then [] else pull.pulls[0].1.idsAndPositions)
  }

  /** The entries a list of pull conflicts took from the other patch, dictionary by dictionary. */
  function TakenFrom(cs: seq<Conflict>, pullIsLocal: bool): Update
  {
    if cs == [] then NoUpdates
    else
      var t, o := TakenFrom(cs[..|cs| - 1], pullIsLocal), TakenSide(cs[|cs| - 1], pullIsLocal);
      Update(t.sets + o.sets, t.pushes + o.pushes, t.pulls + o.pulls)
  }

  /** All entries of a patch and of what conflicts took from it, as one bag per dictionary. */
  ghost function Pool(other: Update, taken: Update): (multiset<(Path, Value)>, multiset<(Path, ArrayOp)>, multiset<(Path, ArrayOp)>)
  {
    (multiset(other.sets) + multiset(taken.sets),
     multiset(other.pushes) + multiset(taken.pushes),
     multiset(other.pulls) + multiset(taken.pulls))
  }

  /** The elements of all entries of a `$pull` dictionary. */
  ghost function IdsBag(m: seq<(Path, ArrayOp)>): multiset<IdPos>
  {
    if m == [] then multiset{} else multiset(m[0].1.idsAndPositions) + IdsBag(m[1..])
  }

  lemma {:induction false} IdsBagAppend(a: seq<(Path, ArrayOp)>, b: seq<(Path, ArrayOp)>)
    ensures IdsBag(a + b) == IdsBag(a) + IdsBag(b)
  {
    if a != [] {
      calc {
        IdsBag(a + b);
        { assert (a + b)[0] == a[0] && (a + b)[1..] == a[1..] + b; }
        multiset(a[0].1.idsAndPositions) + IdsBag(a[1..] + b);
        { IdsBagAppend(a[1..], b); }
        multiset(a[0].1.idsAndPositions) + IdsBag(a[1..]) + IdsBag(b);
        IdsBag(a) + IdsBag(b);
      }
    } else {
      assert a + b == b;
    }
  }

  /** Appending a conflict appends what it pulls and what it took. */
  lemma AppendConflict(cs: seq<Conflict>, c: Conflict, pullIsLocal: bool)
    ensures var pull := PullSide(c, pullIsLocal);
            PulledIds(cs + [c], pullIsLocal) == PulledIds(cs, pullIsLocal) + (if pull.pulls == [] then [] else pull.pulls[0].1.idsAndPositions)
    ensures var t, o := TakenFrom(cs, pullIsLocal), TakenSide(c, pullIsLocal);
            TakenFrom(cs + [c], pullIsLocal) == Update(t.sets + o.sets, t.pushes + o.pushes, t.pulls + o.pulls)
  {
    assert (cs + [c])[..|cs|] == cs;
  }

  /** One steal of one dictionary moves its entries below the prefix after `t` and loses none. */
  lemma StealBag<V>(m: seq<(Path, V)>, prefix: Path, t: seq<(Path, V)>)
    ensures multiset(Remaining(m, prefix, |m|)) + multiset(t + Matching(m, prefix, |m|)) == multiset(m) + multiset(t)
  {
    calc {
      multiset(Remaining(m, prefix, |m|)) + multiset(t + Matching(m, prefix, |m|));
      multiset(Remaining(m, prefix, |m|)) + multiset(Matching(m, prefix, |m|)) + multiset(t);
      { StealPartition(m, prefix, |m|); assert m[..|m|] == m; }
      multiset(m) + multiset(t);
    }
  }

  /** One steal moves entries from the patch into the conflict and loses none. */
  lemma StealPool(other: Update, prefix: Path, t: Update)
    ensures var o, l := Stolen(other, prefix), Left(other, prefix);
            Pool(l, Update(t.sets + o.sets, t.pushes + o.pushes, t.pulls + o.pulls)) == Pool(other, t)
  {
    StealBag(other.sets, prefix, t.sets);
    StealBag(other.pushes, prefix, t.pushes);
    StealBag(other.pulls, prefix, t.pulls);
  }

  /** A stolen fragment has the shape of the taken side of a pull conflict. */
  lemma StolenBelow(other: Update, prefix: Path)
    ensures var o := Stolen(other, prefix);
            (forall i :: 0 <= i < |o.sets| ==> Below(o.sets[i].0, prefix))
            && (forall i :: 0 <= i < |o.pushes| ==> Below(o.pushes[i].0, prefix))
            && (forall i :: 0 <= i < |o.pulls| ==> Below(o.pulls[i].0, prefix))
  {
    StealMembers(other.sets, prefix, |other.sets|);
    StealMembers(other.pushes, prefix, |other.pushes|);
    StealMembers(other.pulls, prefix, |other.pulls|);
  }

  lemma BagAssoc<T>(a: multiset<T>, b: multiset<T>, c: multiset<T>)
    ensures a + b + c == a + (b + c)
  {
  }

  /** The bag of the first `n` elements. */
  ghost function PrefixBag<T>(s: seq<T>, n: nat): multiset<T>
    requires n <= |s|
  {
    if n == 0 then multiset{} else PrefixBag(s, n - 1) + multiset{s[n - 1]}
  }

  lemma {:induction false} PrefixBagIsBag<T>(s: seq<T>, n: nat)
    requires n <= |s|
    ensures PrefixBag(s, n) == multiset(s[..n])
  {
    if n > 0 {
      PrefixBagIsBag(s, n - 1);
      assert s[..n] == s[..n - 1] + [s[n - 1]];
    }
  }

  /** The elements an element loop has kept or pulled so far. */
  ghost function Handled(s: ElementScan, pullIsLocal: bool): multiset<IdPos>
  {
    multiset(s.kept) + multiset(PulledIds(s.conflicts, pullIsLocal))
  }

  /** One element: it is either kept or pulled by the new conflict. */
  lemma ElementStepIds(k: Path, pullIsLocal: bool, s: ElementScan, e: IdPos)
    ensures Handled(ElementStep(k, pullIsLocal, s, e), pullIsLocal) == Handled(s, pullIsLocal) + multiset{e}
  {
    var r := ElementStep(k, pullIsLocal, s, e);
    if r.conflicts != s.conflicts {
      AppendConflict(s.conflicts, r.conflicts[|s.conflicts|], pullIsLocal);
      assert r.conflicts == s.conflicts + [r.conflicts[|s.conflicts|]];
    }
  }

  /** The loop over the elements of one sub-model pull entry at `k`: every element is either kept or pulled by exactly one new conflict. */
  lemma ElementStepsIds(k: Path, pullIsLocal: bool, elems: seq<IdPos>, init: ElementScan, n: nat)
    requires n <= |elems|
    ensures Handled(ElementSteps(k, pullIsLocal, elems, init, n), pullIsLocal) == Handled(init, pullIsLocal) + PrefixBag(elems, n)
  {
    var s, i := init, 0;
    while i < n
      invariant i <= n && s == ElementSteps(k, pullIsLocal, elems, init, i)
      invariant Handled(s, pullIsLocal) == Handled(init, pullIsLocal) + PrefixBag(elems, i)
    {
      ElementStepIds(k, pullIsLocal, s, elems[i]);
      ElementStepsNext(k, pullIsLocal, elems, init, i);
      BagAssoc(Handled(init, pullIsLocal), PrefixBag(elems, i), multiset{elems[i]});
      s, i := ElementStep(k, pullIsLocal, s, elems[i]), i + 1;
    }
  }

  /** One element: the other patch's entries either stay or move into the new conflict. */
  lemma ElementStepPool(k: Path, pullIsLocal: bool, s: ElementScan, e: IdPos)
    ensures var r := ElementStep(k, pullIsLocal, s, e);
            Pool(r.other, TakenFrom(r.conflicts, pullIsLocal)) == Pool(s.other, TakenFrom(s.conflicts, pullIsLocal))
  {
    var r := ElementStep(k, pullIsLocal, s, e);
    if r.conflicts != s.conflicts {
      AppendConflict(s.conflicts, r.conflicts[|s.conflicts|], pullIsLocal);
      assert r.conflicts == s.conflicts + [r.conflicts[|s.conflicts|]];
      StealPool(s.other, k + [e.position], TakenFrom(s.conflicts, pullIsLocal));
    }
  }

  /** The same loop: the other patch's entries either stay or move into exactly one new conflict. */
  /** The same loop: the other patch's entries either stay or move into exactly one new conflict. */
  lemma ElementStepsPool(k: Path, pullIsLocal: bool, elems: seq<IdPos>, init: ElementScan, n: nat)
    requires n <= |elems|
    ensures Pool(ElementSteps(k, pullIsLocal, elems, init, n).other, TakenFrom(ElementSteps(k, pullIsLocal, elems, init, n).conflicts, pullIsLocal))
         == Pool(init.other, TakenFrom(init.conflicts, pullIsLocal))
  {
    var s, i := init, 0;
    while i < n
      invariant i <= n && s == ElementSteps(k, pullIsLocal, elems, init, i)
      invariant Pool(s.other, TakenFrom(s.conflicts, pullIsLocal)) == Pool(init.other, TakenFrom(init.conflicts, pullIsLocal))
    {
      ElementStepPool(k, pullIsLocal, s, elems[i]);
      ElementStepsNext(k, pullIsLocal, elems, init, i);
      s, i := ElementStep(k, pullIsLocal, s, elems[i]), i + 1;
    }
  }

  /** `cs` is `base` followed by conflicts that each pull one element of the array at `k`. */
  ghost predicate PullsAppended(k: Path, pullIsLocal: bool, base: seq<Conflict>, cs: seq<Conflict>)
  {
    |base| <= |cs| && cs[..|base|] == base
    && forall i :: |base| <= i < |cs| ==>
         PullConflictShape(cs[i], pullIsLocal) && PullSide(cs[i], pullIsLocal).pulls[0].0 == k
  }

  /** One element only appends a conflict, a pull of that element of the array at `k`. */
  lemma ElementStepShape(k: Path, pullIsLocal: bool, s: ElementScan, e: IdPos, base: seq<Conflict>)
    requires PullsAppended(k, pullIsLocal, base, s.conflicts)
    ensures PullsAppended(k, pullIsLocal, base, ElementStep(k, pullIsLocal, s, e).conflicts)
  {
    var prefix := k + [e.position];
    if !IsEmpty(Stolen(s.other, prefix)) {
      var r := ElementStep(k, pullIsLocal, s, e);
      var c := r.conflicts[|s.conflicts|];
      assert r.conflicts == s.conflicts + [c];
      StolenBelow(s.other, prefix);
      assert PullConflictShape(c, pullIsLocal);
      assert (s.conflicts + [c])[..|base|] == s.conflicts[..|base|];
    }
  }

  lemma ElementStepsShapeAt(k: Path, pullIsLocal: bool, elems: seq<IdPos>, init: ElementScan, n: nat)
    requires 0 < n <= |elems| && PullsAppended(k, pullIsLocal, init.conflicts, ElementSteps(k, pullIsLocal, elems, init, n - 1).conflicts)
    ensures PullsAppended(k, pullIsLocal, init.conflicts, ElementSteps(k, pullIsLocal, elems, init, n).conflicts)
  {
    ElementStepShape(k, pullIsLocal, ElementSteps(k, pullIsLocal, elems, init, n - 1), elems[n - 1], init.conflicts);
  }

  /** The same loop only appends conflicts, each a pull of one element of the array at `k`. */
  lemma {:induction false} ElementStepsShape(k: Path, pullIsLocal: bool, elems: seq<IdPos>, init: ElementScan, n: nat)
    requires n <= |elems|
    ensures PullsAppended(k, pullIsLocal, init.conflicts, ElementSteps(k, pullIsLocal, elems, init, n).conflicts)
  {
    if n > 0 {
      ElementStepsShape(k, pullIsLocal, elems, init, n - 1);
      ElementStepsShapeAt(k, pullIsLocal, elems, init, n);
    }
  }

  /** The elements a pull loop still pulls or has given to conflicts. */
  ghost function PullBag(s: PullScan, pullIsLocal: bool): multiset<IdPos>
  {
    IdsBag(s.pulls) + multiset(PulledIds(s.conflicts, pullIsLocal))
  }

  /** The elements the loop over one sub-model entry's elements keeps or pulls are the entry's elements. */
  lemma EntryElementsHandled(k: Path, pullIsLocal: bool, ids: seq<IdPos>, s: PullScan)
    ensures Handled(ElementSteps(k, pullIsLocal, ids, ElementScan(s.conflicts, [], s.other), |ids|), pullIsLocal)
         == multiset(PulledIds(s.conflicts, pullIsLocal)) + multiset(ids)
  {
    ElementStepsIds(k, pullIsLocal, ids, ElementScan(s.conflicts, [], s.other), |ids|);
    PrefixBagIsBag(ids, |ids|);
    assert ids[..|ids|] == ids;
  }

  /** The pull entry left after the loop holds exactly the kept elements. */
  lemma KeptEntry(k: Path, item: ArrayOp, kept: seq<IdPos>)
    ensures var rest := if kept == [] && item.idsAndPositions != [] then [] else [(k, item.(idsAndPositions := kept))];
            IdsBag(rest) == multiset(kept)
  {
  }

  /** One pull entry: each of its elements stays in the pull patch or is pulled by exactly one new conflict. */
  lemma EntryStepIds(pullIsLocal: bool, s: PullScan, entry: (Path, ArrayOp))
    ensures PullBag(EntryStep(pullIsLocal, s, entry), pullIsLocal) == PullBag(s, pullIsLocal) + multiset(entry.1.idsAndPositions)
  {
    var k, item := entry.0, entry.1;
    var ids := item.idsAndPositions;
    if item.dataType != ArrayType.eSubModel {
      IdsBagAppend(s.pulls, [entry]);
    } else {
      var e := ElementSteps(k, pullIsLocal, ids, ElementScan(s.conflicts, [], s.other), |ids|);
      var rest := if e.kept == [] && ids != [] then [] else [(k, item.(idsAndPositions := e.kept))];
      calc {
        PullBag(EntryStep(pullIsLocal, s, entry), pullIsLocal);
        IdsBag(s.pulls + rest) + multiset(PulledIds(e.conflicts, pullIsLocal));
        { IdsBagAppend(s.pulls, rest); KeptEntry(k, item, e.kept); }
        IdsBag(s.pulls) + (multiset(e.kept) + multiset(PulledIds(e.conflicts, pullIsLocal)));
        { EntryElementsHandled(k, pullIsLocal, ids, s); }
        IdsBag(s.pulls) + (multiset(PulledIds(s.conflicts, pullIsLocal)) + multiset(ids));
        PullBag(s, pullIsLocal) + multiset(ids);
      }
    }
  }

  /** After `n` pull entries, each of their elements stays or is pulled by exactly one new conflict. */
  ghost function PullsAfter(pullIsLocal: bool, entries: seq<(Path, ArrayOp)>, init: PullScan, n: nat): multiset<IdPos>
    requires n <= |entries|
  {
    PullBag(EntrySteps(pullIsLocal, entries, init, n), pullIsLocal)
  }

  ghost function PullsBefore(pullIsLocal: bool, entries: seq<(Path, ArrayOp)>, init: PullScan, n: nat): multiset<IdPos>
    requires n <= |entries|
  {
    PullBag(init, pullIsLocal) + IdsBag(entries[..n])
  }

  lemma PullsAccountedStep(pullIsLocal: bool, entries: seq<(Path, ArrayOp)>, init: PullScan, n: nat)
    requires 0 < n <= |entries| && PullsAfter(pullIsLocal, entries, init, n - 1) == PullsBefore(pullIsLocal, entries, init, n - 1)
    ensures PullsAfter(pullIsLocal, entries, init, n) == PullsBefore(pullIsLocal, entries, init, n)
  {
    var s := EntrySteps(pullIsLocal, entries, init, n - 1);
    var x := entries[n - 1];
    calc {
      PullBag(EntrySteps(pullIsLocal, entries, init, n), pullIsLocal);
      PullBag(EntryStep(pullIsLocal, s, x), pullIsLocal);
      { EntryStepIds(pullIsLocal, s, x); }
      PullBag(s, pullIsLocal) + multiset(x.1.idsAndPositions);
      PullBag(init, pullIsLocal) + IdsBag(entries[..n - 1]) + multiset(x.1.idsAndPositions);
      { BagAssoc(PullBag(init, pullIsLocal), IdsBag(entries[..n - 1]), multiset(x.1.idsAndPositions)); }
      PullBag(init, pullIsLocal) + (IdsBag(entries[..n - 1]) + multiset(x.1.idsAndPositions));
      { IdsBagSnoc(entries, n); }
      PullBag(init, pullIsLocal) + IdsBag(entries[..n]);
    }
  }

  lemma IdsBagSnoc(entries: seq<(Path, ArrayOp)>, n: nat)
    requires 0 < n <= |entries|
    ensures IdsBag(entries[..n]) == IdsBag(entries[..n - 1]) + multiset(entries[n - 1].1.idsAndPositions)
  {
    IdsBagAppend(entries[..n - 1], [entries[n - 1]]);
    assert entries[..n] == entries[..n - 1] + [entries[n - 1]];
    assert IdsBag([entries[n - 1]]) == multiset(entries[n - 1].1.idsAndPositions);
  }

  lemma PullsAccountedZero(pullIsLocal: bool, entries: seq<(Path, ArrayOp)>, init: PullScan)
    ensures PullsAfter(pullIsLocal, entries, init, 0) == PullsBefore(pullIsLocal, entries, init, 0)
  {
  }

  lemma {:induction false} EntryStepsIds(pullIsLocal: bool, entries: seq<(Path, ArrayOp)>, init: PullScan, n: nat)
    requires n <= |entries|
    ensures PullsAfter(pullIsLocal, entries, init, n) == PullsBefore(pullIsLocal, entries, init, n)
  {
    if n == 0 {
      PullsAccountedZero(pullIsLocal, entries, init);
    } else {
      EntryStepsIds(pullIsLocal, entries, init, n - 1);
      PullsAccountedStep(pullIsLocal, entries, init, n);
    }
  }

  /**
   * `_getPullConflicts` loses no pulled element and pulls none twice: every
   * element of every `$pull` entry either stays in the pull patch or is
   * pulled by exactly one conflict.
   */
  lemma PullConflictsIds(pulls: seq<(Path, ArrayOp)>, other: Update, pullIsLocal: bool)
    ensures var r := PullConflicts(pulls, other, pullIsLocal);
            IdsBag(r.pulls) + multiset(PulledIds(r.conflicts, pullIsLocal)) == IdsBag(pulls)
  {
    EntryStepsIds(pullIsLocal, pulls, PullScan([], [], other), |pulls|);
    assert pulls[..|pulls|] == pulls;
  }

  /** All entries of the other patch, in it or taken by a conflict, at some point of a pull loop. */
  ghost function PoolOf(s: PullScan, pullIsLocal: bool): (multiset<(Path, Value)>, multiset<(Path, ArrayOp)>, multiset<(Path, ArrayOp)>)
  {
    Pool(s.other, TakenFrom(s.conflicts, pullIsLocal))
  }

  /** One pull entry: the other patch's entries either stay or move into exactly one new conflict. */
  lemma EntryStepPool(pullIsLocal: bool, s: PullScan, entry: (Path, ArrayOp))
    ensures PoolOf(EntryStep(pullIsLocal, s, entry), pullIsLocal) == PoolOf(s, pullIsLocal)
  {
    if entry.1.dataType == ArrayType.eSubModel {
      var ids := entry.1.idsAndPositions;
      ElementStepsPool(entry.0, pullIsLocal, ids, ElementScan(s.conflicts, [], s.other), |ids|);
    }
  }

  ghost function PoolAfter(pullIsLocal: bool, entries: seq<(Path, ArrayOp)>, init: PullScan, n: nat): (multiset<(Path, Value)>, multiset<(Path, ArrayOp)>, multiset<(Path, ArrayOp)>)
    requires n <= |entries|
  {
    PoolOf(EntrySteps(pullIsLocal, entries, init, n), pullIsLocal)
  }

  lemma {:induction false} EntryStepsPool(pullIsLocal: bool, entries: seq<(Path, ArrayOp)>, init: PullScan, n: nat)
    requires n <= |entries|
    ensures PoolAfter(pullIsLocal, entries, init, n) == PoolOf(init, pullIsLocal)
  {
    if n > 0 {
      EntryStepsPool(pullIsLocal, entries, init, n - 1);
      EntryStepPool(pullIsLocal, EntrySteps(pullIsLocal, entries, init, n - 1), entries[n - 1]);
    }
  }

  /**
   * `_getPullConflicts` loses none of the other patch's entries and copies
   * none: each either stays in the other patch or has moved into exactly one
   * conflict, on the side opposite the pull.
   */
  lemma PullConflictsPool(pulls: seq<(Path, ArrayOp)>, other: Update, pullIsLocal: bool)
    ensures var r := PullConflicts(pulls, other, pullIsLocal);
            Pool(r.other, TakenFrom(r.conflicts, pullIsLocal)) == Pool(other, NoUpdates)
  {
    EntryStepsPool(pullIsLocal, pulls, PullScan([], [], other), |pulls|);
  }

  /** One pull entry only appends conflicts of the pull shape. */
  lemma EntryStepShape(pullIsLocal: bool, s: PullScan, entry: (Path, ArrayOp))
    ensures var r := EntryStep(pullIsLocal, s, entry);
            |s.conflicts| <= |r.conflicts| && r.conflicts[..|s.conflicts|] == s.conflicts
            && forall i :: |s.conflicts| <= i < |r.conflicts| ==> PullConflictShape(r.conflicts[i], pullIsLocal)
  {
    if entry.1.dataType == ArrayType.eSubModel {
      var ids := entry.1.idsAndPositions;
      ElementStepsShape(entry.0, pullIsLocal, ids, ElementScan(s.conflicts, [], s.other), |ids|);
    }
  }

  lemma {:induction false} EntryStepsShape(pullIsLocal: bool, entries: seq<(Path, ArrayOp)>, init: PullScan, n: nat)
    requires n <= |entries|
    ensures var r := EntrySteps(pullIsLocal, entries, init, n);
            |init.conflicts| <= |r.conflicts| && r.conflicts[..|init.conflicts|] == init.conflicts
            && forall i :: |init.conflicts| <= i < |r.conflicts| ==> PullConflictShape(r.conflicts[i], pullIsLocal)
  {
    if n > 0 {
      EntryStepsShape(pullIsLocal, entries, init, n - 1);
      var s := EntrySteps(pullIsLocal, entries, init, n - 1);
      EntryStepShape(pullIsLocal, s, entries[n - 1]);
      var r := EntrySteps(pullIsLocal, entries, init, n);
      assert r.conflicts[..|init.conflicts|] == r.conflicts[..|s.conflicts|][..|init.conflicts|];
    }
  }

  /** Every conflict `_getPullConflicts` raises has the pull shape, with `eAuto` standing for the pulling side. */
  lemma PullConflictsShape(pulls: seq<(Path, ArrayOp)>, other: Update, pullIsLocal: bool)
    ensures forall c :: c in PullConflicts(pulls, other, pullIsLocal).conflicts ==> PullConflictShape(c, pullIsLocal)
  {
    EntryStepsShape(pullIsLocal, pulls, PullScan([], [], other), |pulls|);
  }

  // ---------------------------------------------------------------------------
  // Decisions

  /** The decisions are applied in order and succeed exactly when each one picks a side. */
  lemma {:induction false} DecidedOk(cs: seq<Conflict>, ds: seq<Decision>, n: nat)
    requires n <= |cs|
    ensures Decided(cs, ds, n).Ok? <==> forall i :: 0 <= i < n ==> Chosen(cs[i], DecisionAt(ds, i)).Ok?
  {
    if n > 0 {
      DecidedOk(cs, ds, n - 1);
      DecidedNextOk(cs, ds, n);
    }
  }

  /** One more decision succeeds exactly when the earlier ones did and it picks a side. */
  lemma DecidedNextOk(cs: seq<Conflict>, ds: seq<Decision>, n: nat)
    requires 0 < n <= |cs|
    ensures Decided(cs, ds, n).Ok? <==> Decided(cs, ds, n - 1).Ok? && Chosen(cs[n - 1], DecisionAt(ds, n - 1)).Ok?
  {
  }

  /** The error thrown is the one of the first decision that picks no side. */
  lemma DecidedFirstError(cs: seq<Conflict>, ds: seq<Decision>, n: nat, i: nat)
    requires i < n <= |cs|
    requires forall j :: 0 <= j < i ==> Chosen(cs[j], DecisionAt(ds, j)).Ok?
    requires Chosen(cs[i], DecisionAt(ds, i)).Err?
    ensures Decided(cs, ds, n) == Chosen(cs[i], DecisionAt(ds, i))
  {
    DecidedOk(cs, ds, i);
    DecidedErrAt(cs, ds, i);
    if n > i + 1 {
      DecidedStaysErr(cs, ds, i + 1, n);
    }
  }

  /** A decision that picks no side after successful ones is the error of the prefix ending there. */
  lemma DecidedErrAt(cs: seq<Conflict>, ds: seq<Decision>, i: nat)
    requires i < |cs| && Decided(cs, ds, i).Ok? && Chosen(cs[i], DecisionAt(ds, i)).Err?
    ensures Decided(cs, ds, i + 1) == Chosen(cs[i], DecisionAt(ds, i))
  {
  }

  /** `eAuto` stands for a side in every conflict a run raises. */
  lemma DetectAutoDecisions(local: Update, remote: Update)
    ensures forall c :: c in Detect(local, remote).conflicts ==> c.autoDecision == eLocal || c.autoDecision == eRemote
  {
    var p1 := PullConflicts(remote.pulls, local, false);
    var remote1, local1 := remote.(pulls := p1.pulls), p1.other;
    var p2 := PullConflicts(local1.pulls, remote1, true);
    var local2, remote2 := local1.(pulls := p2.pulls), p2.other;
    PullConflictsShape(remote.pulls, local, false);
    PullConflictsShape(local1.pulls, remote1, true);
    SetConflictsDisjoint(local2.sets, remote2.sets);
  }

  /** `eAuto` for every conflict always yields a merged patch. */
  lemma RunAutoMerges(local: Update, remote: Update)
    ensures Run(local, remote, AnswerAll(eAuto)).merged.Ok?
  {
    var cs := Detect(local, remote).conflicts;
    DetectAutoDecisions(local, remote);
    var ds := AnswerAll(eAuto)(cs);
    DecidedOk(cs, ds, |cs|);
    forall i | 0 <= i < |cs| ensures Chosen(cs[i], DecisionAt(ds, i)).Ok? {
      assert cs[i] in cs;
    }
  }

  /** So do `eLocal` and `eRemote` for every conflict. */
  lemma RunSideMerges(local: Update, remote: Update, d: Decision)
    requires d == eLocal || d == eRemote
    ensures Run(local, remote, AnswerAll(d)).merged.Ok?
  {
    var cs := Detect(local, remote).conflicts;
    DecidedOk(cs, AnswerAll(d)(cs), |cs|);
  }

  /**
   * `eNone` fails the run exactly when there is a conflict, with the message
   * naming the decision; a resolver that answers with too few decisions fails
   * it with `undefined`.
   */
  lemma RunNoneFails(local: Update, remote: Update)
    ensures var cs, r := Detect(local, remote).conflicts, Run(local, remote, AnswerAll(eNone));
            (r.merged.Ok? <==> cs == []) && (cs != [] ==> r.merged == Err(DecisionMessage + "-1"))
  {
    var cs := Detect(local, remote).conflicts;
    if cs != [] {
      DecidedFirstError(cs, AnswerAll(eNone)(cs), |cs|, 0);
    }
  }

  lemma RunShortAnswerFails(local: Update, remote: Update)
    ensures var cs, r := Detect(local, remote).conflicts, Run(local, remote, _ => []);
            cs != [] ==> r.merged == Err(DecisionMessage + "undefined")
  {
    var cs := Detect(local, remote).conflicts;
    if cs != [] {
      DecidedFirstError(cs, [], |cs|, 0);
    }
  }

  // ---------------------------------------------------------------------------
  // The union of primitive array operations

  /** `HasValue` is membership of the value among the elements' values. */
  lemma {:induction false} HasValueSpec(vals: seq<IdPos>, v: Value)
    ensures HasValue(vals, v) <==> exists i :: 0 <= i < |vals| && vals[i].idOrValue == v
  {
    if vals != [] {
      HasValueSpec(vals[1..], v);
      if HasValue(vals[1..], v) {
        var i :| 0 <= i < |vals[1..]| && vals[1..][i].idOrValue == v;
        assert vals[i + 1].idOrValue == v;
      }
      if exists i :: 0 <= i < |vals| && vals[i].idOrValue == v {
        var i :| 0 <= i < |vals| && vals[i].idOrValue == v;
        if i > 0 {
          assert vals[1..][i - 1].idOrValue == v;
        }
      }
    }
  }

  /** The remote-only part keeps, in order, exactly the remote elements whose value the local list lacks. */
  lemma {:induction false} RemoteOnlySpec(remoteVals: seq<IdPos>, localVals: seq<IdPos>)
    ensures forall x :: x in RemoteOnly(remoteVals, localVals) <==> x in remoteVals && !HasValue(localVals, x.idOrValue)
  {
    if remoteVals != [] {
      RemoteOnlySpec(remoteVals[1..], localVals);
      assert remoteVals == [remoteVals[0]] + remoteVals[1..];
    }
  }

  /** A value is in the union exactly when it is on either side. */
  lemma UnionHasValue(localVals: seq<IdPos>, remoteVals: seq<IdPos>, v: Value)
    ensures HasValue(UnionIds(localVals, remoteVals), v) <==> HasValue(localVals, v) || HasValue(remoteVals, v)
  {
    var u := UnionIds(localVals, remoteVals);
    var ro := RemoteOnly(remoteVals, localVals);
    assert u[..|localVals|] == localVals && u[|localVals|..] == ro;
    RemoteOnlySpec(remoteVals, localVals);
    HasValueSpec(u, v);
    HasValueSpec(localVals, v);
    HasValueSpec(remoteVals, v);
    if HasValue(remoteVals, v) && !HasValue(localVals, v) {
      var i :| 0 <= i < |remoteVals| && remoteVals[i].idOrValue == v;
      assert remoteVals[i] in ro;
      var j :| 0 <= j < |ro| && ro[j] == remoteVals[i];
      assert u[|localVals| + j].idOrValue == v;
    }
    if HasValue(u, v) {
      var i :| 0 <= i < |u| && u[i].idOrValue == v;
      if i >= |localVals| {
        assert u[i] in ro;
        var j :| 0 <= j < |remoteVals| && remoteVals[j] == u[i];
      } else {
        assert localVals[i].idOrValue == v;
      }
    }
    if HasValue(localVals, v) {
      var i :| 0 <= i < |localVals| && localVals[i].idOrValue == v;
      assert u[i].idOrValue == v;
    }
  }

  /**
   * The union of the primitive operations of both sides: the local ones
   * first, in order, then every remote one whose value is not already there;
   * a value is in the union exactly when it is on either side.
   */
  lemma UnionIdsSpec(localVals: seq<IdPos>, remoteVals: seq<IdPos>)
    ensures var u := UnionIds(localVals, remoteVals);
            u[..|localVals|] == localVals
            && (forall x :: x in u[|localVals|..] <==> x in remoteVals && !HasValue(localVals, x.idOrValue))
            && forall v :: HasValue(u, v) <==> HasValue(localVals, v) || HasValue(remoteVals, v)
  {
    var u := UnionIds(localVals, remoteVals);
    assert u[..|localVals|] == localVals && u[|localVals|..] == RemoteOnly(remoteVals, localVals);
    RemoteOnlySpec(remoteVals, localVals);
    forall v ensures HasValue(u, v) <==> HasValue(localVals, v) || HasValue(remoteVals, v) {
      UnionHasValue(localVals, remoteVals, v);
    }
  }

  /** As written, a remote value the local side already has is added a second time ... */
  lemma UnionAsWrittenDuplicates()
    ensures UnionIdsAsWritten([IdPos(0, Num(7.0))], [IdPos(3, Num(7.0))]) == [IdPos(0, Num(7.0)), IdPos(3, Num(7.0))]
    ensures UnionIds([IdPos(0, Num(7.0))], [IdPos(3, Num(7.0))]) == [IdPos(0, Num(7.0))]
  {
    assert HasValue([IdPos(0, Num(7.0))], Num(7.0));
    assert !HasValue([IdPos(0, Num(7.0))], Num(3.0)) by {
      assert !HasValue([IdPos(0, Num(7.0))][1..], Num(3.0));
    }
  }

  /** ... and a new remote value is dropped when a local value equals its position. */
  lemma UnionAsWrittenDrops()
    ensures UnionIdsAsWritten([IdPos(0, Num(3.0))], [IdPos(3, Num(9.0))]) == [IdPos(0, Num(3.0))]
    ensures UnionIds([IdPos(0, Num(3.0))], [IdPos(3, Num(9.0))]) == [IdPos(0, Num(3.0)), IdPos(3, Num(9.0))]
  {
    assert HasValue([IdPos(0, Num(3.0))], Num(3.0));
    assert !HasValue([IdPos(0, Num(3.0))], Num(9.0)) by {
      assert !HasValue([IdPos(0, Num(3.0))][1..], Num(9.0));
    }
  }

  // ---------------------------------------------------------------------------
  // Assignment into a dictionary

  /** `obj[k] = v` changes what `obj[k]` reads and nothing else. */
  lemma {:induction false} ValueOfPut(m: seq<(Path, Value)>, k: Path, v: Value, k': Path)
    ensures ValueOf(PutEntry(m, k, v), k') == if k' == k then v else ValueOf(m, k')
  {
    if m != [] && m[0].0 != k {
      ValueOfPut(m[1..], k, v, k');
      assert PutEntry(m, k, v)[1..] == PutEntry(m[1..], k, v);
    }
  }

  lemma {:induction false} EntryOfPut(m: seq<(Path, ArrayOp)>, k: Path, v: ArrayOp, k': Path)
    ensures EntryOf(PutEntry(m, k, v), k') == if k' == k then Some(v) else EntryOf(m, k')
  {
    if m != [] && m[0].0 != k {
      EntryOfPut(m[1..], k, v, k');
      assert PutEntry(m, k, v)[1..] == PutEntry(m[1..], k, v);
    }
  }

  lemma {:induction false} EntryOfDelete(m: seq<(Path, ArrayOp)>, d: Path, k: Path)
    ensures EntryOf(Delete(m, d), k) == if k == d then None else EntryOf(m, k)
  {
    if m != [] {
      EntryOfDelete(m[1..], d, k);
    }
  }

  /**
   * `Object.assign` with the entries of a dictionary: a key of the entries
   * reads the entry's value, any other key what it read before.
   */
  lemma {:induction false} PutEntriesLookup(m: seq<(Path, Value)>, entries: seq<(Path, Value)>, n: nat, k: Path)
    requires n <= |entries| && UniqueKeys(entries)
    ensures ValueOf(PutEntries(m, entries, n), k) == if k in KeysOf(entries)[..n] then ValueOf(entries, k) else ValueOf(m, k)
  {
    if n > 0 {
      PutEntriesLookup(m, entries, n - 1, k);
      ValueOfPut(PutEntries(m, entries, n - 1), entries[n - 1].0, entries[n - 1].1, k);
      assert KeysOf(entries)[..n] == KeysOf(entries)[..n - 1] + [entries[n - 1].0];
      if k == entries[n - 1].0 {
        ValueOfUnique(entries, n - 1);
      }
    }
  }

  // ---------------------------------------------------------------------------
  // The leftover sweep

  /** Every remaining target entry was there at the start and no swept non-primitive entry has its key. */
  lemma {:induction false} SweepTarget(iter: seq<(Path, ArrayOp)>, init: Sweep, n: nat, asWritten: bool)
    requires n <= |iter|
    ensures forall e :: e in SweepSteps(iter, init, n, asWritten).target ==> e in init.target
    ensures forall e, j :: e in SweepSteps(iter, init, n, asWritten).target && 0 <= j < n && iter[j].1.dataType != ePrimitive ==> e.0 != iter[j].0
  {
    if n > 0 {
      SweepTarget(iter, init, n - 1, asWritten);
      var s := SweepSteps(iter, init, n - 1, asWritten);
      var t := SweepStep(s, iter[n - 1], asWritten);
      assert SweepSteps(iter, init, n, asWritten) == t;
      if iter[n - 1].1.dataType != ePrimitive {
        DeleteSpec(s.target, iter[n - 1].0);
        assert t.target == Delete(s.target, iter[n - 1].0);
      }
    }
  }

  /** The swept keys of primitive entries are collected after the ones collected before. */
  lemma {:induction false} SweepPrimitive(iter: seq<(Path, ArrayOp)>, init: Sweep, n: nat, asWritten: bool)
    requires n <= |iter|
    ensures var p := SweepSteps(iter, init, n, asWritten).primitive;
            (forall x :: x in init.primitive ==> x in p)
            && (forall j :: 0 <= j < n && iter[j].1.dataType == ePrimitive ==> iter[j].0 in p)
            && forall x :: x in p ==> x in init.primitive || exists j :: 0 <= j < n && iter[j].0 == x && iter[j].1.dataType == ePrimitive
  {
    if n > 0 {
      SweepPrimitive(iter, init, n - 1, asWritten);
    }
  }

  /** The elements of the first `n` non-primitive entries under `k`, in order. */
  function SweptIds(iter: seq<(Path, ArrayOp)>, n: nat, k: Path): seq<IdPos>
    requires n <= |iter|
  {
    if n == 0 then []
    else
      var e := iter[n - 1];
      SweptIds(iter, n - 1, k) + (if e.0 == k && e.1.dataType != ePrimitive then e.1.idsAndPositions else [])
  }

  /** Every element of a swept non-primitive entry under `k` is among the swept elements under `k`. */
  lemma {:induction false} SweptIdsHas(iter: seq<(Path, ArrayOp)>, n: nat, j: nat, k: Path, e: IdPos)
    requires j < n <= |iter| && iter[j].0 == k && iter[j].1.dataType != ePrimitive && e in iter[j].1.idsAndPositions
    ensures e in SweptIds(iter, n, k)
  {
    if j < n - 1 {
      SweptIdsHas(iter, n - 1, j, k, e);
    }
  }

  /**
   * Corrected, the sweep appends: the elements under `k` afterwards are the
   * result's, followed by those of every swept non-primitive entry under `k`.
   */
  lemma {:induction false} SweepResultIds(iter: seq<(Path, ArrayOp)>, init: Sweep, n: nat, k: Path)
    requires n <= |iter|
    ensures IdsAt(SweepSteps(iter, init, n, false).result, k) == IdsAt(init.result, k) + SweptIds(iter, n, k)
  {
    if n > 0 {
      SweepResultIds(iter, init, n - 1, k);
      var prev := SweepSteps(iter, init, n - 1, false);
      if iter[n - 1].1.dataType != ePrimitive {
        AppendEntryIds(prev.result, iter[n - 1].0, iter[n - 1].1, k);
      }
    }
  }

  /** No primitive entry under `k`. */
  ghost predicate NoPrimitiveAt(m: seq<(Path, ArrayOp)>, k: Path)
  {
    forall x :: x in m && x.0 == k ==> x.1.dataType != ePrimitive
  }

  /** A dictionary swept over its own entries keeps nothing under a key with no primitive entry. */
  lemma SweepClears(iter: seq<(Path, ArrayOp)>, result: seq<(Path, ArrayOp)>, primitive: seq<Path>, k: Path, asWritten: bool)
    requires NoPrimitiveAt(iter, k)
    ensures IdsAt(SweepSteps(iter, Sweep(result, iter, primitive), |iter|, asWritten).target, k) == []
  {
    var s := SweepSteps(iter, Sweep(result, iter, primitive), |iter|, asWritten);
    SweepTarget(iter, Sweep(result, iter, primitive), |iter|, asWritten);
    forall x | x in s.target ensures x.0 != k {
      var j :| 0 <= j < |iter| && iter[j] == x;
    }
    IdsAtAbsent(s.target, k);
  }

  /** Sweeping a dictionary of its own entries leaves only primitive entries, whose keys were collected. */
  lemma SweepDrained(iter: seq<(Path, ArrayOp)>, result: seq<(Path, ArrayOp)>, primitive: seq<Path>, asWritten: bool)
    ensures var s := SweepSteps(iter, Sweep(result, iter, primitive), |iter|, asWritten);
            forall i :: 0 <= i < |s.target| ==> s.target[i].1.dataType == ePrimitive && s.target[i].0 in s.primitive
  {
    var s := SweepSteps(iter, Sweep(result, iter, primitive), |iter|, asWritten);
    SweepTarget(iter, Sweep(result, iter, primitive), |iter|, asWritten);
    SweepPrimitive(iter, Sweep(result, iter, primitive), |iter|, asWritten);
    forall i | 0 <= i < |s.target| ensures s.target[i].1.dataType == ePrimitive && s.target[i].0 in s.primitive {
      assert s.target[i] in s.target;
      var j :| 0 <= j < |iter| && iter[j] == s.target[i];
    }
  }

  /** `delete d[k]` for each of the first `n` keys, in order. */
  function DeleteAll(m: seq<(Path, ArrayOp)>, keys: seq<Path>, n: nat): seq<(Path, ArrayOp)>
    requires n <= |keys|
  {
    if n == 0 then m else Delete(DeleteAll(m, keys, n - 1), keys[n - 1])
  }

  /** Dropping keys from a working patch deletes them from its `$push` and `$pull` and leaves its `$set`. */
  lemma {:induction false} DropKeysAll(u: Update, keys: seq<Path>, n: nat)
    requires n <= |keys|
    ensures DropKeys(u, keys, n) == Update(u.sets, DeleteAll(u.pushes, keys, n), DeleteAll(u.pulls, keys, n))
  {
    if n > 0 {
      DropKeysAll(u, keys, n - 1);
    }
  }

  /** The primitive loop deletes its keys from both working patches and leaves every `$set` dictionary alone. */
  lemma PrimitiveStepsSides(keys: seq<Path>, init: Tail, n: nat, asWritten: bool)
    requires n <= |keys|
    ensures PrimitiveSteps(keys, init, n, asWritten).result.sets == init.result.sets
    ensures PrimitiveSteps(keys, init, n, asWritten).local
            == Update(init.local.sets, DeleteAll(init.local.pushes, keys, n), DeleteAll(init.local.pulls, keys, n))
    ensures PrimitiveSteps(keys, init, n, asWritten).remote
            == Update(init.remote.sets, DeleteAll(init.remote.pushes, keys, n), DeleteAll(init.remote.pulls, keys, n))
  {
    DropKeysAll(init.local, keys, n);
    DropKeysAll(init.remote, keys, n);
  }

  lemma {:induction false} DeleteAllSpec(m: seq<(Path, ArrayOp)>, keys: seq<Path>, n: nat)
    requires n <= |keys|
    ensures forall e :: e in DeleteAll(m, keys, n) ==> e in m && e.0 !in keys[..n]
  {
    if n > 0 {
      DeleteAllSpec(m, keys, n - 1);
      DeleteSpec(DeleteAll(m, keys, n - 1), keys[n - 1]);
      assert keys[..n] == keys[..n - 1] + [keys[n - 1]];
    }
  }

  /** A dictionary holding only entries of another whose keys were all deleted is empty. */
  lemma Emptied(d: seq<(Path, ArrayOp)>, d0: seq<(Path, ArrayOp)>, deleted: seq<Path>)
    requires forall e :: e in d ==> e in d0 && e.0 !in deleted
    requires forall i :: 0 <= i < |d0| ==> d0[i].0 in deleted
    ensures d == []
  {
    if d != [] {
      HeadIn(d);
      assert false;
    }
  }

  lemma HeadIn<T>(d: seq<T>)
    requires d != []
    ensures d[0] in d
  {
  }

  /**
   * A side's turn over its own dictionaries keeps the keys collected before,
   * empties its `$set` dictionary and leaves behind only entries whose keys
   * it collected.
   */
  lemma TurnDrained(result: Update, side: Update, primitive: seq<Path>, asWritten: bool)
    ensures var t := TurnOf(result, side, primitive, side.pushes, side.pulls, asWritten);
            t.side.sets == []
            && (forall x :: x in primitive ==> x in t.primitive)
            && (forall i :: 0 <= i < |t.side.pushes| ==> t.side.pushes[i].0 in t.primitive)
            && (forall i :: 0 <= i < |t.side.pulls| ==> t.side.pulls[i].0 in t.primitive)
  {
    var ps := SweepSteps(side.pushes, Sweep(result.pushes, side.pushes, primitive), |side.pushes|, asWritten);
    SweepDrained(side.pushes, result.pushes, primitive, asWritten);
    SweepDrained(side.pulls, result.pulls, ps.primitive, asWritten);
    SweepPrimitive(side.pushes, Sweep(result.pushes, side.pushes, primitive), |side.pushes|, asWritten);
    SweepPrimitive(side.pulls, Sweep(result.pulls, side.pulls, ps.primitive), |side.pulls|, asWritten);
  }

  /**
   * The leftover merge consumes both working patches: every `$set`, `$push`
   * and `$pull` entry moves to the result or is folded into a primitive
   * union, and nothing is left behind in either working patch.
   */
  lemma LeftoversEmpty(result: Update, local: Update, remote: Update)
    ensures Leftovers(result, local, remote).local == NoUpdates
    ensures Leftovers(result, local, remote).remote == NoUpdates
  {
    var t1 := TurnOf(result, remote, [], remote.pushes, remote.pulls, false);
    var t2 := TurnOf(t1.result, local, t1.primitive, local.pushes, local.pulls, false);
    TurnDrained(result, remote, [], false);
    TurnDrained(t1.result, local, t1.primitive, false);
    var keys := t2.primitive;
    var init := Tail(t2.result, t2.side, t1.side);
    PrimitiveStepsSides(keys, init, |keys|, false);
    DeleteAllSpec(t2.side.pushes, keys, |keys|);
    DeleteAllSpec(t2.side.pulls, keys, |keys|);
    DeleteAllSpec(t1.side.pushes, keys, |keys|);
    DeleteAllSpec(t1.side.pulls, keys, |keys|);
    assert keys[..|keys|] == keys;
    Emptied(DeleteAll(t2.side.pushes, keys, |keys|), t2.side.pushes, keys);
    Emptied(DeleteAll(t2.side.pulls, keys, |keys|), t2.side.pulls, keys);
    Emptied(DeleteAll(t1.side.pushes, keys, |keys|), t1.side.pushes, keys);
    Emptied(DeleteAll(t1.side.pulls, keys, |keys|), t1.side.pulls, keys);
  }

  /**
   * In the leftover merge a local `$set` wins over a remote one, and both
   * win over what the decisions put in the result.
   */
  lemma LeftoverSetsWin(result: Update, local: Update, remote: Update, k: Path)
    requires UniqueKeys(local.sets) && UniqueKeys(remote.sets)
    ensures ValueOf(Leftovers(result, local, remote).result.sets, k)
            == if k in KeysOf(local.sets) then ValueOf(local.sets, k)
               else if k in KeysOf(remote.sets) then ValueOf(remote.sets, k)
               else ValueOf(result.sets, k)
  {
    var t1 := TurnOf(result, remote, [], remote.pushes, remote.pulls, false);
    PutEntriesLookup(result.sets, remote.sets, |remote.sets|, k);
    PutEntriesLookup(t1.result.sets, local.sets, |local.sets|, k);
    assert KeysOf(remote.sets)[..|remote.sets|] == KeysOf(remote.sets);
    assert KeysOf(local.sets)[..|local.sets|] == KeysOf(local.sets);
  }

  lemma {:induction false} IdsAtDelete(m: seq<(Path, ArrayOp)>, d: Path, k: Path)
    ensures IdsAt(Delete(m, d), k) == if k == d then [] else IdsAt(m, k)
  {
    if m != [] {
      IdsAtDelete(m[1..], d, k);
    }
  }

  lemma {:induction false} IdsAtAbsent(m: seq<(Path, ArrayOp)>, k: Path)
    requires forall e :: e in m ==> e.0 != k
    ensures IdsAt(m, k) == []
  {
    if m != [] {
      assert m[0] in m;
      assert forall e :: e in m[1..] ==> e in m;
      IdsAtAbsent(m[1..], k);
    }
  }

  /** Deleting keys from a dictionary with no elements at `k` leaves none there. */
  lemma {:induction false} IdsAtDeleteAll(m: seq<(Path, ArrayOp)>, keys: seq<Path>, n: nat, k: Path)
    requires n <= |keys| && IdsAt(m, k) == []
    ensures IdsAt(DeleteAll(m, keys, n), k) == []
  {
    if n > 0 {
      IdsAtDeleteAll(m, keys, n - 1, k);
      IdsAtDelete(DeleteAll(m, keys, n - 1), keys[n - 1], k);
    }
  }

  /** `dict[d] = v` changes the elements under `d` only. */
  lemma IdsAtPut(m: seq<(Path, ArrayOp)>, d: Path, v: ArrayOp, k: Path)
    ensures IdsAt(PutEntry(m, d, v), k) == if k == d then v.idsAndPositions else IdsAt(m, k)
  {
    IdsAtEntry(m, k);
    IdsAtEntry(PutEntry(m, d, v), k);
    EntryOfPut(m, d, v, k);
  }

  /** The `$push` or the `$pull` dictionary of a patch. */
  function Ops(u: Update, pulls: bool): seq<(Path, ArrayOp)>
  {
    if pulls then u.pulls else u.pushes
  }

  /** One primitive key leaves the result's elements at another key, or at a key with nothing on either side, as they were. */
  lemma PrimitiveStepKeep(s: Tail, d: Path, asWritten: bool, pulls: bool, k: Path)
    requires IdsAt(Ops(s.local, pulls), k) == [] && IdsAt(Ops(s.remote, pulls), k) == []
    ensures IdsAt(Ops(PrimitiveStep(s, d, asWritten).result, pulls), k) == IdsAt(Ops(s.result, pulls), k)
  {
    var ids := Combine(IdsAt(Ops(s.local, pulls), d), IdsAt(Ops(s.remote, pulls), d), asWritten);
    assert Ops(PrimitiveResult(s, d, asWritten), pulls) == PutIds(Ops(s.result, pulls), d, ids);
    if d == k {
      assert ids == [] by { assert Combine([], [], asWritten) == []; }
    } else if ids != [] {
      IdsAtPut(Ops(s.result, pulls), d, ArrayOp(ePrimitive, ids), k);
    }
  }

  /** A key with no elements on either side keeps the result's elements through the primitive loop. */
  lemma PrimitiveStepsKeep(keys: seq<Path>, init: Tail, n: nat, asWritten: bool, pulls: bool, k: Path)
    requires n <= |keys|
    requires IdsAt(Ops(init.local, pulls), k) == [] && IdsAt(Ops(init.remote, pulls), k) == []
    ensures IdsAt(Ops(PrimitiveSteps(keys, init, n, asWritten).result, pulls), k) == IdsAt(Ops(init.result, pulls), k)
  {
    var i := 0;
    while i < n
      invariant i <= n
      invariant IdsAt(Ops(PrimitiveSteps(keys, init, i, asWritten).result, pulls), k) == IdsAt(Ops(init.result, pulls), k)
    {
      PrimitiveStepsClear(keys, init, i, asWritten, pulls, k);
      PrimitiveStepKeep(PrimitiveSteps(keys, init, i, asWritten), keys[i], asWritten, pulls, k);
      PrimitiveStepsNext(keys, init, i, asWritten);
      i := i + 1;
    }
  }

  /** The primitive loop only deletes from the sides, so a key with no elements on either side keeps none. */
  lemma PrimitiveStepsClear(keys: seq<Path>, init: Tail, n: nat, asWritten: bool, pulls: bool, k: Path)
    requires n <= |keys|
    requires IdsAt(Ops(init.local, pulls), k) == [] && IdsAt(Ops(init.remote, pulls), k) == []
    ensures IdsAt(Ops(PrimitiveSteps(keys, init, n, asWritten).local, pulls), k) == []
    ensures IdsAt(Ops(PrimitiveSteps(keys, init, n, asWritten).remote, pulls), k) == []
  {
    PrimitiveStepsSides(keys, init, n, asWritten);
    IdsAtDeleteAll(Ops(init.local, pulls), keys, n, k);
    IdsAtDeleteAll(Ops(init.remote, pulls), keys, n, k);
  }

  /**
   * Corrected, one side's turn appends the elements of its non-primitive
   * entries under `k` to the result's and leaves none of them behind.
   */
  lemma TurnIds(result: Update, side: Update, primitive: seq<Path>, pulls: bool, k: Path)
    requires NoPrimitiveAt(Ops(side, pulls), k)
    ensures var t := TurnOf(result, side, primitive, side.pushes, side.pulls, false);
            IdsAt(Ops(t.result, pulls), k) == IdsAt(Ops(result, pulls), k) + SweptIds(Ops(side, pulls), |Ops(side, pulls)|, k)
            && IdsAt(Ops(t.side, pulls), k) == []
  {
    var ps := SweepSteps(side.pushes, Sweep(result.pushes, side.pushes, primitive), |side.pushes|, false);
    if pulls {
      SweepResultIds(side.pulls, Sweep(result.pulls, side.pulls, ps.primitive), |side.pulls|, k);
      SweepClears(side.pulls, result.pulls, ps.primitive, k, false);
    } else {
      SweepResultIds(side.pushes, Sweep(result.pushes, side.pushes, primitive), |side.pushes|, k);
      SweepClears(side.pushes, result.pushes, primitive, k, false);
    }
  }

  /**
   * The corrected leftover merge loses no `$push` or `$pull` element: under a
   * key where neither side has a primitive entry, the merged elements are
   * those the decisions put there, then the remote side's, then the local
   * side's.
   */
  lemma LeftoverArrays(result: Update, local: Update, remote: Update, pulls: bool, k: Path)
    requires NoPrimitiveAt(Ops(local, pulls), k) && NoPrimitiveAt(Ops(remote, pulls), k)
    ensures IdsAt(Ops(Leftovers(result, local, remote).result, pulls), k)
         == IdsAt(Ops(result, pulls), k) + SweptIds(Ops(remote, pulls), |Ops(remote, pulls)|, k)
            + SweptIds(Ops(local, pulls), |Ops(local, pulls)|, k)
  {
    var t1 := TurnOf(result, remote, [], remote.pushes, remote.pulls, false);
    var t2 := TurnOf(t1.result, local, t1.primitive, local.pushes, local.pulls, false);
    TurnIds(result, remote, [], pulls, k);
    TurnIds(t1.result, local, t1.primitive, pulls, k);
    PrimitiveStepsKeep(t2.primitive, Tail(t2.result, t2.side, t1.side), |t2.primitive|, false, pulls, k);
  }

  /**
   * As written, the local turn sweeps the remote dictionaries again, so a
   * local sub-model `$push` never reaches the result and stays behind in the
   * local patch.
   */
  lemma LeftoversAsWrittenLosesLocalPush()
    ensures var local := Update([], [([0], ArrayOp(eSubModel, [IdPos(0, Num(1.0))]))], []);
            LeftoversAsWritten(NoUpdates, local, NoUpdates).result.pushes == []
            && LeftoversAsWritten(NoUpdates, local, NoUpdates).local.pushes == local.pushes
            && Leftovers(NoUpdates, local, NoUpdates).result.pushes == local.pushes
  {
    var local := Update([], [([0], ArrayOp(eSubModel, [IdPos(0, Num(1.0))]))], []);
    var t1 := TurnOf(NoUpdates, NoUpdates, [], [], [], true);
    assert t1 == Turn(NoUpdates, NoUpdates, []);
    assert TurnOf(NoUpdates, NoUpdates, [], [], [], false) == Turn(NoUpdates, NoUpdates, []);
    var sw := SweepSteps(local.pushes, Sweep([], local.pushes, []), 1, false);
    assert sw == SweepStep(Sweep([], local.pushes, []), local.pushes[0], false);
    assert sw == Sweep(local.pushes, [], []);
    assert TurnOf(NoUpdates, local, [], local.pushes, local.pulls, false) == Turn(Update([], local.pushes, []), NoUpdates, []);
  }

  /**
   * As written, a swept entry overwrites the result's entry under the same
   * key. Local `$pull` of `x` at position 0 under `5`, remote `$set` of
   * `5.0.7` and remote `$pull` of `y` at position 1 under `5`: `y` steals
   * nothing and stays remote, `x` steals the set and `eAuto` puts `[x]`
   * under `5`; the remote turn then replaces it by `[y]`. Corrected, both
   * elements are pulled.
   */
  lemma LeftoversAsWrittenOverwritesPull()
    ensures var x, y := IdPos(0, Str("x")), IdPos(1, Str("y"));
            var result := Update([], [], [([5], ArrayOp(eSubModel, [x]))]);
            var remote := Update([], [], [([5], ArrayOp(eSubModel, [y]))]);
            LeftoversAsWritten(result, NoUpdates, remote).result.pulls == remote.pulls
            && Leftovers(result, NoUpdates, remote).result.pulls == [([5], ArrayOp(eSubModel, [x, y]))]
  {
    var x, y := IdPos(0, Str("x")), IdPos(1, Str("y"));
    var result := Update([], [], [([5], ArrayOp(eSubModel, [x]))]);
    var remote := Update([], [], [([5], ArrayOp(eSubModel, [y]))]);
    var init := Sweep(result.pulls, remote.pulls, []);
    SweepStepsNext(remote.pulls, init, 0, true);
    SweepStepsNext(remote.pulls, init, 0, false);
    assert result.pulls[0].0 == [5] && remote.pulls[0].0 == [5] && remote.pulls[1..] == [];
    assert Delete(remote.pulls, [5]) == [];
    var w := SweepSteps(remote.pulls, init, 1, true);
    assert PutEntry(result.pulls, [5], ArrayOp(eSubModel, [y])) == remote.pulls;
    assert w == Sweep(remote.pulls, [], []);
    var t1w := TurnOf(result, remote, [], remote.pushes, remote.pulls, true);
    assert t1w == Turn(Update([], [], remote.pulls), NoUpdates, []);
    assert TurnOf(t1w.result, NoUpdates, [], [], [], true) == Turn(t1w.result, NoUpdates, []);
    var c := SweepSteps(remote.pulls, init, 1, false);
    assert EntryOf(result.pulls, [5]) == Some(ArrayOp(eSubModel, [x]));
    assert [x] + [y] == [x, y];
    assert PutEntry(result.pulls, [5], ArrayOp(eSubModel, [x, y])) == [([5], ArrayOp(eSubModel, [x, y]))];
    assert AppendEntry(result.pulls, [5], ArrayOp(eSubModel, [y])) == [([5], ArrayOp(eSubModel, [x, y]))];
    assert c == Sweep([([5], ArrayOp(eSubModel, [x, y]))], [], []);
    var t1 := TurnOf(result, remote, [], remote.pushes, remote.pulls, false);
    assert t1 == Turn(Update([], [], c.result), NoUpdates, []);
    assert TurnOf(t1.result, NoUpdates, [], NoUpdates.pushes, NoUpdates.pulls, false) == Turn(t1.result, NoUpdates, []);
  }

  /** The first pulled element of the example steals the first `$set` ... */
  lemma ExampleStealsFirst(a: (Path, Value), b: (Path, Value))
    requires a == ([5, 0, 7], Num(3.0)) && b == ([5, 1, 7], Num(4.0))
    ensures Stolen(Update([a, b], [], []), [5, 0]) == Update([a], [], [])
    ensures Left(Update([a, b], [], []), [5, 0]) == Update([b], [], [])
  {
    var m := [a, b];
    assert Below(m[0].0, [5, 0]) by {
      assert m[0].0[..2] == [5, 0];
    }
    assert !Below(m[1].0, [5, 0]) by {
      assert m[1].0[..2][1] == 1;
    }
    assert Matching(m, [5, 0], 1) == [a];
    assert Remaining(m, [5, 0], 1) == [];
    assert Matching(m, [5, 0], 2) == [a];
    assert Remaining(m, [5, 0], 2) == [b];
  }

  /** ... and the second element the other. */
  lemma ExampleStealsSecond(b: (Path, Value))
    requires b == ([5, 1, 7], Num(4.0))
    ensures Stolen(Update([b], [], []), [5, 1]) == Update([b], [], [])
    ensures Left(Update([b], [], []), [5, 1]) == NoUpdates
  {
    var m := [b];
    assert Below(m[0].0, [5, 1]) by {
      assert m[0].0[..2] == [5, 1];
    }
    assert Matching(m, [5, 1], 1) == [b];
    assert Remaining(m, [5, 1], 1) == [];
  }

  /**
   * As written, a sub-model pull entry with two conflicting elements yields a
   * second conflict whose pull side is `undefined`: the first conflict took
   * and deleted the whole entry. The corrected scan gives each conflict the
   * pull of its own element.
   */
  lemma PullConflictsAsWrittenLosesPull(item: ArrayOp, a: (Path, Value), b: (Path, Value))
    requires item == ArrayOp(eSubModel, [IdPos(0, Num(1.0)), IdPos(1, Num(2.0))])
    requires a == ([5, 0, 7], Num(3.0)) && b == ([5, 1, 7], Num(4.0))
    ensures var raw := EntryConflictsAsWritten([5], item, Update([a, b], [], []), true);
            |raw.conflicts| == 2 && raw.conflicts[0].pullEntry == Some(item) && raw.conflicts[1].pullEntry == None
    ensures var fixed := ElementSteps([5], true, item.idsAndPositions, ElementScan([], [], Update([a, b], [], [])), 2);
            |fixed.conflicts| == 2
            && fixed.conflicts[0].local == PullFragment([5], item.idsAndPositions[0])
            && fixed.conflicts[1].local == PullFragment([5], item.idsAndPositions[1])
  {
    var elems := item.idsAndPositions;
    ExampleStealsFirst(a, b);
    ExampleStealsSecond(b);
    assert [5] + [elems[0].position] == [5, 0];
    assert [5] + [elems[1].position] == [5, 1];
    var raw0 := RawScan([], Some(item), Update([a, b], [], []));
    assert !ObjEmptyAsWritten(Update([a], [], [])) by {
      assert Update([a], [], []).sets[0].1 == Num(3.0);
    }
    var raw1 := ElementStepAsWritten([5], true, raw0, elems[0]);
    assert ElementStepsAsWritten([5], true, elems, raw0, 1) == raw1;
    assert raw1 == RawScan([RawConflict(eLocal, [5], Some(item), Update([a], [], []))], None, Update([b], [], []));
    var fixed0 := ElementScan([], [], Update([a, b], [], []));
    var fixed1 := ElementStep([5], true, fixed0, elems[0]);
    assert ElementSteps([5], true, elems, fixed0, 1) == fixed1;
    assert fixed1 == ElementScan([Conflict(eLocal, PullFragment([5], elems[0]), Update([a], [], []))], [], Update([b], [], []));
  }

  /**
   * As written, remote pulls of the ids at positions 0 and 1 under `5`
   * against local sets of `5.0.7` and `5.1.7` raise two conflicts: the first
   * holds the whole entry, the second `undefined`.
   */
  lemma RemotePullConflictsAsWritten(item: ArrayOp, a: (Path, Value), b: (Path, Value))
    requires item == ArrayOp(eSubModel, [IdPos(0, Num(1.0)), IdPos(1, Num(2.0))])
    requires a == ([5, 0, 7], Num(3.0)) && b == ([5, 1, 7], Num(4.0))
    ensures EntryConflictsAsWritten([5], item, Update([a, b], [], []), false).conflicts
         == [RawConflict(eRemote, [5], Some(item), Update([a], [], [])), RawConflict(eRemote, [5], None, Update([b], [], []))]
  {
    var elems := item.idsAndPositions;
    ExampleStealsFirst(a, b);
    ExampleStealsSecond(b);
    assert [5] + [elems[0].position] == [5, 0];
    assert [5] + [elems[1].position] == [5, 1];
    assert !ObjEmptyAsWritten(Update([a], [], [])) by {
      assert Update([a], [], []).sets[0].1 == Num(3.0);
    }
    assert !ObjEmptyAsWritten(Update([b], [], [])) by {
      assert Update([b], [], []).sets[0].1 == Num(4.0);
    }
    var raw0 := RawScan([], Some(item), Update([a, b], [], []));
    var raw1 := ElementStepAsWritten([5], false, raw0, elems[0]);
    assert ElementStepsAsWritten([5], false, elems, raw0, 1) == raw1;
    assert raw1 == RawScan([RawConflict(eRemote, [5], Some(item), Update([a], [], []))], None, Update([b], [], []));
  }

  /**
   * As written, those two conflicts cannot be merged by `eAuto` nor by
   * answering remote to everything: the first conflict puts the whole entry
   * in the result (line 219), and appending the second conflict's
   * `undefined` entry to it (line 217) throws. The corrected conflicts of
   * the same input merge under both answers (`RunAutoMerges`,
   * `RunSideMerges`).
   */
  lemma DecidedAsWrittenThrows(item: ArrayOp, a: (Path, Value), b: (Path, Value))
    requires item == ArrayOp(eSubModel, [IdPos(0, Num(1.0)), IdPos(1, Num(2.0))])
    requires a == ([5, 0, 7], Num(3.0)) && b == ([5, 1, 7], Num(4.0))
    ensures var raw := EntryConflictsAsWritten([5], item, Update([a, b], [], []), false);
            |raw.conflicts| == 2
            && DecidedRawAsWritten(raw.conflicts, [eAuto, eAuto], 2) == Err(UndefinedEntryMessage)
            && DecidedRawAsWritten(raw.conflicts, [eRemote, eRemote], 2) == Err(UndefinedEntryMessage)
  {
    RemotePullConflictsAsWritten(item, a, b);
    var c1 := RawConflict(eRemote, [5], Some(item), Update([a], [], []));
    var c2 := RawConflict(eRemote, [5], None, Update([b], [], []));
    var cs := [c1, c2];
    var first := Ok(NoUpdates.(pulls := [([5], item)]));
    assert AppendEntry([], [5], item) == [([5], item)];
    assert DecidedRawAsWritten(cs, [eAuto, eAuto], 1) == first;
    assert DecidedRawAsWritten(cs, [eRemote, eRemote], 1) == first;
    assert EntryOf([([5], item)], [5]).Some?;
  }

  /** Stealing below `5.0` from a patch whose one `$set` lies there takes it all. */
  lemma ExampleStealsOnly(a: (Path, Value))
    requires a.0 == [5, 0, 7]
    ensures Stolen(Update([a], [], []), [5, 0]) == Update([a], [], [])
    ensures Left(Update([a], [], []), [5, 0]) == NoUpdates
  {
    assert Below(a.0, [5, 0]);
    assert Matching([a], [5, 0], 1) == [a];
    assert Remaining([a], [5, 0], 1) == [];
  }

  /**
   * As written, a `$set` to `undefined` below a pulled entry raises no
   * conflict and is gone from the other patch: `objEmpty` passes the stolen
   * fragment. The corrected scan moves the set into a conflict beside the
   * pull of that entry.
   */
  lemma PullConflictsAsWrittenDropsUndefinedSet(item: ArrayOp, a: (Path, Value))
    requires item == ArrayOp(eSubModel, [IdPos(0, Str("x"))])
    requires a == ([5, 0, 7], Undef)
    ensures var raw := EntryConflictsAsWritten([5], item, Update([a], [], []), false);
            raw.conflicts == [] && raw.other == NoUpdates
    ensures var fixed := ElementSteps([5], false, item.idsAndPositions, ElementScan([], [], Update([a], [], [])), 1);
            fixed.conflicts == [Conflict(eRemote, Update([a], [], []), PullFragment([5], item.idsAndPositions[0]))]
            && fixed.kept == [] && fixed.other == NoUpdates
  {
    var e := item.idsAndPositions[0];
    assert [5] + [e.position] == [5, 0];
    ExampleStealsOnly(a);
    var raw0 := RawScan([], Some(item), Update([a], [], []));
    assert ElementStepsAsWritten([5], false, item.idsAndPositions, raw0, 1) == ElementStepAsWritten([5], false, raw0, e);
  }

  // ---------------------------------------------------------------------------
  // Merging a chosen fragment

  lemma {:induction false} IdsAtEntry(m: seq<(Path, ArrayOp)>, k: Path)
    ensures IdsAt(m, k) == if EntryOf(m, k).Some? then EntryOf(m, k).value.idsAndPositions else []
  {
    if m != [] {
      IdsAtEntry(m[1..], k);
    }
  }

  /** Appending to `$push[k]` or `$pull[k]` extends the elements at `k` and leaves every other key alone. */
  lemma AppendEntryIds(m: seq<(Path, ArrayOp)>, k: Path, op: ArrayOp, k': Path)
    ensures IdsAt(AppendEntry(m, k, op), k') == if k' == k then IdsAt(m, k) + op.idsAndPositions else IdsAt(m, k')
  {
    IdsAtEntry(m, k);
    IdsAtEntry(m, k');
    var op' := match EntryOf(m, k)
               case Some(cur) => cur.(idsAndPositions := cur.idsAndPositions + op.idsAndPositions)
               case None => op;
    assert AppendEntry(m, k, op) == PutEntry(m, k, op');
    EntryOfPut(m, k, op', k');
    IdsAtEntry(PutEntry(m, k, op'), k');
  }

  /**
   * With unique keys in the fragment, the elements at a key after the merge
   * are the result's followed by the fragment's.
   */
  lemma AppendEntriesIds(m: seq<(Path, ArrayOp)>, entries: seq<(Path, ArrayOp)>, n: nat, k: Path)
    requires n <= |entries| && UniqueKeys(entries)
    ensures IdsAt(AppendEntries(m, entries, n), k) == if k in KeysOf(entries)[..n] then IdsAt(m, k) + IdsAt(entries, k) else IdsAt(m, k)
  {
    var ks := KeysOf(entries);
    var i := 0;
    while i < n
      invariant i <= n
      invariant IdsAt(AppendEntries(m, entries, i), k) == if k in ks[..i] then IdsAt(m, k) + IdsAt(entries, k) else IdsAt(m, k)
    {
      AppendEntryIds(AppendEntries(m, entries, i), ks[i], entries[i].1, k);
      AppendEntriesNext(m, entries, i);
      assert ks[..i + 1] == ks[..i] + [ks[i]];
      if k == ks[i] {
        IdsAtUnique(entries, i);
        assert k !in ks[..i];
      }
      i := i + 1;
    }
  }

  lemma {:induction false} IdsAtUnique(m: seq<(Path, ArrayOp)>, i: nat)
    requires i < |m| && UniqueKeys(m)
    ensures IdsAt(m, m[i].0) == m[i].1.idsAndPositions
  {
    if i > 0 {
      assert m[0].0 != m[i].0;
      IdsAtUnique(m[1..], i - 1);
    }
  }

  /**
   * A chosen fragment merged into the result: its `$set` entries overwrite,
   * its `$push` and `$pull` elements are appended to the result's.
   */
  lemma MergeFragmentSpec(result: Update, frag: Update, k: Path)
    requires UniqueKeys(frag.sets) && UniqueKeys(frag.pushes) && UniqueKeys(frag.pulls)
    ensures var r := MergeFragment(result, frag);
            ValueOf(r.sets, k) == (if k in KeysOf(frag.sets) then ValueOf(frag.sets, k) else ValueOf(result.sets, k))
            && IdsAt(r.pushes, k) == IdsAt(result.pushes, k) + IdsAt(frag.pushes, k)
            && IdsAt(r.pulls, k) == IdsAt(result.pulls, k) + IdsAt(frag.pulls, k)
  {
    PutEntriesLookup(result.sets, frag.sets, |frag.sets|, k);
    AppendEntriesIds(result.pushes, frag.pushes, |frag.pushes|, k);
    AppendEntriesIds(result.pulls, frag.pulls, |frag.pulls|, k);
    assert KeysOf(frag.sets)[..|frag.sets|] == KeysOf(frag.sets);
    assert KeysOf(frag.pushes)[..|frag.pushes|] == KeysOf(frag.pushes);
    assert KeysOf(frag.pulls)[..|frag.pulls|] == KeysOf(frag.pulls);
    if k !in KeysOf(frag.pushes) {
      IdsAtAbsent(frag.pushes, k);
    }
    if k !in KeysOf(frag.pulls) {
      IdsAtAbsent(frag.pulls, k);
    }
  }

  // ---------------------------------------------------------------------------
  // An automatic run keeps every remote pull

  /** Entry `x` pulls element `e` of the sub-model array at `k`. */
  predicate PullsElement(x: (Path, ArrayOp), k: Path, e: IdPos)
  {
    x.0 == k && x.1.dataType == eSubModel && e in x.1.idsAndPositions
  }

  /** Conflict `c` is a remote pull of element `e` of the array at `k`, the side `eAuto` picks. */
  predicate RemotePullOf(c: Conflict, k: Path, e: IdPos)
  {
    c.autoDecision == eRemote && c.remote == PullFragment(k, e)
  }

  /** Element `e` of the array at `k` is still pulled by a pull entry or by a remote conflict. */
  ghost predicate Reached(pulls: seq<(Path, ArrayOp)>, conflicts: seq<Conflict>, k: Path, e: IdPos)
  {
    (exists y :: y in pulls && PullsElement(y, k, e)) || (exists c :: c in conflicts && RemotePullOf(c, k, e))
  }

  lemma ReachedGrows(pulls: seq<(Path, ArrayOp)>, conflicts: seq<Conflict>, pulls': seq<(Path, ArrayOp)>, conflicts': seq<Conflict>, k: Path, e: IdPos)
    requires forall y :: y in pulls ==> y in pulls'
    requires forall c :: c in conflicts ==> c in conflicts'
    requires Reached(pulls, conflicts, k, e)
    ensures Reached(pulls', conflicts', k, e)
  {
    if exists y :: y in pulls && PullsElement(y, k, e) {
      var y :| y in pulls && PullsElement(y, k, e);
      assert y in pulls';
    } else {
      var c :| c in conflicts && RemotePullOf(c, k, e);
      assert c in conflicts';
    }
  }

  /**
   * The loop over the elements of a remote sub-model pull entry at `k` only
   * adds conflicts and kept elements, and every element it has passed is
   * kept or pulled by a remote conflict.
   */
  lemma {:induction false} ElementStepsReach(k: Path, elems: seq<IdPos>, init: ElementScan, n: nat, e: IdPos)
    requires n <= |elems|
    ensures var r := ElementSteps(k, false, elems, init, n);
            (forall c :: c in init.conflicts ==> c in r.conflicts)
            && (forall x :: x in init.kept ==> x in r.kept)
            && (e in elems[..n] ==> e in r.kept || exists c :: c in r.conflicts && RemotePullOf(c, k, e))
  {
    if n > 0 {
      ElementStepsReach(k, elems, init, n - 1, e);
      var s := ElementSteps(k, false, elems, init, n - 1);
      var x := elems[n - 1];
      assert elems[..n] == elems[..n - 1] + [x];
      var frag := Stolen(s.other, k + [x.position]);
      if !IsEmpty(frag) {
        var c := Conflict(eRemote, frag, PullFragment(k, x));
        assert ElementSteps(k, false, elems, init, n).conflicts == s.conflicts + [c];
        if e == x {
          assert c in s.conflicts + [c];
        } else if e in elems[..n - 1] && e !in s.kept {
          var c0 :| c0 in s.conflicts && RemotePullOf(c0, k, e);
          assert c0 in s.conflicts + [c];
        }
      }
    }
  }

  /** One remote pull entry: the kept entries and the conflicts only grow, and an entry pulling `e` at `k` leaves it reached. */
  lemma EntryStepReach(s: PullScan, x: (Path, ArrayOp), k: Path, e: IdPos)
    ensures var r := EntryStep(false, s, x);
            (forall y :: y in s.pulls ==> y in r.pulls)
            && (forall c :: c in s.conflicts ==> c in r.conflicts)
            && (PullsElement(x, k, e) ==> Reached(r.pulls, r.conflicts, k, e))
  {
    var r := EntryStep(false, s, x);
    if x.1.dataType == eSubModel {
      var ids := x.1.idsAndPositions;
      var el := ElementSteps(x.0, false, ids, ElementScan(s.conflicts, [], s.other), |ids|);
      ElementStepsReach(x.0, ids, ElementScan(s.conflicts, [], s.other), |ids|, e);
      assert ids[..|ids|] == ids;
      if PullsElement(x, k, e) && e in el.kept {
        var y := (x.0, x.1.(idsAndPositions := el.kept));
        assert r.pulls == s.pulls + [y];
        assert y in r.pulls && PullsElement(y, k, e);
      }
    } else {
      assert r.pulls == s.pulls + [x];
    }
  }

  /** After the loop over the remote pull entries, every element of a sub-model entry at `k` is reached. */
  lemma {:induction false} EntryStepsReach(entries: seq<(Path, ArrayOp)>, init: PullScan, n: nat, j: nat, k: Path, e: IdPos)
    requires j < n <= |entries| && PullsElement(entries[j], k, e)
    ensures var r := EntrySteps(false, entries, init, n);
            Reached(r.pulls, r.conflicts, k, e)
  {
    var prev := EntrySteps(false, entries, init, n - 1);
    var r := EntrySteps(false, entries, init, n);
    EntryStepReach(prev, entries[n - 1], k, e);
    if j < n - 1 {
      EntryStepsReach(entries, init, n - 1, j, k, e);
      ReachedGrows(prev.pulls, prev.conflicts, r.pulls, r.conflicts, k, e);
    }
  }

  /** An entry whose key does not lie below `prefix` is not stolen. */
  lemma {:induction false} RemainingKeeps<V>(m: seq<(Path, V)>, prefix: Path, n: nat, y: (Path, V))
    requires n <= |m| && y in m[..n] && !Below(y.0, prefix)
    ensures y in Remaining(m, prefix, n)
  {
    if m[n - 1] != y {
      assert m[..n] == m[..n - 1] + [m[n - 1]];
      RemainingKeeps(m, prefix, n - 1, y);
    }
  }

  /** A key below `k.p` lies below `k`. */
  lemma BelowChild(key: Path, k: Path, p: nat)
    requires Below(key, k + [p])
    ensures Below(key, k)
  {
    assert key[..|k|] == key[..|k| + 1][..|k|];
  }

  /** The loop over the elements of a pull entry at `k` steals no entry whose key does not lie below `k`. */
  lemma {:induction false} ElementStepsKeepOther(k: Path, pullIsLocal: bool, elems: seq<IdPos>, init: ElementScan, n: nat, y: (Path, ArrayOp))
    requires n <= |elems| && y in init.other.pulls && !Below(y.0, k)
    ensures y in ElementSteps(k, pullIsLocal, elems, init, n).other.pulls
  {
    if n > 0 {
      ElementStepsKeepOther(k, pullIsLocal, elems, init, n - 1, y);
      var s := ElementSteps(k, pullIsLocal, elems, init, n - 1);
      var prefix := k + [elems[n - 1].position];
      if Below(y.0, prefix) {
        BelowChild(y.0, k, elems[n - 1].position);
      }
      assert s.other.pulls[..|s.other.pulls|] == s.other.pulls;
      RemainingKeeps(s.other.pulls, prefix, |s.other.pulls|, y);
    }
  }

  /** The loop over pull entries steals no `$pull` entry whose key lies below none of their keys. */
  lemma {:induction false} EntryStepsKeepOther(pullIsLocal: bool, entries: seq<(Path, ArrayOp)>, init: PullScan, n: nat, y: (Path, ArrayOp))
    requires n <= |entries| && y in init.other.pulls
    requires forall x :: x in entries ==> !Below(y.0, x.0)
    ensures y in EntrySteps(pullIsLocal, entries, init, n).other.pulls
  {
    if n > 0 {
      EntryStepsKeepOther(pullIsLocal, entries, init, n - 1, y);
      var s := EntrySteps(pullIsLocal, entries, init, n - 1);
      var x := entries[n - 1];
      assert x in entries;
      if x.1.dataType == eSubModel {
        ElementStepsKeepOther(x.0, pullIsLocal, x.1.idsAndPositions, ElementScan(s.conflicts, [], s.other), |x.1.idsAndPositions|, y);
      }
    }
  }

  /** The pull entries the loop keeps have the type of the entry they came from, so no primitive one appears under `k`. */
  lemma {:induction false} EntryStepsNoPrimitive(pullIsLocal: bool, entries: seq<(Path, ArrayOp)>, init: PullScan, n: nat, k: Path)
    requires n <= |entries| && NoPrimitiveAt(init.pulls, k) && NoPrimitiveAt(entries, k)
    ensures NoPrimitiveAt(EntrySteps(pullIsLocal, entries, init, n).pulls, k)
  {
    if n > 0 {
      EntryStepsNoPrimitive(pullIsLocal, entries, init, n - 1, k);
      assert entries[n - 1] in entries;
    }
  }

  /** What `_getPullConflicts` leaves in the other patch's `$pull` dictionary was there before. */
  lemma OtherPullsFrom(pulls: seq<(Path, ArrayOp)>, other: Update, pullIsLocal: bool)
    ensures forall y :: y in PullConflicts(pulls, other, pullIsLocal).other.pulls ==> y in other.pulls
  {
    var r := PullConflicts(pulls, other, pullIsLocal);
    PullConflictsPool(pulls, other, pullIsLocal);
    var kept, taken := multiset(r.other.pulls), multiset(TakenFrom(r.conflicts, pullIsLocal).pulls);
    assert kept + taken == multiset(other.pulls) + multiset(NoUpdates.pulls);
    assert multiset(other.pulls) + multiset(NoUpdates.pulls) == multiset(other.pulls);
    assert kept <= kept + taken;
    forall y | y in r.other.pulls ensures y in other.pulls {
      assert y in multiset(r.other.pulls);
    }
  }

  /** Merging fragments only appends elements, so the result's elements at `k` stay a prefix. */
  lemma {:induction false} AppendEntriesGrow(m: seq<(Path, ArrayOp)>, entries: seq<(Path, ArrayOp)>, n: nat, k: Path)
    requires n <= |entries|
    ensures IdsAt(m, k) <= IdsAt(AppendEntries(m, entries, n), k)
  {
    if n > 0 {
      AppendEntriesGrow(m, entries, n - 1, k);
      AppendEntryIds(AppendEntries(m, entries, n - 1), entries[n - 1].0, entries[n - 1].1, k);
    }
  }

  /** Once a decision has put element `e` under `k`, the later successful decisions keep it there. */
  lemma {:induction false} DecidedKeepsIds(cs: seq<Conflict>, ds: seq<Decision>, m: nat, n: nat, k: Path, e: IdPos)
    requires m <= n <= |cs| && Decided(cs, ds, n).Ok? && Decided(cs, ds, m).Ok?
    requires e in IdsAt(Decided(cs, ds, m).value.pulls, k)
    ensures e in IdsAt(Decided(cs, ds, n).value.pulls, k)
  {
    if m < n {
      assert Decided(cs, ds, n - 1).Ok?;
      DecidedKeepsIds(cs, ds, m, n - 1, k, e);
      var prev := Decided(cs, ds, n - 1).value;
      var f := Chosen(cs[n - 1], DecisionAt(ds, n - 1)).value;
      AppendEntriesGrow(prev.pulls, f.pulls, |f.pulls|, k);
      var a, b := IdsAt(prev.pulls, k), IdsAt(Decided(cs, ds, n).value.pulls, k);
      assert a == b[..|a|];
      assert e in b[..|a|];
    }
  }

  /** `eAuto` on a remote pull conflict appends the pulled element under its key. */
  lemma DecidedRemotePull(cs: seq<Conflict>, ds: seq<Decision>, i: nat, k: Path, e: IdPos)
    requires i < |cs| && RemotePullOf(cs[i], k, e) && DecisionAt(ds, i) == Some(eAuto)
    requires Decided(cs, ds, i + 1).Ok?
    ensures e in IdsAt(Decided(cs, ds, i + 1).value.pulls, k)
  {
    var prev := Decided(cs, ds, i).value;
    var op := ArrayOp(eSubModel, [e]);
    assert Chosen(cs[i], DecisionAt(ds, i)) == Ok(PullFragment(k, e));
    assert AppendEntries(prev.pulls, [(k, op)], 1) == AppendEntry(prev.pulls, k, op);
    AppendEntryIds(prev.pulls, k, op, k);
  }

  /** The working patches a run detects conflicts in have no primitive `$pull` under `k` when the inputs have none. */
  lemma DetectNoPrimitive(local: Update, remote: Update, k: Path)
    requires NoPrimitiveAt(remote.pulls, k) && NoPrimitiveAt(local.pulls, k)
    ensures NoPrimitiveAt(Detect(local, remote).local.pulls, k) && NoPrimitiveAt(Detect(local, remote).remote.pulls, k)
  {
    var p1 := PullConflicts(remote.pulls, local, false);
    var remote1, local1 := remote.(pulls := p1.pulls), p1.other;
    var p2 := PullConflicts(local1.pulls, remote1, true);
    assert Detect(local, remote).local.pulls == p2.pulls && Detect(local, remote).remote.pulls == p2.other.pulls;
    OtherPullsFrom(remote.pulls, local, false);
    OtherPullsFrom(local1.pulls, remote1, true);
    EntryStepsNoPrimitive(false, remote.pulls, PullScan([], [], local), |remote.pulls|, k);
    EntryStepsNoPrimitive(true, local1.pulls, PullScan([], [], remote1), |local1.pulls|, k);
  }

  /**
   * After detection, an element of a remote sub-model pull at `k` is still
   * pulled by the remote working patch under `k` or by a remote conflict,
   * when no local `$pull` key lies above `k`.
   */
  lemma DetectReach(local: Update, remote: Update, j: nat, e: IdPos)
    requires j < |remote.pulls| && PullsElement(remote.pulls[j], remote.pulls[j].0, e)
    requires forall x :: x in local.pulls ==> !Below(remote.pulls[j].0, x.0)
    ensures var d, k := Detect(local, remote), remote.pulls[j].0;
            (exists i :: 0 <= i < |d.remote.pulls| && PullsElement(d.remote.pulls[i], k, e))
            || (exists i :: 0 <= i < |d.conflicts| && RemotePullOf(d.conflicts[i], k, e))
  {
    var k := remote.pulls[j].0;
    var p1 := PullConflicts(remote.pulls, local, false);
    var remote1, local1 := remote.(pulls := p1.pulls), p1.other;
    var p2 := PullConflicts(local1.pulls, remote1, true);
    var d := Detect(local, remote);
    assert d.remote.pulls == p2.other.pulls;
    OtherPullsFrom(remote.pulls, local, false);
    EntryStepsReach(remote.pulls, PullScan([], [], local), |remote.pulls|, j, k, e);
    if exists y :: y in p1.pulls && PullsElement(y, k, e) {
      var y :| y in p1.pulls && PullsElement(y, k, e);
      EntryStepsKeepOther(true, local1.pulls, PullScan([], [], remote1), |local1.pulls|, y);
      var i :| 0 <= i < |d.remote.pulls| && d.remote.pulls[i] == y;
    } else {
      var c :| c in p1.conflicts && RemotePullOf(c, k, e);
      var i :| 0 <= i < |p1.conflicts| && p1.conflicts[i] == c;
      assert d.conflicts[i] == c;
    }
  }

  /** When the decisions succeed and conflict `i`'s is `eAuto`, its remote pull's element is in the decided `$pull` under its key. */
  lemma AutoDecidedHas(cs: seq<Conflict>, ds: seq<Decision>, i: nat, k: Path, e: IdPos)
    requires i < |cs| && RemotePullOf(cs[i], k, e) && DecisionAt(ds, i) == Some(eAuto)
    requires Decided(cs, ds, |cs|).Ok?
    ensures e in IdsAt(Decided(cs, ds, |cs|).value.pulls, k)
  {
    if Decided(cs, ds, i + 1).Err? {
      DecidedStaysErr(cs, ds, i + 1, |cs|);
    }
    DecidedRemotePull(cs, ds, i, k, e);
    DecidedKeepsIds(cs, ds, i + 1, |cs|, k, e);
  }

  /**
   * Under `eAuto` a run loses no element of a remote sub-model `$pull`:
   * whether a conflict pulled it or it stayed in the remote patch, it is in
   * the merged `$pull` under the same key. This needs no primitive `$pull`
   * under that key on either side and no local `$pull` key above it.
   */
  lemma AutoKeepsRemotePull(local: Update, remote: Update, j: nat, e: IdPos)
    requires j < |remote.pulls| && PullsElement(remote.pulls[j], remote.pulls[j].0, e)
    requires NoPrimitiveAt(remote.pulls, remote.pulls[j].0) && NoPrimitiveAt(local.pulls, remote.pulls[j].0)
    requires forall x :: x in local.pulls ==> !Below(remote.pulls[j].0, x.0)
    ensures Run(local, remote, AnswerAll(eAuto)).merged.Ok?
    ensures e in IdsAt(Run(local, remote, AnswerAll(eAuto)).merged.value.pulls, remote.pulls[j].0)
  {
    var k := remote.pulls[j].0;
    RunAutoMerges(local, remote);
    var d := Detect(local, remote);
    var cs := d.conflicts;
    var decided := if cs == [] then Ok(NoUpdates) else Decided(cs, AnswerAll(eAuto)(cs), |cs|);
    assert decided.Ok?;
    DetectNoPrimitive(local, remote, k);
    LeftoverArrays(decided.value, d.local, d.remote, true, k);
    assert Run(local, remote, AnswerAll(eAuto)).merged.value.pulls == Leftovers(decided.value, d.local, d.remote).result.pulls;
    DetectReach(local, remote, j, e);
    if exists i :: 0 <= i < |d.remote.pulls| && PullsElement(d.remote.pulls[i], k, e) {
      var i :| 0 <= i < |d.remote.pulls| && PullsElement(d.remote.pulls[i], k, e);
      SweptIdsHas(d.remote.pulls, |d.remote.pulls|, i, k, e);
    } else {
      var i :| 0 <= i < |cs| && RemotePullOf(cs[i], k, e);
      assert DecisionAt(AnswerAll(eAuto)(cs), i) == Some(eAuto);
      AutoDecidedHas(cs, AnswerAll(eAuto)(cs), i, k, e);
    }
  }
}
