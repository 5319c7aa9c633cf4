/**
 * The three-way merge of two patches made against the same record
 * (src/patch/patchMerge.ts): a local patch and a remote one are deep-copied
 * into working patches, conflicts are taken out of them in a fixed order
 * (remote sub-model pulls, local sub-model pulls, then `$set` on the same
 * path), a list of decisions picks one side of every conflict, and what is
 * left of both working patches is merged in.
 *
 * The asynchronous resolver of the source is a function from the conflict
 * list to the decision list. A dotted key is kept as its list of numbers.
 */
module PatchMerge {
  import opened Wrappers
  import opened Values
  import opened Dict
  import opened Patch
  import ArraySet

  /** `EDeepModelPatchMergeDecision`: -1, 0, 1 and 2. */
  datatype Decision = eNone | eLocal | eRemote | eAuto

  /** A conflict: the fragment each side would contribute and the side `eAuto` stands for. */
  datatype Conflict = Conflict(autoDecision: Decision, local: Update, remote: Update)

  const DecisionMessage := "Decision must be eLocal or eRemote, is "

  /** The decision as the error message prints it; `None` is a missing list element. */
  function DecisionText(d: Option<Decision>): string
  {
    match d
    case None => "undefined"
    case Some(eNone) => "-1"
    case Some(eLocal) => "0"
    case Some(eRemote) => "1"
    case Some(eAuto) => "2"
  }

  /** A fragment with no keys in any of its three dictionaries: what `objEmpty` is meant to test. */
  predicate IsEmpty(u: Update)
  {
    u.sets == [] && u.pushes == [] && u.pulls == []
  }

  /**
   * `objEmpty` on all three dictionaries as written: `JSON.stringify` leaves
   * out undefined-valued properties, so a `$set` dictionary whose values are
   * all `undefined` prints as `{}` and counts as empty.
   */
  predicate ObjEmptyAsWritten(u: Update)
  {
    (forall i :: 0 <= i < |u.sets| ==> u.sets[i].1.Undef?) && u.pushes == [] && u.pulls == []
  }

  /** `dict[k]` on a `$set` dictionary: `undefined` for a missing key. */
  function ValueOf(m: seq<(Path, Value)>, k: Path): Value
  {
    if m == [] then Undef else if m[0].0 == k then m[0].1 else ValueOf(m[1..], k)
  }

  /** `dict[k]` on a `$push` or `$pull` dictionary. */
  function EntryOf(m: seq<(Path, ArrayOp)>, k: Path): Option<ArrayOp>
  {
    if m == [] then None else if m[0].0 == k then Some(m[0].1) else EntryOf(m[1..], k)
  }

  /** `dict[k] ? dict[k].idsAndPositions : []`. */
  function IdsAt(m: seq<(Path, ArrayOp)>, k: Path): seq<IdPos>
  {
    if m == [] then [] else if m[0].0 == k then m[0].1.idsAndPositions else IdsAt(m[1..], k)
  }

  // ---------------------------------------------------------------------------
  // `_stealKeyMatches`

  /**
   * `key.indexOf(`${k}.${p}.`) === 0` with `prefix` the path `k` followed by
   * `p`: the key lies strictly below `prefix`.
   */
  predicate Below(key: Path, prefix: Path)
  {
    |prefix| < |key| && key[..|prefix|] == prefix
  }

  /** The first `n` entries of `m` whose key lies below `prefix`, in order. */
  function Matching<V>(m: seq<(Path, V)>, prefix: Path, n: nat): seq<(Path, V)>
    requires n <= |m|
  {
    if n == 0 then []
    else Matching(m, prefix, n - 1) + (if Below(m[n - 1].0, prefix) then [m[n - 1]] else [])
  }

  /** The first `n` entries of `m` whose key does not lie below `prefix`, in order. */
  function Remaining<V>(m: seq<(Path, V)>, prefix: Path, n: nat): seq<(Path, V)>
    requires n <= |m|
  {
    if n == 0 then []
    else Remaining(m, prefix, n - 1) + (if Below(m[n - 1].0, prefix) then [] else [m[n - 1]])
  }

  /** What `_stealKeyMatches` takes out of each dictionary of `u`. */
  function Stolen(u: Update, prefix: Path): Update
  {
    Update(Matching(u.sets, prefix, |u.sets|), Matching(u.pushes, prefix, |u.pushes|), Matching(u.pulls, prefix, |u.pulls|))
  }

  /** What `_stealKeyMatches` leaves in each dictionary of `u`. */
  function Left(u: Update, prefix: Path): Update
  {
    Update(Remaining(u.sets, prefix, |u.sets|), Remaining(u.pushes, prefix, |u.pushes|), Remaining(u.pulls, prefix, |u.pulls|))
  }

  // ---------------------------------------------------------------------------
  // `_getSetConflicts`

  datatype SetScan = SetScan(conflicts: seq<Conflict>, local: seq<(Path, Value)>, remote: seq<(Path, Value)>)

  /**
   * One key set on both sides: equal values drop the local copy; different
   * values become a conflict of two single-key `$set` fragments, taken out of
   * both sides, which `eAuto` resolves to the local one.
   */
  function SetStep(s: SetScan, key: Path): SetScan
  {
    var lv, rv := ValueOf(s.local, key), ValueOf(s.remote, key);
    if lv == rv then s.(local := Delete(s.local, key))
    else
      var c := Conflict(eLocal, Update([(key, lv)], [], []), Update([(key, rv)], [], []));
      SetScan(s.conflicts + [c], Delete(s.local, key), Delete(s.remote, key))
  }

  /** The loop over the first `n` keys set on both sides. */
  function SetSteps(keys: seq<Path>, init: SetScan, n: nat): SetScan
    requires n <= |keys|
  {
    if n == 0 then init else SetStep(SetSteps(keys, init, n - 1), keys[n - 1])
  }
  /** One more key is one more step. */
  lemma SetStepsNext(keys: seq<Path>, init: SetScan, n: nat)
    requires n < |keys|
    ensures SetSteps(keys, init, n + 1) == SetStep(SetSteps(keys, init, n), keys[n])
  {
  }


  /** The keys of the local `$set` that the remote `$set` has too, in local order. */
  function SharedKeys(local: seq<(Path, Value)>, remote: seq<(Path, Value)>): seq<Path>
  {
    ArraySet.Intersection(KeysOf(local), KeysOf(remote))
  }

  function SetConflicts(local: seq<(Path, Value)>, remote: seq<(Path, Value)>): SetScan
  {
    var keys := SharedKeys(local, remote);
    SetSteps(keys, SetScan([], local, remote), |keys|)
  }

  // ---------------------------------------------------------------------------
  // `_getPullConflicts`, corrected: one conflict per pulled entry

  /** The state of the loop over the elements of one sub-model pull entry. */
  datatype ElementScan = ElementScan(conflicts: seq<Conflict>, kept: seq<IdPos>, other: Update)

  /** The one-element pull fragment for entry `e` of the array at `k`. */
  function PullFragment(k: Path, e: IdPos): Update
  {
    Update([], [], [(k, ArrayOp(ArrayType.eSubModel, [e]))])
  }

  /**
   * The pulled entry `e` of the array at `k` conflicts when the other patch
   * has keys below `k.<position>`: those move into the conflict beside a pull
   * of this one entry, which leaves the pull entry; `eAuto` picks the side
   * that pulls.
   */
  function ElementStep(k: Path, pullIsLocal: bool, s: ElementScan, e: IdPos): ElementScan
  {
    var prefix := k + [e.position];
    var frag := Stolen(s.other, prefix);
    if IsEmpty(frag) then s.(kept := s.kept + [e])
    else
      var c := if pullIsLocal then Conflict(eLocal, PullFragment(k, e), frag)
               else Conflict(eRemote, frag, PullFragment(k, e));
      ElementScan(s.conflicts + [c], s.kept, Left(s.other, prefix))
  }

  function ElementSteps(k: Path, pullIsLocal: bool, elems: seq<IdPos>, init: ElementScan, n: nat): ElementScan
    requires n <= |elems|
  {
    if n == 0 then init else ElementStep(k, pullIsLocal, ElementSteps(k, pullIsLocal, elems, init, n - 1), elems[n - 1])
  }

  /** One more element is one more step. */
  lemma ElementStepsNext(k: Path, pullIsLocal: bool, elems: seq<IdPos>, init: ElementScan, n: nat)
    requires n < |elems|
    ensures ElementSteps(k, pullIsLocal, elems, init, n + 1) == ElementStep(k, pullIsLocal, ElementSteps(k, pullIsLocal, elems, init, n), elems[n])
  {
  }

  /** The state of the loop over the pull entries: the conflicts, the pull entries kept, the other patch. */
  datatype PullScan = PullScan(conflicts: seq<Conflict>, pulls: seq<(Path, ArrayOp)>, other: Update)

  /**
   * One pull entry: a primitive one stays; a sub-model one keeps the
   * entries that did not conflict and is deleted when none is left.
   */
  function EntryStep(pullIsLocal: bool, s: PullScan, entry: (Path, ArrayOp)): PullScan
  {
    var k, item := entry.0, entry.1;
    if item.dataType != ArrayType.eSubModel then s.(pulls := s.pulls + [entry])
    else
      var r := ElementSteps(k, pullIsLocal, item.idsAndPositions, ElementScan(s.conflicts, [], s.other), |item.idsAndPositions|);
      var rest := if r.kept == [] && item.idsAndPositions != [] then [] else [(k, item.(idsAndPositions := r.kept))];
      PullScan(r.conflicts, s.pulls + rest, r.other)
  }

  function EntrySteps(pullIsLocal: bool, entries: seq<(Path, ArrayOp)>, init: PullScan, n: nat): PullScan
    requires n <= |entries|
  {
    if n == 0 then init else EntryStep(pullIsLocal, EntrySteps(pullIsLocal, entries, init, n - 1), entries[n - 1])
  }
  /** One more entry is one more step. */
  lemma EntryStepsNext(pullIsLocal: bool, entries: seq<(Path, ArrayOp)>, init: PullScan, n: nat)
    requires n < |entries|
    ensures EntrySteps(pullIsLocal, entries, init, n + 1) == EntryStep(pullIsLocal, EntrySteps(pullIsLocal, entries, init, n), entries[n])
  {
  }


  /** The conflicts the pulls of `pulls` raise against `other`. */
  function PullConflicts(pulls: seq<(Path, ArrayOp)>, other: Update, pullIsLocal: bool): PullScan
  {
    EntrySteps(pullIsLocal, pulls, PullScan([], [], other), |pulls|)
  }

  // ---------------------------------------------------------------------------
  // `_getPullConflicts` as written: the whole pull entry moves at once

  /**
   * A pull conflict as the source builds it: `pullEntry` is what
   * `pullPatch.$pull[k]` held when the conflict was built (`None`:
   * `undefined`, the entry having been deleted by an earlier conflict).
   */
  datatype RawConflict = RawConflict(autoDecision: Decision, pullKey: Path, pullEntry: Option<ArrayOp>, other: Update)

  datatype RawScan = RawScan(conflicts: seq<RawConflict>, entry: Option<ArrayOp>, other: Update)

  /**
   * One element of a sub-model pull entry, as written: the keys below it are
   * stolen from the other patch first; a fragment `objEmpty` passes is
   * dropped with them, any other becomes a conflict holding the whole entry.
   */
  function ElementStepAsWritten(k: Path, pullIsLocal: bool, s: RawScan, e: IdPos): RawScan
  {
    var prefix := k + [e.position];
    var frag := Stolen(s.other, prefix);
    if ObjEmptyAsWritten(frag) then s.(other := Left(s.other, prefix))
    else
      var c := RawConflict(if pullIsLocal then eLocal else eRemote, k, s.entry, frag);
      RawScan(s.conflicts + [c], None, Left(s.other, prefix))
  }

  function ElementStepsAsWritten(k: Path, pullIsLocal: bool, elems: seq<IdPos>, init: RawScan, n: nat): RawScan
    requires n <= |elems|
  {
    if n == 0 then init else ElementStepAsWritten(k, pullIsLocal, ElementStepsAsWritten(k, pullIsLocal, elems, init, n - 1), elems[n - 1])
  }

  /** The conflicts one sub-model pull entry raises, as written; `entry` is `None` once it was deleted. */
  function EntryConflictsAsWritten(k: Path, item: ArrayOp, other: Update, pullIsLocal: bool): RawScan
  {
    ElementStepsAsWritten(k, pullIsLocal, item.idsAndPositions, RawScan([], Some(item), other), |item.idsAndPositions|)
  }

  /** The TypeError of reading `idsAndPositions` of an `undefined` pull entry. */
  const UndefinedEntryMessage := "Cannot read properties of undefined (reading 'idsAndPositions')"

  /**
   * The pull side of a raw conflict merged into the result's `$pull`, as
   * written: an entry already under the key gets the conflict entry's
   * elements appended, which throws when that entry is `undefined`; under a
   * new key an `undefined` entry adds no elements.
   */
  function AppendRawPull(m: seq<(Path, ArrayOp)>, k: Path, entry: Option<ArrayOp>): (r: Result<seq<(Path, ArrayOp)>>)
    ensures r.Err? <==> entry.None? && EntryOf(m, k).Some?
    ensures r.Ok? && entry.None? ==> r.value == m
  {
    match entry
    case Some(op) => Ok(AppendEntry(m, k, op))
    case None => if EntryOf(m, k).Some? then Err(UndefinedEntryMessage) else Ok(m)
  }

  /**
   * The decision loop over pull conflicts as written: the pulling side (the
   * conflict's automatic decision) contributes `{pullKey: pullEntry}`, the
   * other side its stolen fragment.
   */
  function DecidedRawAsWritten(cs: seq<RawConflict>, ds: seq<Decision>, n: nat): Result<Update>
    requires n <= |cs|
  {
    if n == 0 then Ok(NoUpdates)
    else
      var r := DecidedRawAsWritten(cs, ds, n - 1);
      if r.Err? then r
      else
        var c := cs[n - 1];
        var d := DecisionAt(ds, n - 1);
        var d' := if d == Some(eAuto) then Some(c.autoDecision) else d;
        if d' != Some(eLocal) && d' != Some(eRemote) then Err(DecisionMessage + DecisionText(d'))
        else if d' == Some(c.autoDecision) then
          var p := AppendRawPull(r.value.pulls, c.pullKey, c.pullEntry);
          if p.Err? then Err(p.msg) else Ok(r.value.(pulls := p.value))
        else Ok(MergeFragment(r.value, c.other))
  }

  // ---------------------------------------------------------------------------
  // Detection: remote pulls, local pulls, then sets

  datatype Detected = Detected(conflicts: seq<Conflict>, local: Update, remote: Update)

  function Detect(local: Update, remote: Update): Detected
  {
    var p1 := PullConflicts(remote.pulls, local, false);
    var remote1, local1 := remote.(pulls := p1.pulls), p1.other;
    var p2 := PullConflicts(local1.pulls, remote1, true);
    var local2, remote2 := local1.(pulls := p2.pulls), p2.other;
    var s := SetConflicts(local2.sets, remote2.sets);
    Detected(p1.conflicts + p2.conflicts + s.conflicts, local2.(sets := s.local), remote2.(sets := s.remote))
  }

  // ---------------------------------------------------------------------------
  // Applying the decisions

  /** Decision `i`, or `None` past the end of the list. */
  function DecisionAt(ds: seq<Decision>, i: nat): Option<Decision>
  {
    if i < |ds| then Some(ds[i]) else None
  }

  /** The fragment decision `d` picks: `eAuto` stands for the conflict's own choice. */
  function Chosen(c: Conflict, d: Option<Decision>): Result<Update>
  {
    var d' := if d == Some(eAuto) then Some(c.autoDecision) else d;
    if d' == Some(eLocal) then Ok(c.local)
    else if d' == Some(eRemote) then Ok(c.remote)
    else Err(DecisionMessage + DecisionText(d'))
  }

  /** `Object.assign(target, entries)`: the first `n` entries assigned in order. */
  function PutEntries<V>(m: seq<(Path, V)>, entries: seq<(Path, V)>, n: nat): seq<(Path, V)>
    requires n <= |entries|
  {
    if n == 0 then m else PutEntry(PutEntries(m, entries, n - 1), entries[n - 1].0, entries[n - 1].1)
  }

  /** An existing key gets the new elements appended; a new key takes the entry. */
  function AppendEntry(m: seq<(Path, ArrayOp)>, k: Path, op: ArrayOp): seq<(Path, ArrayOp)>
  {
    match EntryOf(m, k)
    case Some(cur) => PutEntry(m, k, cur.(idsAndPositions := cur.idsAndPositions + op.idsAndPositions))
    case None => PutEntry(m, k, op)
  }

  function AppendEntries(m: seq<(Path, ArrayOp)>, entries: seq<(Path, ArrayOp)>, n: nat): seq<(Path, ArrayOp)>
    requires n <= |entries|
  {
    if n == 0 then m else AppendEntry(AppendEntries(m, entries, n - 1), entries[n - 1].0, entries[n - 1].1)
  }

  /** One more entry is one more append. */
  lemma AppendEntriesNext(m: seq<(Path, ArrayOp)>, entries: seq<(Path, ArrayOp)>, n: nat)
    requires n < |entries|
    ensures AppendEntries(m, entries, n + 1) == AppendEntry(AppendEntries(m, entries, n), entries[n].0, entries[n].1)
  {
  }

  /** A chosen fragment merged into the result: `$set` overwrites, `$push` and `$pull` append. */
  function MergeFragment(result: Update, frag: Update): Update
  {
    Update(PutEntries(result.sets, frag.sets, |frag.sets|),
           AppendEntries(result.pushes, frag.pushes, |frag.pushes|),
           AppendEntries(result.pulls, frag.pulls, |frag.pulls|))
  }

  /** The first `n` conflicts decided and merged into an empty result; the first bad decision throws. */
  function Decided(cs: seq<Conflict>, ds: seq<Decision>, n: nat): Result<Update>
    requires n <= |cs|
  {
    if n == 0 then Ok(NoUpdates)
    else
      var r := Decided(cs, ds, n - 1);
      if r.Err? then r
      else
        var f := Chosen(cs[n - 1], DecisionAt(ds, n - 1));
        if f.Err? then Err(f.msg) else Ok(MergeFragment(r.value, f.value))
  }

  // ---------------------------------------------------------------------------
  // The leftovers

  /** The loop over one `$push` or `$pull` dictionary of the leftover merge. */
  datatype Sweep = Sweep(result: seq<(Path, ArrayOp)>, target: seq<(Path, ArrayOp)>, primitive: seq<Path>)

  /**
   * A primitive entry's key is collected; any other entry moves from `target`
   * to the result. As written (line 247) it overwrites what the result holds
   * under its key; corrected, its elements are appended there, as a decided
   * fragment's are.
   */
  function SweepStep(s: Sweep, entry: (Path, ArrayOp), asWritten: bool): Sweep
  {
    if entry.1.dataType == ePrimitive then s.(primitive := s.primitive + [entry.0])
    else
      var result := if asWritten then PutEntry(s.result, entry.0, entry.1) else AppendEntry(s.result, entry.0, entry.1);
      Sweep(result, Delete(s.target, entry.0), s.primitive)
  }

  function SweepSteps(iter: seq<(Path, ArrayOp)>, init: Sweep, n: nat, asWritten: bool): Sweep
    requires n <= |iter|
  {
    if n == 0 then init else SweepStep(SweepSteps(iter, init, n - 1, asWritten), iter[n - 1], asWritten)
  }
  /** One more entry is one more step. */
  lemma SweepStepsNext(iter: seq<(Path, ArrayOp)>, init: Sweep, n: nat, asWritten: bool)
    requires n < |iter|
    ensures SweepSteps(iter, init, n + 1, asWritten) == SweepStep(SweepSteps(iter, init, n, asWritten), iter[n], asWritten)
  {
  }


  datatype Turn = Turn(result: Update, side: Update, primitive: seq<Path>)

  /**
   * One turn of the leftover loop for `side`: its `$set` entries move to the
   * result, then the entries of `pushIter` and `pullIter` are swept, moving
   * out of `side`.
   */
  function TurnOf(result: Update, side: Update, primitive: seq<Path>,
                  pushIter: seq<(Path, ArrayOp)>, pullIter: seq<(Path, ArrayOp)>, asWritten: bool): Turn
  {
    var sets := PutEntries(result.sets, side.sets, |side.sets|);
    var ps := SweepSteps(pushIter, Sweep(result.pushes, side.pushes, primitive), |pushIter|, asWritten);
    var pl := SweepSteps(pullIter, Sweep(result.pulls, side.pulls, ps.primitive), |pullIter|, asWritten);
    Turn(Update(sets, ps.result, pl.result), Update([], ps.target, pl.target), pl.primitive)
  }

  /** The local values, then the remote ones whose value the local list lacks. */
  function UnionIds(localVals: seq<IdPos>, remoteVals: seq<IdPos>): seq<IdPos>
  {
    localVals + RemoteOnly(remoteVals, localVals)
  }

  /** `vals.some(x => x.idOrValue === v)`. */
  predicate HasValue(vals: seq<IdPos>, v: Value)
  {
    vals != [] && (vals[0].idOrValue == v || HasValue(vals[1..], v))
  }

  function RemoteOnly(remoteVals: seq<IdPos>, localVals: seq<IdPos>): seq<IdPos>
  {
    if remoteVals == [] then []
    else
      (if HasValue(localVals, remoteVals[0].idOrValue) then [] else [remoteVals[0]])
      + RemoteOnly(remoteVals[1..], localVals)
  }

  /** As written, the remote element is dropped when some local value equals its position. */
  function UnionIdsAsWritten(localVals: seq<IdPos>, remoteVals: seq<IdPos>): seq<IdPos>
  {
    localVals + RemoteOnlyAsWritten(remoteVals, localVals)
  }

  function RemoteOnlyAsWritten(remoteVals: seq<IdPos>, localVals: seq<IdPos>): seq<IdPos>
  {
    if remoteVals == [] then []
    else
      (if HasValue(localVals, Num(remoteVals[0].position as real)) then [] else [remoteVals[0]])
      + RemoteOnlyAsWritten(remoteVals[1..], localVals)
  }

  function Combine(localVals: seq<IdPos>, remoteVals: seq<IdPos>, asWritten: bool): seq<IdPos>
  {
    if asWritten then UnionIdsAsWritten(localVals, remoteVals) else UnionIds(localVals, remoteVals)
  }

  datatype Tail = Tail(result: Update, local: Update, remote: Update)

  /** `result[k] = {dataType: primitive, value: ids}`, skipped when `ids` is empty. */
  function PutIds(result: seq<(Path, ArrayOp)>, k: Path, ids: seq<IdPos>): seq<(Path, ArrayOp)>
  {
    if ids == [] then result else PutEntry(result, k, ArrayOp(ePrimitive, ids))
  }

  /** `delete pushes[k]; delete pulls[k]` on one working patch. */
  function DropKey(u: Update, k: Path): Update
  {
    Update(u.sets, Delete(u.pushes, k), Delete(u.pulls, k))
  }

  /** The result after one primitive key: the union of both sides' entries, when non-empty, overwrites the result's. */
  function PrimitiveResult(s: Tail, k: Path, asWritten: bool): Update
  {
    var pull := Combine(IdsAt(s.local.pulls, k), IdsAt(s.remote.pulls, k), asWritten);
    var push := Combine(IdsAt(s.local.pushes, k), IdsAt(s.remote.pushes, k), asWritten);
    Update(s.result.sets, PutIds(s.result.pushes, k, push), PutIds(s.result.pulls, k, pull))
  }

  /** One primitive key: both sides' entries are taken out and merged into the result. */
  function PrimitiveStep(s: Tail, k: Path, asWritten: bool): Tail
  {
    Tail(PrimitiveResult(s, k, asWritten), DropKey(s.local, k), DropKey(s.remote, k))
  }

  /** `delete pushes[k]; delete pulls[k]` for each of the first `n` keys, in order. */
  function DropKeys(u: Update, keys: seq<Path>, n: nat): Update
    requires n <= |keys|
  {
    if n == 0 then u else DropKey(DropKeys(u, keys, n - 1), keys[n - 1])
  }

  /** The first `n` primitive keys, in order; they are deleted from both working patches and no `$set` changes. */
  function PrimitiveSteps(keys: seq<Path>, init: Tail, n: nat, asWritten: bool): (t: Tail)
    requires n <= |keys|
    ensures t.result.sets == init.result.sets
    ensures t.local == DropKeys(init.local, keys, n) && t.remote == DropKeys(init.remote, keys, n)
  {
    if n == 0 then init else PrimitiveStep(PrimitiveSteps(keys, init, n - 1, asWritten), keys[n - 1], asWritten)
  }
  /** One more key is one more step. */
  lemma PrimitiveStepsNext(keys: seq<Path>, init: Tail, n: nat, asWritten: bool)
    requires n < |keys|
    ensures PrimitiveSteps(keys, init, n + 1, asWritten) == PrimitiveStep(PrimitiveSteps(keys, init, n, asWritten), keys[n], asWritten)
  {
  }


  /**
   * The merge of the non-conflicting rest, corrected: each side's turn sweeps
   * that side's own `$push` and `$pull` dictionaries, and a swept entry is
   * appended to what the result already holds under its key.
   */
  function Leftovers(result: Update, local: Update, remote: Update): Tail
  {
    var t1 := TurnOf(result, remote, [], remote.pushes, remote.pulls, false);
    var t2 := TurnOf(t1.result, local, t1.primitive, local.pushes, local.pulls, false);
    PrimitiveSteps(t2.primitive, Tail(t2.result, t2.side, t1.side), |t2.primitive|, false)
  }

  /**
   * The merge of the rest as written: the local turn sweeps the remote
   * dictionaries again, a swept entry overwrites the result's entry under its
   * key, and the primitive union compares values with positions.
   */
  function LeftoversAsWritten(result: Update, local: Update, remote: Update): Tail
  {
    var t1 := TurnOf(result, remote, [], remote.pushes, remote.pulls, true);
    var t2 := TurnOf(t1.result, local, t1.primitive, t1.side.pushes, t1.side.pulls, true);
    PrimitiveSteps(t2.primitive, Tail(t2.result, t2.side, t1.side), |t2.primitive|, true)
  }

  // ---------------------------------------------------------------------------
  // The whole run

  /** The merged patch (or the error thrown) and what is left of the working patches. */
  datatype RunResult = RunResult(merged: Result<Update>, local: Update, remote: Update)

  /** `runAndResolveByCb`: the resolver is consulted only when there are conflicts. */
  function Run(local: Update, remote: Update, resolve: seq<Conflict> -> seq<Decision>): RunResult
  {
    var d := Detect(local, remote);
    var decided := if d.conflicts == [] then Ok(NoUpdates) else Decided(d.conflicts, resolve(d.conflicts), |d.conflicts|);
    if decided.Err? then RunResult(Err(decided.msg), d.local, d.remote)
    else
      var t := Leftovers(decided.value, d.local, d.remote);
      RunResult(Ok(t.result), t.local, t.remote)
  }

  /** The resolver of `runAndResolveWith(d)`: `d` for every conflict. */
  function AnswerAll(d: Decision): seq<Conflict> -> seq<Decision>
  {
    cs => seq(|cs|, _ => d)
  }

  /** Once a decision throws, the later conflicts are not looked at. */
  lemma {:induction false} DecidedStaysErr(cs: seq<Conflict>, ds: seq<Decision>, m: nat, n: nat)
    requires m <= n <= |cs|
    requires Decided(cs, ds, m).Err?
    ensures Decided(cs, ds, n) == Decided(cs, ds, m)
  {
    if m < n {
      DecidedStaysErr(cs, ds, m, n - 1);
      DecidedErrNext(cs, ds, n);
    }
  }

  /** Conflict `i` decided on top of the first `i`. */
  lemma DecidedNext(cs: seq<Conflict>, ds: seq<Decision>, i: nat)
    requires i < |cs|
    ensures Decided(cs, ds, i + 1)
         == if Decided(cs, ds, i).Err? then Decided(cs, ds, i)
            else if Chosen(cs[i], DecisionAt(ds, i)).Err? then Err(Chosen(cs[i], DecisionAt(ds, i)).msg)
            else Ok(MergeFragment(Decided(cs, ds, i).value, Chosen(cs[i], DecisionAt(ds, i)).value))
  {
  }

  /** A decision that picks no side ends the run with its error, whatever follows. */
  lemma DecidedBadDecision(cs: seq<Conflict>, ds: seq<Decision>, i: nat)
    requires i < |cs| && Decided(cs, ds, i).Ok? && Chosen(cs[i], DecisionAt(ds, i)).Err?
    ensures Decided(cs, ds, |cs|) == Err(Chosen(cs[i], DecisionAt(ds, i)).msg)
  {
    DecidedNext(cs, ds, i);
    DecidedStaysErr(cs, ds, i + 1, |cs|);
  }

  /** An error after `n - 1` conflicts is the result after `n`. */
  lemma DecidedErrNext(cs: seq<Conflict>, ds: seq<Decision>, n: nat)
    requires 0 < n <= |cs| && Decided(cs, ds, n - 1).Err?
    ensures Decided(cs, ds, n) == Decided(cs, ds, n - 1)
  {
  }

  // ---------------------------------------------------------------------------
  // The merge object

  /**
   * `DeepModelPatchMerge`: the working copies of the local and the remote
   * patch, which a run takes conflicts and leftovers out of.
   */
  class DeepModelPatchMerge {
    var local: Update
    var remote: Update

    /** The deep copies of the two patches: the caller's patch values are never changed. */
    constructor(toLocal: Update, fromRemote: Update)
      ensures local == toLocal && remote == fromRemote
    {
      local := toLocal;
      remote := fromRemote;
    }

    /** `_stealKeyMatches`: the entries below `prefix` are taken out of `updates`. */
    static method StealKeyMatches<V>(updates: seq<(Path, V)>, prefix: Path) returns (stolen: seq<(Path, V)>, rest: seq<(Path, V)>)
      ensures stolen == Matching(updates, prefix, |updates|)
      ensures rest == Remaining(updates, prefix, |updates|)
    {
      stolen, rest := [], [];
      var i := 0;
      while i < |updates|
        invariant 0 <= i <= |updates|
        invariant stolen == Matching(updates, prefix, i) && rest == Remaining(updates, prefix, i)
      {
        var key := updates[i].0;
        if |prefix| < |key| && key[..|prefix|] == prefix {
          stolen := stolen + [updates[i]];
        } else {
          rest := rest + [updates[i]];
        }
        i := i + 1;
      }
    }

    /** The three steals of one pulled entry. */
    static method StealAll(other: Update, prefix: Path) returns (frag: Update, rest: Update)
      ensures frag == Stolen(other, prefix) && rest == Left(other, prefix)
    {
      var s1, r1 := StealKeyMatches(other.sets, prefix);
      var s2, r2 := StealKeyMatches(other.pushes, prefix);
      var s3, r3 := StealKeyMatches(other.pulls, prefix);
      frag, rest := Update(s1, s2, s3), Update(r1, r2, r3);
    }

    /** `_getSetConflicts` on the working patches. */
    method GetSetConflicts() returns (cs: seq<Conflict>)
      modifies this
      ensures var s := SetConflicts(old(local.sets), old(remote.sets));
              cs == s.conflicts && local == old(local).(sets := s.local) && remote == old(remote).(sets := s.remote)
    {
      var s := ScanSets(local.sets, remote.sets);
      cs := s.conflicts;
      local := local.(sets := s.local);
      remote := remote.(sets := s.remote);
    }

    /** The loop of `_getSetConflicts` over the keys both `$set` dictionaries hold. */
    static method ScanSets(localSets: seq<(Path, Value)>, remoteSets: seq<(Path, Value)>) returns (s: SetScan)
      ensures s == SetConflicts(localSets, remoteSets)
    {
      var keys := ArraySet.Intersection(KeysOf(localSets), KeysOf(remoteSets));
      var cs, l, r := [], localSets, remoteSets;
      var i := 0;
      while i < |keys|
        invariant 0 <= i <= |keys|
        invariant SetScan(cs, l, r) == SetSteps(keys, SetScan([], localSets, remoteSets), i)
      {
        var key := keys[i];
        var lv, rv := ValueOf(l, key), ValueOf(r, key);
        if lv == rv {
          l := Delete(l, key);
        } else {
          cs := cs + [Conflict(eLocal, Update([(key, lv)], [], []), Update([(key, rv)], [], []))];
          l := Delete(l, key);
          r := Delete(r, key);
        }
        SetStepsNext(keys, SetScan([], localSets, remoteSets), i);
        i := i + 1;
      }
      s := SetScan(cs, l, r);
    }

    /** The loop over the elements of one sub-model pull entry at `k`. */
    static method ScanEntry(k: Path, elems: seq<IdPos>, pullIsLocal: bool, cs0: seq<Conflict>, other0: Update)
      returns (cs: seq<Conflict>, kept: seq<IdPos>, other: Update)
      ensures ElementScan(cs, kept, other) == ElementSteps(k, pullIsLocal, elems, ElementScan(cs0, [], other0), |elems|)
    {
      var s := ElementScan(cs0, [], other0);
      var j := 0;
      while j < |elems|
        invariant 0 <= j <= |elems|
        invariant s == ElementSteps(k, pullIsLocal, elems, ElementScan(cs0, [], other0), j)
      {
        s := ScanElement(k, pullIsLocal, s, elems[j]);
        ElementStepsNext(k, pullIsLocal, elems, ElementScan(cs0, [], other0), j);
        j := j + 1;
      }
      cs, kept, other := s.conflicts, s.kept, s.other;
    }

    /** One pass of that loop: element `e` either stays pulled or becomes a conflict with what it steals. */
    static method ScanElement(k: Path, pullIsLocal: bool, s: ElementScan, e: IdPos) returns (s': ElementScan)
      ensures s' == ElementStep(k, pullIsLocal, s, e)
    {
      var cs, kept, other := s.conflicts, s.kept, s.other;
      var frag, rest := StealAll(other, k + [e.position]);
      if frag.sets == [] && frag.pushes == [] && frag.pulls == [] {
        kept := kept + [e];
      } else {
        var pull := Update([], [], [(k, ArrayOp(ArrayType.eSubModel, [e]))]);
        cs := cs + [if pullIsLocal then Conflict(eLocal, pull, frag) else Conflict(eRemote, frag, pull)];
        other := rest;
      }
      s' := ElementScan(cs, kept, other);
    }

    /** `_getPullConflicts` with the local patch pulling (`pullIsLocal`) or the remote one. */
    method GetPullConflicts(pullIsLocal: bool) returns (cs: seq<Conflict>)
      modifies this
      ensures var p := PullConflicts(if pullIsLocal then old(local).pulls else old(remote).pulls,
                                     if pullIsLocal then old(remote) else old(local), pullIsLocal);
              cs == p.conflicts &&
              if pullIsLocal then local == old(local).(pulls := p.pulls) && remote == p.other
              else remote == old(remote).(pulls := p.pulls) && local == p.other
    {
      if pullIsLocal {
        var p := ScanPulls(local.pulls, remote, true);
        cs := p.conflicts;
        local := local.(pulls := p.pulls);
        remote := p.other;
      } else {
        var p := ScanPulls(remote.pulls, local, false);
        cs := p.conflicts;
        remote := remote.(pulls := p.pulls);
        local := p.other;
      }
    }

    /** The loop of `_getPullConflicts` over the pull entries of the pulling side. */
    static method ScanPulls(entries: seq<(Path, ArrayOp)>, other0: Update, pullIsLocal: bool) returns (p: PullScan)
      ensures p == PullConflicts(entries, other0, pullIsLocal)
    {
      var other := other0;
      var pulls: seq<(Path, ArrayOp)> := [];
      var cs: seq<Conflict> := [];
      var i := 0;
      while i < |entries|
        invariant 0 <= i <= |entries|
        invariant PullScan(cs, pulls, other) == EntrySteps(pullIsLocal, entries, PullScan([], [], other0), i)
      {
        var k, item := entries[i].0, entries[i].1;
        if item.dataType != ArrayType.eSubModel {
          pulls := pulls + [entries[i]];
        } else {
          var kept;
          cs, kept, other := ScanEntry(k, item.idsAndPositions, pullIsLocal, cs, other);
          if !(kept == [] && item.idsAndPositions != []) {
            pulls := pulls + [(k, item.(idsAndPositions := kept))];
          }
        }
        EntryStepsNext(pullIsLocal, entries, PullScan([], [], other0), i);
        i := i + 1;
      }
      p := PullScan(cs, pulls, other);
    }

    /** The `for (const key of Object.keys(...))` loop: each entry appended to or inserted into `m`. */
    static method AppendAll(m: seq<(Path, ArrayOp)>, entries: seq<(Path, ArrayOp)>) returns (r: seq<(Path, ArrayOp)>)
      ensures r == AppendEntries(m, entries, |entries|)
    {
      r := m;
      var i := 0;
      while i < |entries|
        invariant 0 <= i <= |entries|
        invariant r == AppendEntries(m, entries, i)
      {
        var k, op := entries[i].0, entries[i].1;
        match EntryOf(r, k) {
          case Some(cur) =>
            r := PutEntry(r, k, cur.(idsAndPositions := cur.idsAndPositions + op.idsAndPositions));
          case None =>
            r := PutEntry(r, k, op);
        }
        AppendEntriesNext(m, entries, i);
        i := i + 1;
      }
    }

    /** The decisions loop: decision `i` picks a side of conflict `i`, whose fragment is merged in. */
    static method ApplyDecisions(cs: seq<Conflict>, ds: seq<Decision>) returns (r: Result<Update>)
      ensures r == Decided(cs, ds, |cs|)
    {
      var result := NoUpdates;
      var i := 0;
      while i < |cs|
        invariant 0 <= i <= |cs|
        invariant Decided(cs, ds, i) == Ok(result)
      {
        var d := if i < |ds| then Some(ds[i]) else None;
        if d == Some(eAuto) {
          d := Some(cs[i].autoDecision);
        }
        var frag;
        if d == Some(eLocal) {
          frag := cs[i].local;
        } else if d == Some(eRemote) {
          frag := cs[i].remote;
        } else {
          assert Chosen(cs[i], DecisionAt(ds, i)) == Err(DecisionMessage + DecisionText(d));
          DecidedBadDecision(cs, ds, i);
          return Err(DecisionMessage + DecisionText(d));
        }
        assert Chosen(cs[i], DecisionAt(ds, i)) == Ok(frag);
        DecidedNext(cs, ds, i);
        result := MergeChosen(result, frag);
        i := i + 1;
      }
      r := Ok(result);
    }

    /** A chosen fragment merged into the result: `Object.assign` for `$set`, the append loops for `$pull` and `$push`. */
    static method MergeChosen(result: Update, frag: Update) returns (r: Update)
      ensures r == MergeFragment(result, frag)
    {
      var pulls := AppendAll(result.pulls, frag.pulls);
      var pushes := AppendAll(result.pushes, frag.pushes);
      r := Update(PutEntries(result.sets, frag.sets, |frag.sets|), pushes, pulls);
    }

    /** The loop over one `$push` or `$pull` dictionary in a corrected leftover turn. */
    static method SweepDict(iter: seq<(Path, ArrayOp)>, init: Sweep) returns (s: Sweep)
      ensures s == SweepSteps(iter, init, |iter|, false)
    {
      s := init;
      var i := 0;
      while i < |iter|
        invariant 0 <= i <= |iter|
        invariant s == SweepSteps(iter, init, i, false)
      {
        var k, val := iter[i].0, iter[i].1;
        if val.dataType == ePrimitive {
          s := s.(primitive := s.primitive + [k]);
        } else {
          s := Sweep(AppendEntry(s.result, k, val), Delete(s.target, k), s.primitive);
        }
        SweepStepsNext(iter, init, i, false);
        i := i + 1;
      }
    }

    /** One turn of the leftover loop: the `$set` entries, then the `$push` and `$pull` sweeps. */
    static method TakeTurn(result: Update, side: Update, primitive: seq<Path>,
                           pushIter: seq<(Path, ArrayOp)>, pullIter: seq<(Path, ArrayOp)>) returns (t: Turn)
      ensures t == TurnOf(result, side, primitive, pushIter, pullIter, false)
    {
      var sets := result.sets;
      var i := 0;
      while i < |side.sets|
        invariant 0 <= i <= |side.sets|
        invariant sets == PutEntries(result.sets, side.sets, i)
      {
        sets := PutEntry(sets, side.sets[i].0, side.sets[i].1);
        i := i + 1;
      }
      var ps := SweepDict(pushIter, Sweep(result.pushes, side.pushes, primitive));
      var pl := SweepDict(pullIter, Sweep(result.pulls, side.pulls, ps.primitive));
      t := Turn(Update(sets, ps.result, pl.result), Update([], ps.target, pl.target), pl.primitive);
    }

    /** The merge of the non-conflicting rest of both working patches into `result`. */
    method MergeLeftovers(result: Update) returns (r: Update)
      modifies this
      ensures Tail(r, local, remote) == Leftovers(result, old(local), old(remote))
    {
      var t1 := TakeTurn(result, remote, [], remote.pushes, remote.pulls);
      var t2 := TakeTurn(t1.result, local, t1.primitive, local.pushes, local.pulls);
      var t := MergePrimitives(t2.primitive, Tail(t2.result, t2.side, t1.side));
      r, local, remote := t.result, t.local, t.remote;
    }

    /** The loop over the collected primitive keys: both sides' entries are united into the result. */
    static method MergePrimitives(keys: seq<Path>, init: Tail) returns (t: Tail)
      ensures t == PrimitiveSteps(keys, init, |keys|, false)
    {
      t := init;
      var i := 0;
      while i < |keys|
        invariant 0 <= i <= |keys|
        invariant t == PrimitiveSteps(keys, init, i, false)
      {
        t := MergePrimitive(t, keys[i]);
        PrimitiveStepsNext(keys, init, i, false);
        i := i + 1;
      }
    }

    /** One iteration: the union of both sides' elements under `k` goes to the result, and `k` leaves both sides. */
    static method MergePrimitive(t: Tail, k: Path) returns (t': Tail)
      ensures t' == PrimitiveStep(t, k, false)
    {
      var pull := UnionIds(IdsAt(t.local.pulls, k), IdsAt(t.remote.pulls, k));
      var push := UnionIds(IdsAt(t.local.pushes, k), IdsAt(t.remote.pushes, k));
      var pushes := t.result.pushes;
      if push != [] {
        pushes := PutEntry(pushes, k, ArrayOp(ePrimitive, push));
      }
      var pulls := t.result.pulls;
      if pull != [] {
        pulls := PutEntry(pulls, k, ArrayOp(ePrimitive, pull));
      }
      t' := Tail(Update(t.result.sets, pushes, pulls),
                 Update(t.local.sets, Delete(t.local.pushes, k), Delete(t.local.pulls, k)),
                 Update(t.remote.sets, Delete(t.remote.pushes, k), Delete(t.remote.pulls, k)));
    }

    /** `runAndResolveByCb`: detection, the decisions (when there are conflicts), then the leftovers. */
    method RunAndResolveByCb(resolve: seq<Conflict> -> seq<Decision>) returns (r: Result<Update>)
      modifies this
      ensures RunResult(r, local, remote) == Run(old(local), old(remote), resolve)
    {
      var c1 := GetPullConflicts(false);
      var c2 := GetPullConflicts(true);
      var c3 := GetSetConflicts();
      var cs := c1 + c2 + c3;
      var result := NoUpdates;
      if cs != [] {
        var decided := ApplyDecisions(cs, resolve(cs));
        if decided.Err? {
          return Err(decided.msg);
        }
        result := decided.value;
      }
      result := MergeLeftovers(result);
      r := Ok(result);
    }

    /** `runAndResolveWith(d)`: every conflict answered with `d`; the source's default argument `eAuto` is passed explicitly. */
    method RunAndResolveWith(d: Decision) returns (r: Result<Update>)
      modifies this
      ensures RunResult(r, local, remote) == Run(old(local), old(remote), AnswerAll(d))
    {
      r := RunAndResolveByCb(AnswerAll(d));
    }
  }
}
