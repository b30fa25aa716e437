/**
 Why the rules are there: runs that break one rule and lose the guarantee that depends on it, and
 one that breaks none and leaves an image behind. Each works for every storage class that resolves to a pool at all.
 */
module Counterexamples {
  import opened Records
  import opened StorageClass
  import opened Lifecycle
  import opened Ownership
  import opened Guarantees
  import opened Calls

  /** Nothing stands in the way of creating `name` with this tale. */
  ghost predicate CreateMayWork(k: Control, c: nat, proc: string, name: string, required: int, sc: string,
                                t: CreateTale, pool: string)
  {
    && c !in k.calls && name != "" && required > 0
    && t.seen == None && t.labelled && t.uuid != "" && t.uuid !in k.uuids && t.uuid !in IndexOf(k, proc)
    && t.make.outcome.Done? && ResolvePool(k.classes, sc, t.make) == Some(pool)
    && ImageId(pool, name) !in k.images && name !in k.store.objects
  }

  function MadeSpec(name: string, required: int, sc: string, uuid: string, pool: string): Spec {
    Spec(uuid, required, sc, pool, name)
  }

  /** The state of an unhindered create just before its record is posted. */
  function Prepared(k: Control, c: nat, proc: string, spec: Spec): Control {
    k.(uuids := k.uuids[spec.uuid := spec.image],
       images := k.images[IdOf(spec) := Image(MibFor(spec.capacity), spec.uuid, c)],
       index := k.index[proc := IndexOf(k, proc)[spec.uuid := spec.image]],
       calls := k.calls[c := Call(proc, CreateRecord(spec.image, spec))])
  }

  /** The state once its record is stored and the call has answered. */
  function Provisioned(k: Control, c: nat, proc: string, spec: Spec): Control {
    Prepared(k, c, proc, spec).(
      store := Put(k.store, Record(spec.image, 0, spec, EMPTY_STATUS, FINALIZERS, false)),
      answers := k.answers + {Answer(spec.image, spec.capacity, spec.uuid, spec.capacity)},
      calls := k.calls[c := Call(proc, Created(spec.uuid, spec.capacity))])
  }

  lemma CreateReachesRecord(k: Control, links: set<Attachment>, c: nat, proc: string, name: string, required: int,
                            sc: string, t: CreateTale, pool: string)
    requires CreateMayWork(k, c, proc, name, required, sc, t, pool)
    ensures DoReserve(DoMakeImage(DoBeginCreate(k, c, proc, name, required, Some(sc), t.seen, t.labelled, t.uuid),
                                  c, t.make), c)
         == Prepared(k, c, proc, MadeSpec(name, required, sc, t.uuid, pool))
  {
    hide ResolvePool;
    MibCovers(required);
    var k1 := DoBeginCreate(k, c, proc, name, required, Some(sc), t.seen, t.labelled, t.uuid);
    assert k1.calls == k.calls[c := Call(proc, CreateImage(name, required, sc, t.uuid))];
    var k2 := DoMakeImage(k1, c, t.make);
    assert k2.calls == k.calls[c := Call(proc, CreateReserve(name, MadeSpec(name, required, sc, t.uuid, pool)))];
    var k3 := DoReserve(k2, c);
    assert k3.calls == k.calls[c := Call(proc, CreateRecord(name, MadeSpec(name, required, sc, t.uuid, pool)))];
  }

  lemma RecordPosts(k: Control, c: nat, proc: string, spec: Spec)
    requires spec.image !in k.store.objects
    ensures DoPostRecord(Prepared(k, c, proc, spec), c, Done) == Provisioned(k, c, proc, spec)
  {
    hide MibFor;
    assert DoPostRecord(Prepared(k, c, proc, spec), c, Done).calls == Provisioned(k, c, proc, spec).calls;
  }

  /** With cooperating services a create ends in a record, its image, its index entry and the answer. */
  lemma CreateWorks(k: Control, links: set<Attachment>, c: nat, proc: string, name: string, required: int,
                    sc: string, t: CreateTale, pool: string)
    requires CreateMayWork(k, c, proc, name, required, sc, t, pool) && t.post.Done?
    ensures CreateRun(k, links, c, proc, name, required, Some(sc), t)
         == Provisioned(k, c, proc, MadeSpec(name, required, sc, t.uuid, pool))
  {
    hide ResolvePool, MibFor, DoReserve, DoMakeImage, DoBeginCreate, DoPostRecord, DoRelease, DoRollback;
    CreateReachesRecord(k, links, c, proc, name, required, sc, t, pool);
    RecordPosts(k, c, proc, MadeSpec(name, required, sc, t.uuid, pool));
    CreatedStays(Provisioned(k, c, proc, MadeSpec(name, required, sc, t.uuid, pool)), links, c, t.undo);
  }

  lemma {:induction false} StretchAppend(k: Control, links: set<Attachment>, a: seq<ControlStep>, b: seq<ControlStep>)
    ensures RunControl(k, links, a + b) == RunControl(RunControl(k, links, a), links, b)
    decreases |a|
  {
    hide NextControl;
    if a == [] {
      assert a + b == b;
    } else {
      assert (a + b)[0] == a[0] && (a + b)[1..] == a[1..] + b;
      StretchAppend(NextControl(k, links, a[0]), links, a[1..], b);
    }
  }

  /**
   Creating a name again after its volume was deleted: two successful answers for one name carry
   different ids, and the old id leads to the new volume's record.
   */
  lemma NameReuseConfusesVolumes(classes: Classes, sc: string, a: Attempt)
    returns (steps: seq<Step>, first: Answer, second: Answer)
    requires a.outcome.Done? && ResolvePool(classes, sc, a).Some?
    ensures var k := After(classes, steps);
            && first in k.answers && second in k.answers
            && first.name == second.name && first.uuid != second.uuid
            && first.uuid in IndexOf(k, "p") && IndexOf(k, "p")[first.uuid] == first.name
            && first.name in k.store.objects && k.store.objects[first.name].spec.uuid == second.uuid
  {
    hide ResolvePool, NextControl, CreateRun, DeleteRun, Put, MibFor, RunControl, CreateSteps, DeleteSteps;
    var k0 := Init(classes).ctl;
    var pool := ResolvePool(classes, sc, a).value;
    var t1 := CreateTale(None, true, "1", a, Done, a);
    CreateWorks(k0, {}, 0, "p", "v", 1, sc, t1, pool);
    CreateRunIsStretch(k0, {}, 0, "p", "v", 1, Some(sc), t1);
    var k1 := CreateRun(k0, {}, 0, "p", "v", 1, Some(sc), t1);
    var gone := FullDelete(k1, sc, pool, a);
    var k2 := RunControl(k1, {}, gone);
    var t2 := CreateTale(None, true, "2", a, Done, a);
    CreateWorks(k2, {}, 3, "p", "v", 1, sc, t2, pool);
    CreateRunIsStretch(k2, {}, 3, "p", "v", 1, Some(sc), t2);
    var s1, s3 := CreateSteps(0, "p", "v", 1, Some(sc), t1), CreateSteps(3, "p", "v", 1, Some(sc), t2);
    StretchAppend(k0, {}, s1, gone);
    StretchAppend(k0, {}, s1 + gone, s3);
    var all := s1 + gone + s3;
    StretchIsRun(Init(classes), all);
    steps := seq(|all|, i requires 0 <= i < |all| => ByControl(all[i]));
    first, second := Answer("v", 1, "1", 1), Answer("v", 1, "2", 1);
    assert Put(k2.store, Record("v", 0, MadeSpec("v", 1, sc, "2", pool), EMPTY_STATUS, FINALIZERS, false)).objects["v"].spec.uuid == "2" by {
      PutStores(k2.store, Record("v", 0, MadeSpec("v", 1, sc, "2", pool), EMPTY_STATUS, FINALIZERS, false));
    }
    PutStores(k2.store, Record("v", 0, MadeSpec("v", 1, sc, "2", pool), EMPTY_STATUS, FINALIZERS, false));
  }

  lemma PutStores(s: Store, o: Record)
    ensures o.name in Put(s, o).objects && Put(s, o).objects[o.name] == o.(version := s.revision + 1)
  {
  }

  /** What the first create leaves behind, as the deletion that follows needs it. */
  ghost predicate FirstVolume(k: Control, sc: string, pool: string) {
    && k.calls.Keys == {0} && k.uuids.Keys == {"1"}
    && k.index == map["p" := map["1" := "v"]]
    && k.store == Put(EMPTY_STORE, Record("v", 0, MadeSpec("v", 1, sc, "1", pool), EMPTY_STATUS, FINALIZERS, false))
    && k.images.Keys == {ImageId(pool, "v")}
  }

  /** Deleting that volume to the end, finalizer and all. */
  lemma FullDelete(k: Control, sc: string, pool: string, a: Attempt) returns (gone: seq<ControlStep>)
    requires FirstVolume(k, sc, pool) && a.outcome.Done? && ResolvePool(k.classes, sc, a) == Some(pool)
    ensures var k' := RunControl(k, {}, gone);
            && k'.classes == k.classes && k'.answers == k.answers && k'.index == k.index && k'.uuids == k.uuids
            && k'.store.objects == map[] && k'.images == map[] && 3 !in k'.calls
  {
    hide ResolvePool, NextControl, DeleteRun;
    var o := k.store.objects["v"];
    var t := DeleteTale(Some(o), a, Some(o), Done);
    var d := DeleteSteps(1, "p", "1", t);
    FirstVolumeDeleted(k, sc, pool, a);
    DeleteRunIsStretch(k, {}, 1, "p", "1", t);
    var k1 := DeleteRun(k, {}, 1, "p", "1", t);
    var o' := k1.store.objects["v"];
    var r := [Reconcile(2, "p", "v", Some(o')), StripFinalizer(2, Done)];
    FirstVolumeStripped(k1);
    StretchAppend(k, {}, d, r);
    assert RunControl(k1, {}, r) == ReconcileRun(k1, 2, "p", "v", Some(o'), Done) by {
      var k2 := NextControl(k1, {}, r[0]);
      assert RunControl(k2, {}, r[1..]) == NextControl(k2, {}, r[1]) by { assert r[1..][1..] == []; }
      ReconcileUnfolds(k1, Some(o'));
    }
    gone := d + r;
  }

  lemma ReconcileUnfolds(k: Control, seen: Option<Record>)
    ensures NextControl(NextControl(k, {}, Reconcile(2, "p", "v", seen)), {}, StripFinalizer(2, Done))
         == ReconcileRun(k, 2, "p", "v", seen, Done)
  {
    hide DoReconcile, DoStripFinalizer;
  }

  /** The volume is terminating: its image is gone and nothing holds its record but the finalizer. */
  ghost predicate Terminating(k: Control) {
    && k.store.objects.Keys == {"v"}
    && k.store.objects["v"] in k.store.history && k.store.objects["v"].name == "v"
    && k.store.objects["v"].deleting && k.store.objects["v"].status.node == ""
    && k.images == map[] && k.calls.Keys == {0, 1}
  }

  lemma FirstVolumeDeleted(k: Control, sc: string, pool: string, a: Attempt)
    requires FirstVolume(k, sc, pool) && a.outcome.Done? && ResolvePool(k.classes, sc, a) == Some(pool)
    ensures var o := k.store.objects["v"];
            var k' := DeleteRun(k, {}, 1, "p", "1", DeleteTale(Some(o), a, Some(o), Done));
            && k'.classes == k.classes && k'.answers == k.answers && k'.index == k.index && k'.uuids == k.uuids
            && Terminating(k')
  {
    hide ResolvePool;
    var o := k.store.objects["v"];
    var k2 := DoReadForDelete(DoBeginDelete(k, 1, "p", "1"), 1, Some(o));
    assert At(k2, 1, DeleteImage(o));
    DropWorks(k2, {}, 1, o, a);
    var k3 := DoDropImage(k2, {}, 1, a);
    assert k3.images == map[];
    assert At(k3, 1, DeleteMark(o));
    assert k3.calls.Keys == {0, 1};
  }

  lemma FirstVolumeStripped(k: Control)
    requires Terminating(k)
    ensures var k' := ReconcileRun(k, 2, "p", "v", Some(k.store.objects["v"]), Done);
            && k'.classes == k.classes && k'.answers == k.answers && k'.index == k.index && k'.uuids == k.uuids
            && k'.store.objects == map[] && k'.images == map[] && 3 !in k'.calls
  {
    var o := k.store.objects["v"];
    var k1 := DoReconcile(k, 2, "p", "v", Some(o));
    assert At(k1, 2, Strip(o));
  }

  /**
   A record create that took effect but reported failure: the rollback takes the image away from
   a record that stays, and no deletion was ever requested.
   */
  lemma LostReplyLosesTheImage(classes: Classes, sc: string, a: Attempt) returns (steps: seq<Step>)
    requires a.outcome.Done? && ResolvePool(classes, sc, a).Some?
    ensures var k := After(classes, steps);
            && "v" in k.store.objects && !k.store.objects["v"].deleting
            && IdOf(k.store.objects["v"].spec) !in k.images
            && k.dropped == {} && k.retired == {}
  {
    hide ResolvePool, NextControl, RunControl, DoReserve, DoMakeImage, DoBeginCreate, DoPostRecord, DoRelease,
         DoRollback, MibFor, Prepared;
    var k0 := Init(classes).ctl;
    var pool := ResolvePool(classes, sc, a).value;
    var t := CreateTale(None, true, "1", a, Lost, a);
    CreateReachesRecord(k0, {}, 0, "p", "v", 1, sc, t, pool);
    CreateRunIsStretch(k0, {}, 0, "p", "v", 1, Some(sc), t);
    var all := CreateSteps(0, "p", "v", 1, Some(sc), t);
    StretchIsRun(Init(classes), all);
    steps := seq(|all|, i requires 0 <= i < |all| => ByControl(all[i]));
    RolledBackAnyway(k0, a, sc, pool);
  }

  lemma RolledBackAnyway(k: Control, a: Attempt, sc: string, pool: string)
    requires a.outcome.Done? && ResolvePool(k.classes, sc, a) == Some(pool) && "v" !in k.store.objects
    ensures var spec := MadeSpec("v", 1, sc, "1", pool);
            var k' := DoRollback(DoRelease(DoPostRecord(Prepared(k, 0, "p", spec), 0, Lost), 0), {}, 0, a);
            && "v" in k'.store.objects && !k'.store.objects["v"].deleting && k'.store.objects["v"].spec == spec
            && IdOf(spec) !in k'.images && k'.dropped == k.dropped && k'.retired == k.retired
  {
    hide ResolvePool, MibFor;
    var spec := MadeSpec("v", 1, sc, "1", pool);
    var k4 := DoPostRecord(Prepared(k, 0, "p", spec), 0, Lost);
    assert At(k4, 0, CreateRelease("v", spec));
    var k5 := DoRelease(k4, 0);
    assert At(k5, 0, CreateRollback("v", spec));
  }

  /** A rollback that is refused leaves the image behind, in a run that follows every rule. */
  lemma RefusedRollbackLeavesTheImage(classes: Classes, sc: string, a: Attempt) returns (steps: seq<Step>)
    requires a.outcome.Done? && ResolvePool(classes, sc, a).Some?
    ensures LawfulRun(Init(classes), steps) && LeftBehind(After(classes, steps), 0)
    ensures var k := After(classes, steps);
            IdOf(k.calls[0].pc.spec) in k.images && k.store.objects == map[]
  {
    hide ResolvePool, NextControl, RunControl, DoReserve, DoMakeImage, DoBeginCreate, DoPostRecord, DoRelease,
         DoRollback, MibFor, Prepared, Next;
    var k0 := Init(classes).ctl;
    var pool := ResolvePool(classes, sc, a).value;
    var t := CreateTale(None, true, "1", a, Refused, a.(outcome := Refused));
    CreateReachesRecord(k0, {}, 0, "p", "v", 1, sc, t, pool);
    CreateRunIsStretch(k0, {}, 0, "p", "v", 1, Some(sc), t);
    var all := CreateSteps(0, "p", "v", 1, Some(sc), t);
    StretchIsRun(Init(classes), all);
    steps := seq(|all|, i requires 0 <= i < |all| => ByControl(all[i]));
    NotRolledBack(k0, a.(outcome := Refused), sc, pool);
    assert steps[..0] == [];
  }

  lemma NotRolledBack(k: Control, a: Attempt, sc: string, pool: string)
    requires a.outcome.Refused? && "v" !in k.store.objects
    ensures var spec := MadeSpec("v", 1, sc, "1", pool);
            var k' := DoRollback(DoRelease(DoPostRecord(Prepared(k, 0, "p", spec), 0, Refused), 0), {}, 0, a);
            && LeftBehind(k', 0) && k'.calls[0].pc.spec == spec && IdOf(spec) in k'.images && k'.store == k.store
  {
    hide ResolvePool, MibFor;
    var spec := MadeSpec("v", 1, sc, "1", pool);
    var k4 := DoPostRecord(Prepared(k, 0, "p", spec), 0, Refused);
    assert At(k4, 0, CreateRelease("v", spec));
    var k5 := DoRelease(k4, 0);
    assert At(k5, 0, CreateRollback("v", spec));
  }
}
