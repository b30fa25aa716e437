/**
 Whole calls as uninterrupted stretches of steps, what they come to when the services cooperate,
 and the recovery of a DeleteVolume that stopped anywhere.
 */
module Calls {
  import opened Records
  import opened Lifecycle
  import opened Soundness
  import opened Ownership
  import opened Guarantees

  /** What the outside answers during one CreateVolume. */
  datatype CreateTale = CreateTale(seen: Option<Record>, labelled: bool, uuid: string, make: Attempt,
                                   post: Outcome, undo: Attempt)

  datatype DeleteTale = DeleteTale(seen: Option<Record>, drop: Attempt, again: Option<Record>, mark: Outcome)

  /** createVolume: from the image to the record or back. */
  function CreateTail(k: Control, links: set<Attachment>, c: nat, t: CreateTale): Control {
    DoRollback(DoRelease(DoPostRecord(DoReserve(DoMakeImage(k, c, t.make), c), c, t.post), c), links, c, t.undo)
  }

  function CreateRun(k: Control, links: set<Attachment>, c: nat, proc: string, name: string, required: int,
                     sc: Option<string>, t: CreateTale): Control
  {
    CreateTail(DoBeginCreate(k, c, proc, name, required, sc, t.seen, t.labelled, t.uuid), links, c, t)
  }

  function CreateSteps(c: nat, proc: string, name: string, required: int, sc: Option<string>,
                       t: CreateTale): seq<ControlStep>
  {
    [BeginCreate(c, proc, name, required, sc, t.seen, t.labelled, t.uuid), MakeImage(c, t.make), Reserve(c),
     PostRecord(c, t.post), Release(c), Rollback(c, t.undo)]
  }

  function DeleteTail(k: Control, links: set<Attachment>, c: nat, t: DeleteTale): Control {
    DoMarkDeleted(DoDropImage(k, links, c, t.drop), c, t.again, t.mark)
  }

  function DeleteRun(k: Control, links: set<Attachment>, c: nat, proc: string, uuid: string, t: DeleteTale): Control {
    DeleteTail(DoReadForDelete(DoBeginDelete(k, c, proc, uuid), c, t.seen), links, c, t)
  }

  function DeleteSteps(c: nat, proc: string, uuid: string, t: DeleteTale): seq<ControlStep> {
    [BeginDelete(c, proc, uuid), ReadForDelete(c, t.seen), DropImage(c, t.drop), MarkDeleted(c, t.again, t.mark)]
  }

  function ReconcileRun(k: Control, c: nat, proc: string, name: string, seen: Option<Record>, strip: Outcome): Control {
    DoStripFinalizer(DoReconcile(k, c, proc, name, seen), c, strip)
  }

  function RunControl(k: Control, links: set<Attachment>, steps: seq<ControlStep>): Control
    decreases |steps|
  {
    if steps == [] then k else RunControl(NextControl(k, links, steps[0]), links, steps[1..])
  }

  /** A stretch of control steps is a run of the machine in which the nodes stand still. */
  lemma {:induction false} StretchIsRun(w: World, steps: seq<ControlStep>)
    ensures Run(w, seq(|steps|, i requires 0 <= i < |steps| => ByControl(steps[i])))
         == w.(ctl := RunControl(w.ctl, w.nodes.links, steps))
    decreases |steps|
  {
    hide NextControl;
    var all := seq(|steps|, i requires 0 <= i < |steps| => ByControl(steps[i]));
    if steps != [] {
      var w1 := w.(ctl := NextControl(w.ctl, w.nodes.links, steps[0]));
      StretchIsRun(w1, steps[1..]);
      var rest := seq(|steps| - 1, i requires 0 <= i < |steps| - 1 => ByControl(steps[1..][i]));
      assert all == [ByControl(steps[0])] + rest;
      RunAppend(w, [ByControl(steps[0])], rest);
      assert [ByControl(steps[0])][..0] == [];
    }
  }

  lemma CreateRunIsStretch(k: Control, links: set<Attachment>, c: nat, proc: string, name: string, required: int,
                           sc: Option<string>, t: CreateTale)
    ensures RunControl(k, links, CreateSteps(c, proc, name, required, sc, t))
         == CreateRun(k, links, c, proc, name, required, sc, t)
  {
    hide DoBeginCreate, DoMakeImage, DoReserve, DoPostRecord, DoRelease, DoRollback;
    var s := CreateSteps(c, proc, name, required, sc, t);
    var k1 := NextControl(k, links, s[0]);
    var k2 := NextControl(k1, links, s[1]);
    var k3 := NextControl(k2, links, s[2]);
    var k4 := NextControl(k3, links, s[3]);
    var k5 := NextControl(k4, links, s[4]);
    assert RunControl(k5, links, s[5..]) == NextControl(k5, links, s[5]) by { assert s[5..][1..] == []; }
    assert RunControl(k4, links, s[4..]) == RunControl(k5, links, s[5..]);
    assert RunControl(k3, links, s[3..]) == RunControl(k4, links, s[4..]);
    assert RunControl(k2, links, s[2..]) == RunControl(k3, links, s[3..]);
    assert RunControl(k1, links, s[1..]) == RunControl(k2, links, s[2..]);
  }

  lemma DeleteRunIsStretch(k: Control, links: set<Attachment>, c: nat, proc: string, uuid: string, t: DeleteTale)
    ensures RunControl(k, links, DeleteSteps(c, proc, uuid, t)) == DeleteRun(k, links, c, proc, uuid, t)
  {
    hide DoBeginDelete, DoReadForDelete, DoDropImage, DoMarkDeleted;
    var s := DeleteSteps(c, proc, uuid, t);
    var k1 := NextControl(k, links, s[0]);
    var k2 := NextControl(k1, links, s[1]);
    var k3 := NextControl(k2, links, s[2]);
    assert RunControl(k3, links, s[3..]) == NextControl(k3, links, s[3]) by { assert s[3..][1..] == []; }
    assert RunControl(k2, links, s[2..]) == RunControl(k3, links, s[3..]);
    assert RunControl(k1, links, s[1..]) == RunControl(k2, links, s[2..]);
  }

  /** Once a create has answered, its deferred steps stand still. */
  lemma CreatedStays(k: Control, links: set<Attachment>, c: nat, a: Attempt)
    requires c in k.calls && k.calls[c].pc.Created?
    ensures DoRelease(k, c) == k && DoRollback(k, links, c, a) == k
  {
    hide ResolvePool, RemoveImage;
  }

  // ---------------------------------------------------------------- recovery of DeleteVolume

  function Current(s: Store, name: string): Option<Record> {
    if name in s.objects then Some(s.objects[name]) else None
  }

  /** Every service answers: reads are current, the class resolves, nothing is refused or lost. */
  ghost predicate Cooperates(k: Control, o: Record, t: DeleteTale) {
    && t.seen == t.again == Current(k.store, o.name)
    && t.drop.outcome.Done? && t.mark.Done?
    && ResolvePool(k.classes, o.spec.rbdSc, t.drop).Some?
  }

  /** The volume is as deleted as the record's holder allows: no image, record terminating or gone. */
  predicate Deleted(k: Control, o: Record) {
    IdOf(o.spec) !in k.images && (o.name in k.store.objects ==> k.store.objects[o.name].deleting)
  }

  /** Nothing but this volume was touched. */
  ghost predicate OthersUntouched(k: Control, k': Control, o: Record) {
    && (forall n | n != o.name ::
          (n in k.store.objects <==> n in k'.store.objects)
          && (n in k.store.objects ==> k'.store.objects[n] == k.store.objects[n]))
    && (forall id | id != IdOf(o.spec) ::
          (id in k.images <==> id in k'.images) && (id in k.images ==> k'.images[id] == k.images[id]))
    && k'.index == k.index
  }

  ghost predicate Converged(k: Control, k': Control, c: nat, o: Record) {
    && At(k', c, Finished(true))
    && Deleted(k', o)
    && OthersUntouched(k, k', o)
    && (Deleted(k, o) ==> k'.store == k.store && k'.images == k.images)
  }

  /**
   From any state of any permitted run, so after a DeleteVolume that failed or died at any point,
   a DeleteVolume with cooperating services on a volume that is not in use succeeds, leaves the
   volume deleted and touches nothing else. On a deleted volume it changes no record and no image.
   */
  lemma DeleteConverges(classes: Classes, steps: seq<Step>, c: nat, proc: string, o: Record, t: DeleteTale)
    requires Permitted(classes, steps) && c !in After(classes, steps).calls
    requires o in After(classes, steps).store.history
    requires o.spec.uuid != "" && o.spec.uuid in IndexOf(After(classes, steps), proc)
    requires Cooperates(After(classes, steps), o, t)
    requires !Watched(Run(Init(classes), steps).nodes.links, IdOf(o.spec))
    ensures var w := Run(Init(classes), steps);
            Converged(w.ctl, DeleteRun(w.ctl, w.nodes.links, c, proc, o.spec.uuid, t), c, o)
  {
    hide Run, Sound, Orderly, Converged, DeleteRun, Cooperates;
    RunOrderly(classes, steps);
    var w := Run(Init(classes), steps);
    if o.name in w.ctl.store.objects {
      DeleteOfStored(w.ctl, w.nodes.links, c, proc, o, t);
    } else {
      DeleteOfGone(w.ctl, w.nodes.links, c, proc, o, t);
    }
  }

  lemma GoneFacts(k: Control, proc: string, o: Record)
    requires Sound(k) && Orderly(k) && o in k.store.history && o.spec.uuid in IndexOf(k, proc)
    ensures IndexOf(k, proc)[o.spec.uuid] == o.name && o.name != ""
    ensures o.name !in k.store.objects ==> IdOf(o.spec) !in k.images
  {
    IndexLeadsTo(k, proc, o);
    assert RecordOrderly(k, o);
  }

  /** A call that is over makes the remaining steps of its script stand still. */
  lemma DeleteTailOver(k: Control, links: set<Attachment>, c: nat, ok: bool, t: DeleteTale)
    requires At(k, c, Finished(ok))
    ensures DeleteTail(k, links, c, t) == k
  {
    hide ResolvePool, Watched, MayRead, ApiDelete;
  }

  lemma DeleteOfGone(k: Control, links: set<Attachment>, c: nat, proc: string, o: Record, t: DeleteTale)
    requires Sound(k) && Orderly(k) && c !in k.calls
    requires o in k.store.history && o.spec.uuid != "" && o.spec.uuid in IndexOf(k, proc)
    requires Cooperates(k, o, t) && o.name !in k.store.objects
    ensures Converged(k, DeleteRun(k, links, c, proc, o.spec.uuid, t), c, o)
  {
    hide Sound, Orderly, ResolvePool, DeleteTail;
    GoneFacts(k, proc, o);
    var k2 := DoReadForDelete(DoBeginDelete(k, c, proc, o.spec.uuid), c, t.seen);
    assert At(k2, c, Finished(true));
    DeleteTailOver(k2, links, c, true, t);
  }

  lemma StoredFacts(k: Control, o: Record)
    requires Sound(k) && Orderly(k) && o in k.store.history && o.name in k.store.objects
    ensures var cur := k.store.objects[o.name];
            ValidStore(k.store) && cur.name == o.name && cur.spec == o.spec && cur in k.store.history
  {
    RecordKnown(k, o.name);
  }

  lemma DeleteOfStored(k: Control, links: set<Attachment>, c: nat, proc: string, o: Record, t: DeleteTale)
    requires Sound(k) && Orderly(k) && c !in k.calls
    requires o in k.store.history && o.spec.uuid != "" && o.spec.uuid in IndexOf(k, proc)
    requires Cooperates(k, o, t) && !Watched(links, IdOf(o.spec)) && o.name in k.store.objects
    ensures Converged(k, DeleteRun(k, links, c, proc, o.spec.uuid, t), c, o)
  {
    hide Sound, Orderly, ValidStore, ResolvePool, Watched, DoDropImage, DoMarkDeleted;
    var cur := k.store.objects[o.name];
    GoneFacts(k, proc, o);
    StoredFacts(k, o);
    StoredResolves(k, cur, t.drop);
    var k2 := DoReadForDelete(DoBeginDelete(k, c, proc, o.spec.uuid), c, t.seen);
    assert At(k2, c, DeleteImage(cur));
    DropWorks(k2, links, c, cur, t.drop);
    MarkWorks(DoDropImage(k2, links, c, t.drop), c, cur);
    if IdOf(o.spec) !in k.images {
      assert k.images - {IdOf(o.spec)} == k.images;
    }
  }

  lemma StoredResolves(k: Control, r: Record, a: Attempt)
    requires Orderly(k) && r in k.store.history && ResolvePool(k.classes, r.spec.rbdSc, a).Some?
    ensures ResolvePool(k.classes, r.spec.rbdSc, a) == Some(r.spec.pool)
  {
    assert RecordOrderly(k, r);
    ResolvesDeclared(k.classes, r.spec.rbdSc, a);
  }

  lemma IndexLeadsTo(k: Control, proc: string, o: Record)
    requires Sound(k) && o in k.store.history && o.spec.uuid in IndexOf(k, proc)
    ensures IndexOf(k, proc)[o.spec.uuid] == o.name && o.spec.image == o.name && o.name != ""
  {
    assert SpecSound(k.uuids, o.name, o.spec);
    assert IndexSound(k.uuids, k.index[proc]);
  }

  lemma DropWorks(k: Control, links: set<Attachment>, c: nat, r: Record, a: Attempt)
    requires At(k, c, DeleteImage(r)) && a.outcome.Done?
    requires ResolvePool(k.classes, r.spec.rbdSc, a) == Some(r.spec.pool) && !Watched(links, IdOf(r.spec))
    ensures var k' := DoDropImage(k, links, c, a);
            At(k', c, DeleteMark(r)) && k'.images == k.images - {IdOf(r.spec)}
            && k' == k.(images := k'.images, dropped := k'.dropped, calls := k'.calls)
  {
    if IdOf(r.spec) !in k.images {
      assert k.images - {IdOf(r.spec)} == k.images;
    }
  }

  lemma MarkWorks(k: Control, c: nat, r: Record)
    requires ValidStore(k.store) && At(k, c, DeleteMark(r))
    requires r.name in k.store.objects && k.store.objects[r.name] == r
    ensures var k' := DoMarkDeleted(k, c, Some(r), Done);
            && At(k', c, Finished(true))
            && k'.images == k.images && k'.index == k.index
            && r.name in k'.store.objects && k'.store.objects[r.name].deleting
            && (forall n | n != r.name ::
                  (n in k.store.objects <==> n in k'.store.objects)
                  && (n in k.store.objects ==> k'.store.objects[n] == k.store.objects[n]))
            && (r.deleting ==> k'.store == k.store)
  {
    assert r in k.store.history;
    DeletionMark(k.store, r.name);
  }
}
