/**
 How whole calls end, exactly, whichever of their steps fails: when a CreateVolume provides the volume
 and when it leaves nothing, when a publish lets its device go again, and what an unpublish leaves for
 its retry.
 */
module Compensation {
  import opened Records
  import opened StorageClass
  import opened Lifecycle
  import opened Soundness
  import opened Calls
  import opened NodeCalls
  import opened Controller
  import opened NodeService

  // ---------------------------------------------------------------- CreateVolume

  /** Records, images and the process's own index are as they were. */
  predicate NothingLeft(k: Control, k': Control, proc: string) {
    SameGoods(k, k') && IndexOf(k', proc) == IndexOf(k, proc)
  }

  /** The call finds no volume and makes an image. */
  predicate MakesImage(k: Control, name: string, required: int, sc: Option<string>, t: CreateTale) {
    && t.seen.None? && t.labelled && sc.Some?
    && var pool := ResolvePool(k.classes, sc.value, t.make);
       && pool.Some? && MibFor(required) > 0 && !t.make.outcome.Refused? && ImageId(pool.value, name) !in k.images
  }

  /** A record is stored for the image. */
  predicate StoresRecord(k: Control, name: string, t: CreateTale) {
    !t.post.Refused? && name !in k.store.objects
  }

  /** The rollback resolves the pool of the image, is not refused, and nobody watches the image. */
  predicate RollbackGetsThrough(k: Control, links: set<Attachment>, name: string, sc: string, t: CreateTale) {
    var pool := ResolvePool(k.classes, sc, t.make);
    && pool.Some? && ResolvePool(k.classes, sc, t.undo) == pool && !t.undo.outcome.Refused?
    && !Watched(links, ImageId(pool.value, name))
  }

  /** The call answers: image and record are made, and both replies arrive. */
  predicate Answers(k: Control, name: string, required: int, sc: Option<string>, t: CreateTale) {
    MakesImage(k, name, required, sc, t) && t.make.outcome.Done? && StoresRecord(k, name, t) && t.post.Done?
  }

  /** No image, or one that is known to be made, has no record, and is rolled back. */
  predicate Compensated(k: Control, links: set<Attachment>, name: string, required: int, sc: Option<string>,
                        t: CreateTale)
  {
    MakesImage(k, name, required, sc, t) ==>
      t.make.outcome.Done? && !StoresRecord(k, name, t) && RollbackGetsThrough(k, links, name, sc.value, t)
  }

  /** The volume is there: its image, its record, its index entry and the answer, and nothing else is new. */
  predicate VolumeMade(k: Control, k': Control, c: nat, proc: string, spec: Spec) {
    && IdOf(spec) !in k.images && spec.image !in k.store.objects
    && k'.images == k.images[IdOf(spec) := Image(MibFor(spec.capacity), spec.uuid, c)]
    && k'.store == Put(k.store, Record(spec.image, 0, spec, EMPTY_STATUS, FINALIZERS, false))
    && IndexOf(k', proc) == IndexOf(k, proc)[spec.uuid := spec.image]
    && At(k', c, Created(spec.uuid, spec.capacity))
  }

  /**
   How a CreateVolume of a new volume ends, whichever of its steps fails. It answers exactly when
   image and record are made and both replies arrive, and then all of the volume is there. When it
   does not answer it leaves nothing behind exactly when no image was made, or the image was known
   to be made, no record was stored for it, and the rollback got through.
   */
  lemma CreateIsAllOrNothing(k: Control, links: set<Attachment>, c: nat, proc: string, name: string, required: int,
                             sc: Option<string>, t: CreateTale)
    requires Sound(k) && c !in k.calls && name != "" && t.uuid != "" && t.uuid !in k.uuids && t.seen.None?
    ensures var k' := CreateRun(k, links, c, proc, name, required, sc, t);
            && c in k'.calls
            && (k'.calls[c].pc.Created? <==> Answers(k, name, required, sc, t))
            && (if Answers(k, name, required, sc, t)
                then VolumeMade(k, k', c, proc, Spec(t.uuid, required, sc.value,
                                                     ResolvePool(k.classes, sc.value, t.make).value, name))
                else NothingLeft(k, k', proc) <==> Compensated(k, links, name, required, sc, t))
  {
    hide ResolvePool, MibFor, DoBeginCreate, CreateTail, Sound, Watched;
    NotIndexed(k, proc, t.uuid);
    var k1 := DoBeginCreate(k, c, proc, name, required, sc, t.seen, t.labelled, t.uuid);
    BeginStep(k, c, proc, name, required, sc, t);
    if !k1.calls[c].pc.CreateImage? {
      TailOver(k1, links, c, t);
    } else {
      TailIsAllOrNothing(k1, links, c, proc, name, required, sc.value, t);
    }
  }

  lemma NotIndexed(k: Control, proc: string, uuid: string)
    requires Sound(k) && uuid !in k.uuids
    ensures uuid !in IndexOf(k, proc)
  {
    if proc in k.index {
      assert IndexSound(k.uuids, k.index[proc]);
    }
  }

  lemma TailIsAllOrNothing(k: Control, links: set<Attachment>, c: nat, proc: string, name: string, required: int,
                           sc: string, t: CreateTale)
    requires c in k.calls && k.calls[c] == Call(proc, CreateImage(name, required, sc, t.uuid))
    requires t.uuid !in IndexOf(k, proc) && t.seen.None? && t.labelled
    ensures var k' := CreateTail(k, links, c, t);
            && c in k'.calls
            && (k'.calls[c].pc.Created? <==> Answers(k, name, required, Some(sc), t))
            && (if Answers(k, name, required, Some(sc), t)
                then VolumeMade(k, k', c, proc, Spec(t.uuid, required, sc, ResolvePool(k.classes, sc, t.make).value, name))
                else NothingLeft(k, k', proc) <==> Compensated(k, links, name, required, Some(sc), t))
  {
    hide ResolvePool, MibFor, Watched, DoMakeImage, DoReserve, DoPostRecord, DoRelease, DoRollback;
    ImageStep(k, c, proc, name, required, sc, t.uuid, t.make);
    var k1 := DoMakeImage(k, c, t.make);
    if Over(k1.calls[c].pc) {
      OverStays(k1, links, c, t);
    } else {
      var pool := ResolvePool(k.classes, sc, t.make).value;
      RecordIsAllOrNothing(k, k1, links, c, proc, Spec(t.uuid, required, sc, pool, name), t);
    }
  }

  /** With the image of `spec` made, the rest of the call answers, or undoes the image if it gets through. */
  lemma RecordIsAllOrNothing(k: Control, k1: Control, links: set<Attachment>, c: nat, proc: string, spec: Spec,
                             t: CreateTale)
    requires IdOf(spec) !in k.images && spec.uuid !in IndexOf(k, proc)
    requires k1.classes == k.classes && k1.store == k.store && k1.index == k.index
    requires k1.images == k.images[IdOf(spec) := Image(MibFor(spec.capacity), spec.uuid, c)]
    requires c in k1.calls && k1.calls[c] == Call(proc, CreateReserve(spec.image, spec))
    ensures var k' := DoRollback(DoRelease(DoPostRecord(DoReserve(k1, c), c, t.post), c), links, c, t.undo);
            var stored := StoresRecord(k, spec.image, t);
            && c in k'.calls && (k'.calls[c].pc.Created? <==> stored && t.post.Done?)
            && (if stored && t.post.Done? then VolumeMade(k, k', c, proc, spec)
                else NothingLeft(k, k', proc) <==>
                     !stored && ResolvePool(k.classes, spec.rbdSc, t.undo) == Some(spec.pool)
                     && !t.undo.outcome.Refused? && !Watched(links, IdOf(spec)))
  {
    hide ResolvePool, MibFor, Watched, RemoveImage, DoReserve, DoPostRecord, DoRelease, DoRollback, Posted, Put;
    RecordScript(k1, c, proc, spec.image, spec, t.post);
    PostedFresh(k1, DoRelease(DoPostRecord(DoReserve(k1, c), c, t.post), c), c, proc, spec, t);
    var k4 := DoRelease(DoPostRecord(DoReserve(k1, c), c, t.post), c);
    if k4.calls[c].pc.Created? {
      CreatedStays(k4, links, c, t.undo);
    } else {
      RollbackStep(k4, links, c, proc, spec.image, spec, t.undo);
      RollbackUndoesIff(k.images, links, IdOf(spec), Image(MibFor(spec.capacity), spec.uuid, c),
                        ResolvePool(k.classes, spec.rbdSc, t.undo), t.undo.outcome);
    }
  }

  /** A fresh id is reserved and kept or given up, and what is stored is new. */
  lemma PostedFresh(k: Control, k': Control, c: nat, proc: string, spec: Spec, t: CreateTale)
    requires Posted(k, k', c, proc, spec.image, spec, t.post) && spec.uuid !in IndexOf(k, proc)
    ensures var stored := StoresRecord(k, spec.image, t);
            var record := Record(spec.image, 0, spec, EMPTY_STATUS, FINALIZERS, false);
            && c in k'.calls
            && k'.calls[c] == Call(proc, if stored && t.post.Done? then Created(spec.uuid, spec.capacity)
                                         else CreateRollback(spec.image, spec))
            && k'.classes == k.classes && k'.images == k.images
            && k'.store == (if stored then Put(k.store, record) else k.store)
            && Put(k.store, record) != k.store
            && IndexOf(k', proc) == (if stored && t.post.Done? then IndexOf(k, proc)[spec.uuid := spec.image]
                                     else IndexOf(k, proc))
  {
    assert IndexOf(k, proc)[spec.uuid := spec.image] - {spec.uuid} == IndexOf(k, proc);
    assert Put(k.store, Record(spec.image, 0, spec, EMPTY_STATUS, FINALIZERS, false)).revision > k.store.revision;
  }

  /** Removing from the pool that was resolved restores the images exactly when it hits the new one. */
  lemma RollbackUndoesIff(images: map<ImageId, Image>, links: set<Attachment>, id: ImageId, m: Image,
                          pool: Option<string>, outcome: Outcome)
    requires id !in images
    ensures var after := if pool.None? then images[id := m]
                         else RemoveImage(images[id := m], links, ImageId(pool.value, id.image), outcome).images;
            after == images <==> pool == Some(id.pool) && !outcome.Refused? && !Watched(links, id)
  {
    hide Watched;
    assert images[id := m] - {id} == images;
    assert id in images[id := m];
  }

  /**
   Exactly when a create of a new volume leaves its record stored without its image: the record was
   stored with its reply lost, and the rollback got through.
   */
  lemma RecordLosesItsImageIff(k: Control, links: set<Attachment>, c: nat, proc: string, name: string, required: int,
                               sc: Option<string>, t: CreateTale)
    requires Sound(k) && c !in k.calls && name != "" && t.uuid != "" && t.uuid !in k.uuids && t.seen.None?
    ensures var k' := CreateRun(k, links, c, proc, name, required, sc, t);
            StoredWithoutImage(k', name, t.uuid) <==>
              && MakesImage(k, name, required, sc, t) && t.make.outcome.Done?
              && StoresRecord(k, name, t) && t.post.Lost? && RollbackGetsThrough(k, links, name, sc.value, t)
  {
    hide ResolvePool, MibFor, DoBeginCreate, CreateTail, Sound, Watched;
    NotIndexed(k, proc, t.uuid);
    NotStored(k, name, t.uuid);
    var k1 := DoBeginCreate(k, c, proc, name, required, sc, t.seen, t.labelled, t.uuid);
    BeginStep(k, c, proc, name, required, sc, t);
    if !k1.calls[c].pc.CreateImage? {
      TailOver(k1, links, c, t);
    } else {
      TailLosesImageIff(k1, links, c, proc, name, required, sc.value, t);
    }
  }

  /** The record made for `uuid` is stored and has no image. */
  predicate StoredWithoutImage(k: Control, name: string, uuid: string) {
    name in k.store.objects && k.store.objects[name].spec.uuid == uuid && IdOf(k.store.objects[name].spec) !in k.images
  }

  lemma NotStored(k: Control, name: string, uuid: string)
    requires Sound(k) && uuid !in k.uuids
    ensures name in k.store.objects ==> k.store.objects[name].spec.uuid != uuid
  {
    if name in k.store.objects {
      assert k.store.objects[name] in k.store.history;
      assert SpecSound(k.uuids, name, k.store.objects[name].spec);
    }
  }

  lemma TailLosesImageIff(k: Control, links: set<Attachment>, c: nat, proc: string, name: string, required: int,
                          sc: string, t: CreateTale)
    requires c in k.calls && k.calls[c] == Call(proc, CreateImage(name, required, sc, t.uuid))
    requires t.uuid !in IndexOf(k, proc) && t.seen.None? && t.labelled
    requires name in k.store.objects ==> k.store.objects[name].spec.uuid != t.uuid
    ensures var k' := CreateTail(k, links, c, t);
            StoredWithoutImage(k', name, t.uuid) <==>
              && MakesImage(k, name, required, Some(sc), t) && t.make.outcome.Done?
              && StoresRecord(k, name, t) && t.post.Lost? && RollbackGetsThrough(k, links, name, sc, t)
  {
    hide ResolvePool, MibFor, Watched, DoMakeImage, DoReserve, DoPostRecord, DoRelease, DoRollback;
    ImageStep(k, c, proc, name, required, sc, t.uuid, t.make);
    var k1 := DoMakeImage(k, c, t.make);
    if Over(k1.calls[c].pc) {
      OverStays(k1, links, c, t);
    } else {
      var pool := ResolvePool(k.classes, sc, t.make).value;
      RecordLosesImageIff(k, k1, links, c, proc, Spec(t.uuid, required, sc, pool, name), t);
    }
  }

  lemma RecordLosesImageIff(k: Control, k1: Control, links: set<Attachment>, c: nat, proc: string, spec: Spec,
                            t: CreateTale)
    requires IdOf(spec) !in k.images && spec.uuid !in IndexOf(k, proc)
    requires spec.image in k.store.objects ==> k.store.objects[spec.image].spec.uuid != spec.uuid
    requires k1.classes == k.classes && k1.store == k.store && k1.index == k.index
    requires k1.images == k.images[IdOf(spec) := Image(MibFor(spec.capacity), spec.uuid, c)]
    requires c in k1.calls && k1.calls[c] == Call(proc, CreateReserve(spec.image, spec))
    ensures var k' := DoRollback(DoRelease(DoPostRecord(DoReserve(k1, c), c, t.post), c), links, c, t.undo);
            StoredWithoutImage(k', spec.image, spec.uuid) <==>
              && StoresRecord(k, spec.image, t) && t.post.Lost?
              && ResolvePool(k.classes, spec.rbdSc, t.undo) == Some(spec.pool)
              && !t.undo.outcome.Refused? && !Watched(links, IdOf(spec))
  {
    hide ResolvePool, MibFor, Watched, DoReserve, DoPostRecord, DoRelease, DoRollback, Posted;
    RecordScript(k1, c, proc, spec.image, spec, t.post);
    PostedFresh(k1, DoRelease(DoPostRecord(DoReserve(k1, c), c, t.post), c), c, proc, spec, t);
    var k4 := DoRelease(DoPostRecord(DoReserve(k1, c), c, t.post), c);
    if k4.calls[c].pc.Created? {
      CreatedStays(k4, links, c, t.undo);
    } else {
      RollbackStep(k4, links, c, proc, spec.image, spec, t.undo);
    }
  }

  // ---------------------------------------------------------------- DeleteVolume

  /** An id that is empty or not in the process's index: the call succeeds and changes nothing but itself. */
  lemma DeleteOfUnknownSucceeds(k: Control, links: set<Attachment>, c: nat, proc: string, uuid: string, t: DeleteTale)
    requires c !in k.calls && (uuid == "" || proc !in k.index || uuid !in k.index[proc])
    ensures DeleteRun(k, links, c, proc, uuid, t) == k.(calls := k.calls[c := Call(proc, Finished(true))])
  {
    hide DeleteTail, MayRead;
    DeleteTailOver(k.(calls := k.calls[c := Call(proc, Finished(true))]), links, c, true, t);
  }

  /**
   How a DeleteVolume with an index entry ends, whichever of its steps fails. Nothing to read is success.
   Otherwise it succeeds exactly when the image is removed or already gone, without anyone watching it,
   and the record is marked, both acknowledged; and it marks nothing unless the image step succeeded.
   */
  lemma DeleteOutcome(k: Control, links: set<Attachment>, c: nat, proc: string, uuid: string, name: string,
                      t: DeleteTale)
    requires c !in k.calls && proc in k.index && uuid in k.index[proc] && k.index[proc][uuid] == name
    requires uuid != "" && name != "" && MayRead(k.store, name, t.seen) && MayRead(k.store, name, t.again)
    ensures var k' := DeleteRun(k, links, c, proc, uuid, t);
            c in k'.calls && k'.index == k.index
            && if t.seen.None? then
                 k'.store == k.store && k'.images == k.images && k'.calls[c].pc == Finished(true)
               else
                 var spec := t.seen.value.spec;
                 var pool := ResolvePool(k.classes, spec.rbdSc, t.drop);
                 var id := ImageId(if pool.Some? then pool.value else "", spec.image);
                 var gone := pool.Some? && !t.drop.outcome.Refused? && (id in k.images ==> forall l | l in links :: l.id != id);
                 var marks := gone && t.drop.outcome.Done? && t.again.Some? && !t.mark.Refused? && name in k.store.objects;
                 && k'.images == (if gone then k.images - {id} else k.images)
                 && (marks ==> k'.store == ApiDelete(k.store, name).value)
                 && (!marks ==> k'.store == k.store)
                 && k'.calls[c].pc == Finished(marks && t.mark.Done?)
  {
    hide ResolvePool, DoDropImage, DoMarkDeleted, DeleteTail, RemoveImage, Put;
    var k2 := DoReadForDelete(DoBeginDelete(k, c, proc, uuid), c, t.seen);
    if t.seen.None? {
      DeleteTailOver(k2, links, c, true, t);
    } else {
      DropOrStop(k2, links, c, proc, t.seen.value, t);
    }
  }

  /** From the image step on. */
  lemma DropOrStop(k: Control, links: set<Attachment>, c: nat, proc: string, r: Record, t: DeleteTale)
    requires c in k.calls && k.calls[c] == Call(proc, DeleteImage(r)) && MayRead(k.store, r.name, t.again)
    ensures var k' := DeleteTail(k, links, c, t);
            var pool := ResolvePool(k.classes, r.spec.rbdSc, t.drop);
            var id := ImageId(if pool.Some? then pool.value else "", r.spec.image);
            var gone := pool.Some? && !t.drop.outcome.Refused? && (id in k.images ==> forall l | l in links :: l.id != id);
            var marks := gone && t.drop.outcome.Done? && t.again.Some? && !t.mark.Refused? && r.name in k.store.objects;
            && c in k'.calls && k'.index == k.index
            && k'.images == (if gone then k.images - {id} else k.images)
            && (marks ==> k'.store == ApiDelete(k.store, r.name).value)
            && (!marks ==> k'.store == k.store)
            && k'.calls[c].pc == Finished(marks && t.mark.Done?)
  {
    hide ResolvePool, DoDropImage, DoMarkDeleted, MayRead;
    DropStep(k, links, c, proc, r, t.drop);
    var k1 := DoDropImage(k, links, c, t.drop);
    if k1.calls[c].pc.DeleteMark? {
      MarkStep(k1, c, proc, r, t.again, t.mark);
    } else {
      MarkOver(k1, c, t.again, t.mark);
    }
  }

  // ---------------------------------------------------------------- NodePublishVolume

  /** The device comes to be connected. */
  predicate Connects(w: World, r: Record, t: PublishTale) {
    r.spec.image != "" && r.spec.pool != "" && t.ready && t.zone.Some?
    && !t.connect.Refused? && IdOf(r.spec) in w.ctl.images
  }

  /** The driver learns which device was connected; only from then on is there a rollback. */
  predicate Learns(w: World, r: Record, t: PublishTale) {
    Connects(w, r, t) && t.connect.Done? && t.dev != ""
  }

  /** The target is or can be mounted. */
  predicate Mounts(n: Nodes, node: string, r: Record, t: PublishTale) {
    !t.check.Failed? && (AttachmentOf(node, r) in n.mounts || ((t.check.Missing? ==> t.check.made) && t.mount))
  }

  /** The path cannot be missing where something is mounted. */
  predicate CheckIsTrue(n: Nodes, node: string, r: Record, t: PublishTale) {
    t.check.Missing? ==> AttachmentOf(node, r) !in n.mounts
  }

  /** What a publish leaves connected. */
  function LinksLeft(w: World, node: string, r: Record, t: PublishTale): set<Attachment> {
    var a := AttachmentOf(node, r);
    if !Connects(w, r, t) then w.nodes.links
    else if Learns(w, r, t) && !Mounts(w.nodes, node, r, t) && !t.undo.Refused? then w.nodes.links - {a}
    else w.nodes.links + {a}
  }

  /** The status write of a publish that has mounted. */
  function StatusWritten(w: World, node: string, r: Record, t: PublishTale): Option<Store>
    requires t.zone.Some?
  {
    if t.again.None? || t.write.Refused? then None
    else ApiUpdate(w.ctl.store,
                   t.again.value.(status := PublishedStatus(r.status, node, t.dev, t.ip, t.zone.value)))
  }

  /** A publish that finds a record of its volume. */
  ghost predicate FindsRecord(w: World, c: nat, node: string, uuid: string, r: Record, t: PublishTale) {
    && c !in w.nodes.calls && Lookup(IndexOf(w.ctl, node), uuid).Some? && t.seen == Some(r)
    && MayRead(w.ctl.store, Lookup(IndexOf(w.ctl, node), uuid).value, t.seen)
    && MayRead(w.ctl.store, r.name, t.again) && CheckIsTrue(w.nodes, node, r, t)
  }

  /**
   How a publish ends, whichever of its steps fails. Only when it learns of its device does it go on
   to mount; if the volume is mounted then, the status write decides the answer, and otherwise the
   mounts are as they were and the rollback has been tried.
   */
  lemma PublishOutcome(w: World, c: nat, node: string, uuid: string, r: Record, t: PublishTale)
    requires FindsRecord(w, c, node, uuid, r, t)
    ensures var w' := PublishRun(w, c, node, uuid, t);
            && c in w'.nodes.calls && w'.nodes.links == LinksLeft(w, node, r, t)
            && if Learns(w, r, t) && Mounts(w.nodes, node, r, t)
               then
                 var written := StatusWritten(w, node, r, t);
                 && w'.nodes.mounts == w.nodes.mounts + {AttachmentOf(node, r)}
                 && w'.ctl == w.ctl.(store := if written.Some? then written.value else w.ctl.store)
                 && w'.nodes.calls[c].pc == NodeDone(written.Some? && t.write.Done?)
               else
                 && w'.nodes.mounts == w.nodes.mounts && w'.ctl == w.ctl
                 && w'.nodes.calls[c].pc == NodeDone(false)
  {
    assert r.name == Lookup(IndexOf(w.ctl, node), uuid).value;
    hide MayRead, Lookup, ApiUpdate, DoWriteStatus, DoUndo, DoMount, DoCheckTarget, DoConnect, PublishTail;
    var w2 := PublishReadStep(w, c, node, uuid, t);
    ConnectStep(w2, c, node, r, t);
    var w3 := w2.(nodes := DoConnect(w2, c, t.ready, t.zone, t.dev, t.connect));
    if Learns(w, r, t) {
      MountOrUndo(w3, c, node, r, t);
    } else {
      PublishOver(w3, c, t);
    }
  }

  /** From the target path on. */
  lemma MountOrUndo(w: World, c: nat, node: string, r: Record, t: PublishTale)
    requires t.zone.Some? && c in w.nodes.calls
    requires w.nodes.calls[c] == NodeCall(node, PublishCheck(r, t.dev, t.zone.value))
    requires MayRead(w.ctl.store, r.name, t.again) && CheckIsTrue(w.nodes, node, r, t)
    ensures var w' := PublishTail(w, c, t);
            var a := AttachmentOf(node, r);
            && c in w'.nodes.calls
            && if Mounts(w.nodes, node, r, t)
               then
                 var written := StatusWritten(w, node, r, t);
                 && w'.nodes.mounts == w.nodes.mounts + {a} && w'.nodes.links == w.nodes.links
                 && w'.ctl == w.ctl.(store := if written.Some? then written.value else w.ctl.store)
                 && w'.nodes.calls[c].pc == NodeDone(written.Some? && t.write.Done?)
               else
                 && w'.nodes.mounts == w.nodes.mounts && w'.ctl == w.ctl
                 && w'.nodes.links == (if t.undo.Refused? then w.nodes.links else w.nodes.links - {a})
                 && w'.nodes.calls[c].pc == NodeDone(false)
  {
    hide MayRead, ApiUpdate, DoWriteStatus, DoUndo, DoMount, DoCheckTarget;
    MountStep(w.nodes, c, node, r, t.dev, t.zone.value, t);
    var n4 := DoMount(DoCheckTarget(w.nodes, c, t.check), c, t.mount);
    if Mounts(w.nodes, node, r, t) {
      UndoStands(n4, c, t.undo);
      WriteStep(w.(nodes := n4), c, t.again, t.ip, t.write);
    } else {
      UndoStep(n4, c, node, r, t.undo);
      WriteOver(w.(nodes := DoUndo(n4, c, t.undo)), c, t.again, t.ip, t.write);
    }
  }

  /**
   Exactly when no device is connected after a publish: there was none and the publish connected
   none, or it learned of its device, could not mount it, and the rollback took effect.
   */
  lemma PublishLetsGoIff(w: World, c: nat, node: string, uuid: string, r: Record, t: PublishTale)
    requires FindsRecord(w, c, node, uuid, r, t)
    ensures AttachmentOf(node, r) !in PublishRun(w, c, node, uuid, t).nodes.links <==>
            (!Connects(w, r, t) && AttachmentOf(node, r) !in w.nodes.links)
            || (Learns(w, r, t) && !Mounts(w.nodes, node, r, t) && !t.undo.Refused?)
  {
    hide PublishRun, MayRead, Lookup;
    PublishOutcome(w, c, node, uuid, r, t);
  }

  /**
   Repeating a publish of a volume that is mounted, with a target check that fails, takes the
   device away from under the mount, whatever else happens.
   */
  lemma RepeatedPublishStrandsTheMount(w: World, c: nat, node: string, uuid: string, r: Record, t: PublishTale)
    requires FindsRecord(w, c, node, uuid, r, t) && Learns(w, r, t) && !t.undo.Refused?
    requires AttachmentOf(node, r) in w.nodes.mounts && t.check.Failed?
    ensures var w' := PublishRun(w, c, node, uuid, t);
            AttachmentOf(node, r) in w'.nodes.mounts && AttachmentOf(node, r) !in w'.nodes.links
  {
    hide MayRead, Lookup, ApiUpdate, PublishRun;
    PublishOutcome(w, c, node, uuid, r, t);
  }

  /**
   A connect that takes effect but reports failure: the call fails and the device stays connected,
   since no rollback was set up.
   */
  lemma LostConnectKeepsTheDevice(w: World, c: nat, node: string, uuid: string, r: Record, t: PublishTale)
    requires FindsRecord(w, c, node, uuid, r, t) && Connects(w, r, t) && t.connect.Lost?
    ensures var w' := PublishRun(w, c, node, uuid, t);
            && c in w'.nodes.calls && w'.nodes.calls[c].pc == NodeDone(false)
            && AttachmentOf(node, r) in w'.nodes.links && w'.nodes.mounts == w.nodes.mounts
  {
    hide MayRead, Lookup, ApiUpdate, PublishRun;
    PublishOutcome(w, c, node, uuid, r, t);
  }

  /** Every service answers a publish: current reads, nothing refused or lost. */
  predicate ObligingPublish(w: World, name: string, t: PublishTale) {
    && name in w.ctl.store.objects && t.seen == t.again == Some(w.ctl.store.objects[name])
    && Learns(w, w.ctl.store.objects[name], t)
    && !t.check.Failed? && (t.check.Missing? ==> t.check.made) && t.mount && t.write.Done?
  }

  /**
   A repeated publish, wherever the failed one stopped: with obliging services it succeeds, and the
   volume is connected, mounted and recorded on this node.
   */
  lemma PublishConverges(w: World, c: nat, node: string, uuid: string, name: string, t: PublishTale)
    requires ValidStore(w.ctl.store) && c !in w.nodes.calls
    requires Lookup(IndexOf(w.ctl, node), uuid) == Some(name) && ObligingPublish(w, name, t)
    requires CheckIsTrue(w.nodes, node, w.ctl.store.objects[name], t)
    ensures var r := w.ctl.store.objects[name];
            var a := AttachmentOf(node, r);
            var w' := PublishRun(w, c, node, uuid, t);
            && c in w'.nodes.calls && w'.nodes.calls[c].pc == NodeDone(true)
            && w'.nodes.mounts == w.nodes.mounts + {a} && w'.nodes.links == w.nodes.links + {a}
            && name in w'.ctl.store.objects
            && var status := w'.ctl.store.objects[name].status;
               && status.node == node && status.devpath == t.dev && status.storageIp == t.ip
               && status.allNodes == t.zone.value
               && (r.status.prenode != "" || r.status.node == "" ==> status.prenode == r.status.prenode)
               && (r.status.prenode == "" && r.status.node != "" ==> status.prenode == r.status.node)
  {
    hide Lookup, PublishRun;
    var r := w.ctl.store.objects[name];
    assert r in w.ctl.store.history && r.name == name;
    PublishOutcome(w, c, node, uuid, r, t);
  }

  // ---------------------------------------------------------------- NodeUnpublishVolume

  /** The target is not mounted, or is unmounted, and its path is removed. */
  predicate Clears(n: Nodes, node: string, r: Record, t: UnpublishTale) {
    !t.check.Failed? && (AttachmentOf(node, r) in n.mounts ==> t.unmount.Done?) && t.removed
  }

  /** The status write of an unpublish that has disconnected. */
  function HolderCleared(w: World, node: string, r: Record, t: UnpublishTale): Option<Store> {
    if !Clears(w.nodes, node, r, t) || !t.detach.Done? || t.again.None? || t.write.Refused? then None
    else ApiUpdate(w.ctl.store, t.again.value.(status := r.status.(node := "")))
  }

  ghost predicate FindsRecordAgain(w: World, c: nat, node: string, uuid: string, r: Record, t: UnpublishTale) {
    && c !in w.nodes.calls && Lookup(IndexOf(w.ctl, node), uuid).Some? && t.seen == Some(r)
    && MayRead(w.ctl.store, Lookup(IndexOf(w.ctl, node), uuid).value, t.seen)
    && MayRead(w.ctl.store, r.name, t.again)
    && (t.check.Missing? ==> AttachmentOf(node, r) !in w.nodes.mounts)
  }

  /**
   How an unpublish ends, whichever of its steps fails. The version that it read decides whether it is
   let in; then it unmounts before it disconnects and disconnects before it writes the status.
   */
  lemma UnpublishOutcome(w: World, c: nat, node: string, uuid: string, r: Record, t: UnpublishTale)
    requires FindsRecordAgain(w, c, node, uuid, r, t)
    ensures var w' := UnpublishRun(w, c, node, uuid, t);
            var a := AttachmentOf(node, r);
            && c in w'.nodes.calls
            && if r.status.node != node
               then
                 && w'.ctl == w.ctl && w'.nodes.mounts == w.nodes.mounts && w'.nodes.links == w.nodes.links
                 && w'.nodes.calls[c].pc == NodeDone(false)
               else
                 var written := HolderCleared(w, node, r, t);
                 && w'.nodes.mounts == (if t.check.Failed? || t.unmount.Refused? then w.nodes.mounts
                                        else w.nodes.mounts - {a})
                 && w'.nodes.links == (if Clears(w.nodes, node, r, t) && !t.detach.Refused? then w.nodes.links - {a}
                                       else w.nodes.links)
                 && w'.ctl == w.ctl.(store := if written.Some? then written.value else w.ctl.store)
                 && w'.nodes.calls[c].pc == NodeDone(written.Some? && t.write.Done?)
  {
    assert r.name == Lookup(IndexOf(w.ctl, node), uuid).value;
    hide MayRead, Lookup, ApiUpdate, UnpublishTail;
    var w2 := UnpublishReadStep(w, c, node, uuid, t);
    if r.status.node != node {
      UnpublishOver(w2, c, t);
    } else {
      ClearOrStop(w2, c, node, r, t);
    }
  }

  /** From the target path on. */
  lemma ClearOrStop(w: World, c: nat, node: string, r: Record, t: UnpublishTale)
    requires c in w.nodes.calls && w.nodes.calls[c] == NodeCall(node, UnpublishCheck(r))
    requires MayRead(w.ctl.store, r.name, t.again)
    requires t.check.Missing? ==> AttachmentOf(node, r) !in w.nodes.mounts
    ensures var w' := UnpublishTail(w, c, t);
            var a := AttachmentOf(node, r);
            var written := HolderCleared(w, node, r, t);
            && c in w'.nodes.calls
            && w'.nodes.mounts == (if t.check.Failed? || t.unmount.Refused? then w.nodes.mounts else w.nodes.mounts - {a})
            && w'.nodes.links == (if Clears(w.nodes, node, r, t) && !t.detach.Refused? then w.nodes.links - {a}
                                  else w.nodes.links)
            && w'.ctl == w.ctl.(store := if written.Some? then written.value else w.ctl.store)
            && w'.nodes.calls[c].pc == NodeDone(written.Some? && t.write.Done?)
  {
    hide MayRead, ApiUpdate, DoWriteStatus, DoDetach, DoRemoveTarget, DoUnmount;
    UnmountStep(w.nodes, c, node, r, t);
    var n2 := DoRemoveTarget(DoUnmount(w.nodes, c, t.check, t.unmount), c, t.removed);
    var w3 := w.(nodes := DoDetach(n2, c, t.detach));
    if !Clears(w.nodes, node, r, t) {
      DetachStands(n2, c, t.detach);
      WriteOver(w3, c, t.again, "", t.write);
    } else {
      DetachStep(n2, c, node, r, t.detach);
      if t.detach.Done? {
        WriteStep(w3, c, t.again, "", t.write);
      } else {
        WriteOver(w3, c, t.again, "", t.write);
      }
    }
  }

  /**
   Exactly when an unpublish by any node makes the record of a held volume name nobody: the version it
   read first named that node, the volume was cleared and disconnected there, and the status write
   went to the stored version. Who the stored record names is nowhere asked.
   */
  lemma HolderBlankedIff(w: World, c: nat, node: string, uuid: string, r: Record, t: UnpublishTale)
    requires ValidStore(w.ctl.store) && FindsRecordAgain(w, c, node, uuid, r, t)
    requires r.name in w.ctl.store.objects && w.ctl.store.objects[r.name].status.node != ""
    ensures var s' := UnpublishRun(w, c, node, uuid, t).ctl.store;
            && r.name in s'.objects
            && (s'.objects[r.name].status.node == "" <==>
                  && r.status.node == node && Clears(w.nodes, node, r, t) && t.detach.Done?
                  && t.again == Some(w.ctl.store.objects[r.name]) && !t.write.Refused?)
  {
    hide UnpublishRun, Lookup, ApiUpdate, Clears;
    UnpublishOutcome(w, c, node, uuid, r, t);
    StoredIsKnown(w.ctl.store, r.name);
    if r.status.node == node && HolderCleared(w, node, r, t).Some? {
      StatusWrite(w.ctl.store, t.again.value, r.status.(node := ""));
    } else if t.again == Some(w.ctl.store.objects[r.name]) {
      CurrentWrite(w.ctl.store, w.ctl.store.objects[r.name], r.status.(node := ""));
    }
  }

  /** Every service answers an unpublish up to its status write: nothing refused or lost, reads current. */
  predicate Obliging(s: Store, name: string, t: UnpublishTale) {
    && name in s.objects && t.seen == t.again == Some(s.objects[name])
    && t.check.Told? && t.unmount.Done? && t.removed && t.detach.Done?
  }

  /**
   A retry of the holder's unpublish, wherever the failed one stopped: with obliging services it
   unmounts, disconnects and clears the holder unless the write is refused, and it succeeds exactly
   when the write does.
   */
  lemma UnpublishConverges(w: World, c: nat, node: string, uuid: string, name: string, t: UnpublishTale)
    requires ValidStore(w.ctl.store) && c !in w.nodes.calls
    requires Lookup(IndexOf(w.ctl, node), uuid) == Some(name) && Obliging(w.ctl.store, name, t)
    requires w.ctl.store.objects[name].status.node == node
    ensures var r := w.ctl.store.objects[name];
            var w' := UnpublishRun(w, c, node, uuid, t);
            && c in w'.nodes.calls && w'.nodes.calls[c].pc == NodeDone(t.write.Done?)
            && w'.nodes.mounts == w.nodes.mounts - {AttachmentOf(node, r)}
            && w'.nodes.links == w.nodes.links - {AttachmentOf(node, r)}
            && w'.ctl.index == w.ctl.index && ValidStore(w'.ctl.store)
            && name in w'.ctl.store.objects
            && w'.ctl.store.objects[name].status == (if t.write.Refused? then r.status else r.status.(node := ""))
  {
    hide Lookup, UnpublishRun, ValidStore, ApiUpdate;
    var r := w.ctl.store.objects[name];
    StoredIsKnown(w.ctl.store, name);
    UnpublishOutcome(w, c, node, uuid, r, t);
    CurrentWrite(w.ctl.store, r, r.status.(node := ""));
  }

  lemma StoredIsKnown(s: Store, name: string)
    requires ValidStore(s) && name in s.objects
    ensures s.objects[name] in s.history && s.objects[name].name == name
  {
  }

  /** A status write on the stored version succeeds. */
  lemma CurrentWrite(s: Store, r: Record, status: Status)
    requires ValidStore(s) && r.name in s.objects && s.objects[r.name] == r
    ensures var s' := ApiUpdate(s, r.(status := status));
            && s'.Some? && ValidStore(s'.value) && s.history <= s'.value.history
            && r.name in s'.value.objects && s'.value.objects[r.name].status == status
            && s'.value.objects[r.name].name == r.name && s'.value.objects[r.name].spec == r.spec
  {
    StatusWrite(s, r, status);
  }

  /**
   The retry that is not let in: once a holder's unpublish has cleared the record, whether or not it
   was told so, a further unpublish with a current read is refused and changes nothing.
   */
  lemma FurtherUnpublishIsRefused(w: World, c: nat, node: string, uuid: string, name: string, t: UnpublishTale,
                                  d: nat, u: UnpublishTale)
    requires ValidStore(w.ctl.store) && c !in w.nodes.calls && node != ""
    requires Lookup(IndexOf(w.ctl, node), uuid) == Some(name) && Obliging(w.ctl.store, name, t) && !t.write.Refused?
    requires w.ctl.store.objects[name].status.node == node
    requires var w1 := UnpublishRun(w, c, node, uuid, t);
             && d !in w1.nodes.calls && name in w1.ctl.store.objects
             && u.seen == Some(w1.ctl.store.objects[name]) && MayRead(w1.ctl.store, name, u.again)
             && (u.check.Missing? ==> AttachmentOf(node, w1.ctl.store.objects[name]) !in w1.nodes.mounts)
    ensures var w1 := UnpublishRun(w, c, node, uuid, t);
            var w2 := UnpublishRun(w1, d, node, uuid, u);
            && w2.ctl == w1.ctl && w2.nodes.mounts == w1.nodes.mounts && w2.nodes.links == w1.nodes.links
            && d in w2.nodes.calls && w2.nodes.calls[d].pc == NodeDone(false)
  {
    hide Lookup, UnpublishRun, ValidStore, ApiUpdate;
    UnpublishConverges(w, c, node, uuid, name, t);
    var w1 := UnpublishRun(w, c, node, uuid, t);
    StoredIsKnown(w1.ctl.store, name);
    UnpublishOutcome(w1, d, node, uuid, w1.ctl.store.objects[name], u);
  }
}
