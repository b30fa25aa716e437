/**
 What the controllers guarantee over every run of the machine: any number of processes, calls
 interleaved at every effect, reads as stale as they may be, and failures anywhere.
 */
module Guarantees {
  import opened Records
  import opened StorageClass
  import opened Lifecycle
  import opened Soundness
  import opened Ownership

  type Classes = map<string, map<string, string>>

  /** The control state after a run from nothing. */
  function After(classes: Classes, steps: seq<Step>): Control {
    Run(Init(classes), steps).ctl
  }

  /** The hypotheses on a whole run. */
  ghost predicate Permitted(classes: Classes, steps: seq<Step>) {
    ClassesAgree(classes) && LawfulRun(Init(classes), steps)
  }

  // ---------------------------------------------------------------- what a step does to the store

  /** The store stands still, takes a version of a new or stored record, or lets a safe record go. */
  ghost predicate StoreStep(s: Store, s': Store) {
    || s' == s
    || (exists o: Record :: s' == Put(s, o) && PutAllowed(s, o))
    || (exists n :: n in s.objects && s.objects[n].deleting && s.objects[n].status.node == "" && s' == Remove(s, n))
  }

  ghost predicate PutAllowed(s: Store, o: Record) {
    o.name in s.objects ==> o.spec == s.objects[o.name].spec
  }

  lemma PostRecordStore(k: Control, c: nat, outcome: Outcome)
    ensures StoreStep(k.store, DoPostRecord(k, c, outcome).store)
    ensures k.store.objects.Keys <= DoPostRecord(k, c, outcome).store.objects.Keys
  {
    if c in k.calls && k.calls[c].pc.CreateRecord? {
      var pc := k.calls[c].pc;
      assert PutAllowed(k.store, Record(pc.name, 0, pc.spec, EMPTY_STATUS, FINALIZERS, false))
        || pc.name in k.store.objects;
    }
  }

  lemma MarkDeletedStore(k: Control, c: nat, seen: Option<Record>, outcome: Outcome)
    requires Sound(k)
    ensures StoreStep(k.store, DoMarkDeleted(k, c, seen, outcome).store)
    ensures k.store.objects.Keys <= DoMarkDeleted(k, c, seen, outcome).store.objects.Keys
  {
    if c in k.calls && k.calls[c].pc.DeleteMark? && ApiDelete(k.store, k.calls[c].pc.record.name).Some? {
      DeletionMark(k.store, k.calls[c].pc.record.name);
      assert PutAllowed(k.store, k.store.objects[k.calls[c].pc.record.name].(deleting := true));
    }
  }

  lemma StripStore(k: Control, c: nat, outcome: Outcome)
    requires Sound(k)
    ensures StoreStep(k.store, DoStripFinalizer(k, c, outcome).store)
    ensures forall n | n in k.store.objects && n !in DoStripFinalizer(k, c, outcome).store.objects ::
              c in k.calls && k.calls[c].pc == Strip(k.store.objects[n])
  {
    if c in k.calls && k.calls[c].pc.Strip? && ApiUpdate(k.store, k.calls[c].pc.record.(finalizers := [])).Some? {
      assert PcSound(k.uuids, k.store.history, k.calls[c].pc);
      FinalizerStrip(k.store, k.calls[c].pc.record);
    }
  }

  lemma WriteStatusStore(w: World, c: nat, seen: Option<Record>, ip: string, outcome: Outcome)
    requires Sound(w.ctl)
    ensures StoreStep(w.ctl.store, DoWriteStatus(w, c, seen, ip, outcome).ctl.store)
    ensures w.ctl.store.objects.Keys <= DoWriteStatus(w, c, seen, ip, outcome).ctl.store.objects.Keys
  {
    hide Sound, ApiUpdate;
    if CanWrite(w, c, seen) && StatusUpdate(w, c, seen, ip, outcome).Some? {
      assert ValidStore(w.ctl.store) by { SoundStore(w.ctl); }
      WriteStatusShape(w, c, seen, ip, outcome);
      assert PutAllowed(w.ctl.store, seen.value.(status := StatusToWrite(w.nodes.calls[c], ip)));
    }
  }

  lemma SoundStore(k: Control)
    requires Sound(k)
    ensures ValidStore(k.store)
  {
  }

  /** Only a finalizer strip on the stored version itself takes a record away. */
  ghost predicate TakesRecord(w: World, s: Step, name: string)
    requires name in w.ctl.store.objects
  {
    && s.ByControl? && s.s.StripFinalizer? && s.s.c in w.ctl.calls
    && w.ctl.calls[s.s.c].pc == Strip(w.ctl.store.objects[name])
  }

  lemma NextStore(w: World, s: Step)
    requires Sound(w.ctl)
    ensures StoreStep(w.ctl.store, Next(w, s).ctl.store)
    ensures forall n | n in w.ctl.store.objects && n !in Next(w, s).ctl.store.objects :: TakesRecord(w, s, n)
    ensures Next(w, s).ctl.classes == w.ctl.classes
  {
    hide Sound, StoreStep, DoBeginCreate, DoMakeImage, DoReserve, DoPostRecord, DoRelease, DoRollback,
         DoBeginDelete, DoReadForDelete, DoDropImage, DoMarkDeleted, DoReconcile, DoStripFinalizer, DoCrash,
         DoBeginNode, DoReadForNode, DoConnect, DoCheckTarget, DoMount, DoUndo, DoUnmount, DoRemoveTarget,
         DoDetach;
    StoreStands(w.ctl.store);
    match s {
      case ByControl(PostRecord(c, outcome)) => PostRecordStore(w.ctl, c, outcome);
      case ByControl(MarkDeleted(c, seen, outcome)) => MarkDeletedStore(w.ctl, c, seen, outcome);
      case ByControl(StripFinalizer(c, outcome)) => StripStore(w.ctl, c, outcome);
      case ByNode(WriteStatus(c, seen, ip, outcome)) => WriteStatusStore(w, c, seen, ip, outcome);
      case _ =>
    }
  }

  lemma StoreStands(s: Store)
    ensures StoreStep(s, s)
  {
  }

  /** Which steps may take an image, and only while nobody watches it. */
  ghost predicate MayTakeImage(w: World, s: Step, id: ImageId) {
    && s.ByControl?
    && ((s.s.Rollback? && RollbackTakes(w.ctl, w.nodes.links, s.s.c, s.s.attempt, id))
        || (s.s.DropImage? && DropTakes(w.ctl, w.nodes.links, s.s.c, s.s.attempt, id)))
  }

  lemma NextImages(w: World, s: Step)
    ensures forall id | id in w.ctl.images && id !in Next(w, s).ctl.images :: MayTakeImage(w, s, id)
  {
    hide DoBeginCreate, DoMakeImage, DoReserve, DoPostRecord, DoRelease, DoRollback,
         DoBeginDelete, DoReadForDelete, DoDropImage, DoMarkDeleted, DoReconcile, DoStripFinalizer, DoCrash,
         DoBeginNode, DoReadForNode, DoConnect, DoCheckTarget, DoMount, DoUndo, DoUnmount, DoRemoveTarget,
         DoDetach, RollbackTakes, DropTakes;
  }

  // ---------------------------------------------------------------- without any hypothesis

  /** A record disappears only when its stored version is terminating and names no node. */
  lemma RecordLeavesUnheld(classes: Classes, steps: seq<Step>, s: Step, name: string)
    requires name in After(classes, steps).store.objects
    requires name !in Next(Run(Init(classes), steps), s).ctl.store.objects
    ensures var o := After(classes, steps).store.objects[name];
            && o.deleting && o.status.node == ""
            && s.ByControl? && s.s.StripFinalizer? && s.s.c in After(classes, steps).calls
            && After(classes, steps).calls[s.s.c].pc == Strip(o)
  {
    hide Next, Run;
    RunSound(classes, steps);
    NextStore(Run(Init(classes), steps), s);
    assert PcSound(After(classes, steps).uuids, After(classes, steps).store.history, After(classes, steps).calls[s.s.c].pc);
  }

  /** In every process a uuid leads to the name it was generated for, so no two indexes disagree. */
  lemma IndexesAgree(classes: Classes, steps: seq<Step>, p: string, q: string, uuid: string)
    requires uuid in IndexOf(After(classes, steps), p) && uuid in IndexOf(After(classes, steps), q)
    ensures IndexOf(After(classes, steps), p)[uuid] == IndexOf(After(classes, steps), q)[uuid]
  {
    RunSound(classes, steps);
  }

  /** Stored versions are never forgotten, and new ones are newer than all of them. */
  ghost predicate Extends(s: Store, s': Store) {
    && s.history <= s'.history && s.revision <= s'.revision
    && forall o | o in s'.history && o !in s.history :: o.version > s.revision
  }

  lemma StepExtends(w: World, s: Step)
    requires Sound(w.ctl)
    ensures Extends(w.ctl.store, Next(w, s).ctl.store)
  {
    hide Next;
    NextStore(w, s);
  }

  lemma {:induction false} RunExtends(w: World, steps: seq<Step>)
    requires Sound(w.ctl)
    ensures Sound(Run(w, steps).ctl) && Extends(w.ctl.store, Run(w, steps).ctl.store)
  {
    if steps != [] {
      var n := |steps| - 1;
      RunExtends(w, steps[..n]);
      NextSound(Run(w, steps[..n]), steps[n]);
      StepExtends(Run(w, steps[..n]), steps[n]);
    }
  }

  /**
   A compare-and-swap that lost stays lost: whatever happens next, trying again with the same copy
   fails. The retries around the code's updates, which never read again, are therefore one attempt.
   */
  lemma RetryIsFutile(w: World, steps: seq<Step>, base: Record, o: Record)
    requires Sound(w.ctl) && base in w.ctl.store.history
    requires o.name == base.name && o.version == base.version
    requires ApiUpdate(w.ctl.store, o).None?
    ensures ApiUpdate(Run(w, steps).ctl.store, o).None?
  {
    RunExtends(w, steps);
    var s, s' := w.ctl.store, Run(w, steps).ctl.store;
    if o.name in s'.objects && s'.objects[o.name].version == o.version {
      assert s'.objects[o.name] in s'.history && base in s'.history;
      NoReturn(w, steps, base);
    }
  }

  /** A version that is not the stored one never becomes it again. */
  lemma {:induction false} NoReturn(w: World, steps: seq<Step>, base: Record)
    requires Sound(w.ctl) && base in w.ctl.store.history
    requires base.name in w.ctl.store.objects ==> w.ctl.store.objects[base.name] != base
    ensures var s' := Run(w, steps).ctl.store;
            base.name in s'.objects ==> s'.objects[base.name] != base
  {
    if steps != [] {
      var n := |steps| - 1;
      NoReturn(w, steps[..n], base);
      RunExtends(w, steps[..n]);
      StaysReplaced(Run(w, steps[..n]), steps[n], base);
    }
  }

  lemma StaysReplaced(w: World, s: Step, base: Record)
    requires Sound(w.ctl) && base in w.ctl.store.history
    requires base.name in w.ctl.store.objects ==> w.ctl.store.objects[base.name] != base
    ensures var s' := Next(w, s).ctl.store;
            base.name in s'.objects ==> s'.objects[base.name] != base
  {
    hide Next;
    NextStore(w, s);
  }

  // ---------------------------------------------------------------- in permitted runs

  /** Successful CreateVolume answers for one name carry one id, and at least the bytes asked for. */
  lemma OneIdPerName(classes: Classes, steps: seq<Step>, a: Answer, b: Answer)
    requires Permitted(classes, steps)
    requires a in After(classes, steps).answers && b in After(classes, steps).answers && a.name == b.name
    ensures a.uuid == b.uuid && a.capacity == b.capacity && a.required <= a.capacity
  {
    RunOrderly(classes, steps);
    var k := After(classes, steps);
    assert AnswerSound(k.store.history, a) && AnswerSound(k.store.history, b);
  }

  /** Looking up an id that was answered finds nothing, or a record of that very id. */
  lemma LookupFindsTheVolume(classes: Classes, steps: seq<Step>, a: Answer, proc: string, seen: Record)
    requires Permitted(classes, steps) && a in After(classes, steps).answers
    requires a.uuid in IndexOf(After(classes, steps), proc)
    requires MayRead(After(classes, steps).store, IndexOf(After(classes, steps), proc)[a.uuid], Some(seen))
    ensures seen.spec.uuid == a.uuid && seen.name == a.name
  {
    RunOrderly(classes, steps);
    var k := After(classes, steps);
    assert AnswerSound(k.store.history, a);
    var o :| o in k.store.history && o.name == a.name && o.spec.uuid == a.uuid && o.spec.capacity == a.capacity;
    assert SpecSound(k.uuids, o.name, o.spec);
  }

  /** A record's spec is the same in every version that is ever stored, before or after. */
  lemma SpecForLife(classes: Classes, steps: seq<Step>, more: seq<Step>, o: Record, o': Record)
    requires Permitted(classes, steps + more)
    requires o in After(classes, steps).store.history && o' in After(classes, steps + more).store.history
    requires o.name == o'.name
    ensures o.spec == o'.spec
  {
    RunOrderly(classes, steps + more);
    RunSound(classes, steps);
    RunAppend(Init(classes), steps, more);
    RunExtends(Run(Init(classes), steps), more);
  }

  lemma {:induction false} RunAppend(w: World, a: seq<Step>, b: seq<Step>)
    ensures Run(w, a + b) == Run(Run(w, a), b)
  {
    hide Next;
    if b == [] {
      assert a + b == a;
    } else {
      var n := |b| - 1;
      assert (a + b)[..|a| + n] == a + b[..n] && (a + b)[|a| + n] == b[n];
      RunAppend(w, a, b[..n]);
    }
  }

  /**
   Every image belongs to the create call that made it, in flight or ended without its image, or
   to the stored record of that call.
   */
  lemma EveryImageHasAnOwner(classes: Classes, steps: seq<Step>, id: ImageId)
    requires Permitted(classes, steps) && id in After(classes, steps).images
    ensures var k := After(classes, steps);
            var made := k.images[id];
            || (made.maker in k.calls && OwnsImage(k.calls[made.maker].pc)
                && IdOf(k.calls[made.maker].pc.spec) == id && k.calls[made.maker].pc.spec.uuid == made.uuid)
            || (id.image in k.store.objects && IdOf(k.store.objects[id.image].spec) == id
                && k.store.objects[id.image].spec.uuid == made.uuid)
  {
    RunOrderly(classes, steps);
    var k := After(classes, steps);
    assert ImageOwned(k, id);
    if k.images[id].maker in k.calls {
      assert PcOrderly(k, k.images[id].maker, k.calls[k.images[id].maker].pc);
    }
  }

  /**
   Every stored record has the image that was made for it, unless a DeleteVolume removed it; a
   terminating record never has one. The image covers the capacity, by less than one MiB too much.
   */
  lemma EveryRecordHasItsImage(classes: Classes, steps: seq<Step>, name: string)
    requires Permitted(classes, steps) && name in After(classes, steps).store.objects
    ensures var k := After(classes, steps);
            var o := k.store.objects[name];
            && (IdOf(o.spec) in k.images || o.spec.uuid in k.dropped)
            && (o.deleting ==> IdOf(o.spec) !in k.images)
            && o.spec.capacity > 0 && o.spec.image == name
            && (IdOf(o.spec) in k.images ==>
                  && k.images[IdOf(o.spec)].uuid == o.spec.uuid
                  && o.spec.capacity <= k.images[IdOf(o.spec)].mib * 1048576 < o.spec.capacity + 1048576)
  {
    RunOrderly(classes, steps);
    var k := After(classes, steps);
    var o := k.store.objects[name];
    assert o in k.store.history && RecordOrderly(k, o) && SpecSound(k.uuids, o.name, o.spec);
    MibCovers(o.spec.capacity);
  }

  /**
   A stored record loses its image to nothing but the image step of a DeleteVolume that read this
   record: no rollback of any create, no crash and no node can take it.
   */
  lemma OnlyDeleteTakesARecordsImage(classes: Classes, steps: seq<Step>, s: Step, name: string)
    requires Permitted(classes, steps) && Lawful(Run(Init(classes), steps), s)
    requires name in After(classes, steps).store.objects
    requires IdOf(After(classes, steps).store.objects[name].spec) in After(classes, steps).images
    requires IdOf(After(classes, steps).store.objects[name].spec) !in Next(Run(Init(classes), steps), s).ctl.images
    ensures s.ByControl? && s.s.DropImage?
    ensures var k := After(classes, steps);
            && k.calls[s.s.c].pc.DeleteImage?
            && k.calls[s.s.c].pc.record.name == name
            && k.calls[s.s.c].pc.record.spec == k.store.objects[name].spec
  {
    hide Next, Run;
    RunOrderly(classes, steps);
    var w := Run(Init(classes), steps);
    var o := w.ctl.store.objects[name];
    NextImages(w, s);
    RecordKnown(w.ctl, name);
    var c, a := s.s.c, s.s.attempt;
    if s.s.Rollback? {
      OwnerKnown(w.ctl, c);
      ResolvesDeclared(w.ctl.classes, w.ctl.calls[c].pc.spec.rbdSc, a);
      RecordImageNotCarried(w.ctl, o, c);
    } else {
      DropAddressesRecord(w.ctl, c, a);
      assert PcSound(w.ctl.uuids, w.ctl.store.history, w.ctl.calls[c].pc);
      assert SpecSound(w.ctl.uuids, w.ctl.calls[c].pc.record.name, w.ctl.calls[c].pc.record.spec);
    }
  }

  lemma RecordKnown(k: Control, name: string)
    requires Sound(k) && Orderly(k) && name in k.store.objects
    ensures var o := k.store.objects[name];
            o in k.store.history && RecordOrderly(k, o) && SpecSound(k.uuids, name, o.spec) && o.name == name
  {
  }

  lemma OwnerKnown(k: Control, c: nat)
    requires Sound(k) && Orderly(k) && c in k.calls && OwnsImage(k.calls[c].pc)
    ensures var pc := k.calls[c].pc;
            PcOrderly(k, c, pc) && SpecSound(k.uuids, pc.name, pc.spec) && SpecDeclared(k.classes, pc.spec)
  {
    assert PcOrderly(k, c, k.calls[c].pc) && PcSound(k.uuids, k.store.history, k.calls[c].pc);
  }

  /** A rollback removes at most the image that this very call made, and no record has its uuid. */
  lemma RollbackTakesItsOwn(k: Control, links: set<Attachment>, c: nat, a: Attempt)
    requires Sound(k) && Orderly(k) && c in k.calls && k.calls[c].pc.CreateRollback?
    ensures var own := IdOf(k.calls[c].pc.spec);
            var images := DoRollback(k, links, c, a).images;
            && (images == k.images || images == k.images - {own})
            && own in k.images && k.images[own].maker == c
            && forall o | o in k.store.history :: o.spec.uuid != k.images[own].uuid
  {
    hide ResolvePool, Watched, Sound, ImageOwned, RecordOrderly;
    var pc := k.calls[c].pc;
    OwnerKnown(k, c);
    if ResolvePool(k.classes, pc.spec.rbdSc, a).Some? {
      ResolvesDeclared(k.classes, pc.spec.rbdSc, a);
    }
  }

  lemma RunRollbackTakesItsOwn(classes: Classes, steps: seq<Step>, c: nat, a: Attempt)
    requires Permitted(classes, steps)
    requires c in After(classes, steps).calls && After(classes, steps).calls[c].pc.CreateRollback?
    ensures var w := Run(Init(classes), steps);
            var own := IdOf(w.ctl.calls[c].pc.spec);
            var w' := Next(w, ByControl(Rollback(c, a)));
            && (w'.ctl.images == w.ctl.images || w'.ctl.images == w.ctl.images - {own})
            && own in w.ctl.images && w.ctl.images[own].maker == c
            && forall o | o in w.ctl.store.history :: o.spec.uuid != w.ctl.images[own].uuid
  {
    hide Run, DoRollback, Orderly, Sound;
    RunOrderly(classes, steps);
    RollbackTakesItsOwn(After(classes, steps), Run(Init(classes), steps).nodes.links, c, a);
  }

  /**
   Every later parse of the class, whatever its order and lookups, that succeeds leads to the image
   that the record names: a delete addresses exactly what the create made.
   */
  lemma ReparseAddressesTheRecord(classes: Classes, steps: seq<Step>, o: Record, a: Attempt)
    requires Permitted(classes, steps) && o in After(classes, steps).store.history
    requires ResolvePool(classes, o.spec.rbdSc, a).Some?
    ensures ImageId(ResolvePool(classes, o.spec.rbdSc, a).value, o.name) == IdOf(o.spec)
  {
    RunOrderly(classes, steps);
    RunKeepsClasses(classes, steps);
    var k := After(classes, steps);
    assert RecordOrderly(k, o) && SpecSound(k.uuids, o.name, o.spec);
    ResolvesDeclared(classes, o.spec.rbdSc, a);
  }

  lemma {:induction false} RunKeepsClasses(classes: Classes, steps: seq<Step>)
    ensures After(classes, steps).classes == classes
  {
    hide Next;
    if steps != [] {
      var n := |steps| - 1;
      RunSound(classes, steps[..n]);
      RunKeepsClasses(classes, steps[..n]);
      NextStore(Run(Init(classes), steps[..n]), steps[n]);
    }
  }

  // ---------------------------------------------------------------- images left behind

  predicate LeftBehind(k: Control, c: nat) {
    c in k.calls && k.calls[c].pc.Leaked?
  }

  /** A call that left its image behind stays where it is. */
  ghost predicate KeepsLeak(k: Control, k': Control, c: nat) {
    LeftBehind(k, c) ==> c in k'.calls && k'.calls[c].pc == k.calls[c].pc
  }

  lemma CreatingKeepsLeak(k: Control, c: nat)
    ensures forall d, proc, name, required, sc, seen, labelled, uuid ::
              KeepsLeak(k, DoBeginCreate(k, d, proc, name, required, sc, seen, labelled, uuid), c)
    ensures forall d, a :: KeepsLeak(k, DoMakeImage(k, d, a), c)
    ensures forall d :: KeepsLeak(k, DoReserve(k, d), c)
    ensures forall d, outcome :: KeepsLeak(k, DoPostRecord(k, d, outcome), c)
  {
    hide ResolvePool, MayRead, MibFor, ReserveUuid, ApiCreate;
  }

  lemma UndoingKeepsLeak(k: Control, links: set<Attachment>, c: nat)
    ensures forall d :: KeepsLeak(k, DoRelease(k, d), c)
    ensures forall d, a :: KeepsLeak(k, DoRollback(k, links, d, a), c)
    ensures forall proc :: KeepsLeak(k, DoCrash(k, proc), c)
  {
    hide ResolvePool, RemoveImage;
  }

  lemma DeletingKeepsLeak(k: Control, links: set<Attachment>, c: nat)
    ensures forall d, proc, uuid :: KeepsLeak(k, DoBeginDelete(k, d, proc, uuid), c)
    ensures forall d, seen :: KeepsLeak(k, DoReadForDelete(k, d, seen), c)
    ensures forall d, a :: KeepsLeak(k, DoDropImage(k, links, d, a), c)
    ensures forall d, seen, outcome :: KeepsLeak(k, DoMarkDeleted(k, d, seen, outcome), c)
  {
    hide ResolvePool, RemoveImage, MayRead, ApiDelete, Lookup;
  }

  lemma ReconcilingKeepsLeak(k: Control, c: nat)
    ensures forall d, proc, name, seen :: KeepsLeak(k, DoReconcile(k, d, proc, name, seen), c)
    ensures forall d, outcome :: KeepsLeak(k, DoStripFinalizer(k, d, outcome), c)
  {
    hide MayRead, ReserveUuid, ApiUpdate;
  }

  lemma ControlKeepsLeak(k: Control, links: set<Attachment>, s: ControlStep, c: nat)
    ensures KeepsLeak(k, NextControl(k, links, s), c)
  {
    hide KeepsLeak, DoBeginCreate, DoMakeImage, DoReserve, DoPostRecord, DoRelease, DoRollback,
         DoBeginDelete, DoReadForDelete, DoDropImage, DoMarkDeleted, DoReconcile, DoStripFinalizer, DoCrash;
    CreatingKeepsLeak(k, c);
    UndoingKeepsLeak(k, links, c);
    DeletingKeepsLeak(k, links, c);
    ReconcilingKeepsLeak(k, c);
  }

  lemma StepKeepsLeak(w: World, s: Step, c: nat)
    ensures KeepsLeak(w.ctl, Next(w, s).ctl, c)
  {
    hide NextControl, MayRead, StatusUpdate, CanWrite, DoBeginNode, DoReadForNode, DoConnect, DoCheckTarget, DoMount,
         DoUndo, DoUnmount, DoRemoveTarget, DoDetach;
    if s.ByControl? {
      ControlKeepsLeak(w.ctl, w.nodes.links, s.s, c);
    }
  }

  lemma {:induction false} LeakStays(w: World, more: seq<Step>, c: nat)
    requires LeftBehind(w.ctl, c)
    ensures c in Run(w, more).ctl.calls && Run(w, more).ctl.calls[c].pc == w.ctl.calls[c].pc
  {
    hide Next;
    if more != [] {
      var n := |more| - 1;
      LeakStays(w, more[..n], c);
      StepKeepsLeak(Run(w, more[..n]), more[n], c);
    }
  }

  /**
   An image that a create call left behind is there for ever and blocks its name: whatever happens
   afterwards, the image exists, no record names it, and every create of that name in that class
   fails at its image step.
   */
  lemma LeakBlocksTheName(classes: Classes, steps: seq<Step>, more: seq<Step>, c: nat, d: nat, a: Attempt)
    requires Permitted(classes, steps + more) && LeftBehind(After(classes, steps), c)
    ensures var spec := After(classes, steps).calls[c].pc.spec;
            var k := After(classes, steps + more);
            && IdOf(spec) in k.images
            && (forall o | o in k.store.history :: IdOf(o.spec) != IdOf(spec))
            && (d in k.calls && k.calls[d].pc.CreateImage?
                && k.calls[d].pc.name == After(classes, steps).calls[c].pc.name && k.calls[d].pc.sc == spec.rbdSc ==>
                  DoMakeImage(k, d, a) == Goto(k, d, Finished(false)))
  {
    hide Next, Run, Sound, Orderly, ResolvePool, MibFor, DeclaredPool, ClassesAgree;
    RunOrderly(classes, steps + more);
    RunAppend(Init(classes), steps, more);
    LeakStays(Run(Init(classes), steps), more, c);
    var k := After(classes, steps + more);
    OwnerKnown(k, c);
    forall o | o in k.store.history { RecordImageNotCarried(k, o, c); }
    var pc := k.calls[c].pc;
    if ResolvePool(k.classes, pc.spec.rbdSc, a).Some? {
      AgreeingClasses(k);
      ResolvesDeclared(k.classes, pc.spec.rbdSc, a);
    }
  }

  lemma AgreeingClasses(k: Control)
    requires Orderly(k)
    ensures ClassesAgree(k.classes)
  {
  }
}
