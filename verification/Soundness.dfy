/**
 What every step keeps without any hypothesis: interleaving, stale reads, failures, lost replies,
 crashes and name reuse included. Identities are consistent across records, calls, indexes and
 answers, and a call that strips a finalizer holds a version that was safe to remove.
 */
module Soundness {
  import opened Records
  import opened StorageClass
  import opened Lifecycle

  /** `spec` was written for `name` by the create call that generated its uuid. */
  ghost predicate SpecSound(uuids: map<string, string>, name: string, spec: Spec) {
    && spec.uuid in uuids && uuids[spec.uuid] == name
    && spec.image == name && name != "" && spec.capacity > 0
  }

  ghost predicate PcSound(uuids: map<string, string>, history: set<Record>, pc: Pc) {
    match pc
    case CreateImage(name, _, _, uuid) => uuid in uuids && uuids[uuid] == name && name != ""
    case CreateReserve(name, spec) => SpecSound(uuids, name, spec)
    case CreateRecord(name, spec) => SpecSound(uuids, name, spec)
    case CreateRelease(name, spec) => SpecSound(uuids, name, spec)
    case CreateRollback(name, spec) => SpecSound(uuids, name, spec)
    case Leaked(name, spec) => SpecSound(uuids, name, spec)
    case DeleteRead(uuid, name) => uuid in uuids && uuids[uuid] == name
    case DeleteImage(r) => r in history
    case DeleteMark(r) => r in history
    case Strip(r) => r in history && r.deleting && r.status.node == ""
    case Created(_, _) => true
    case Finished(_) => true
  }

  ghost predicate IndexSound(uuids: map<string, string>, idx: Index) {
    forall u | u in idx :: u in uuids && uuids[u] == idx[u]
  }

  /** The answer repeats what some stored version of the record said. */
  ghost predicate AnswerSound(history: set<Record>, a: Answer) {
    && a.required <= a.capacity
    && exists o :: o in history && o.name == a.name && o.spec.uuid == a.uuid && o.spec.capacity == a.capacity
  }

  ghost predicate Sound(k: Control) {
    && ValidStore(k.store)
    && (forall o | o in k.store.history :: SpecSound(k.uuids, o.name, o.spec))
    && (forall c | c in k.calls :: PcSound(k.uuids, k.store.history, k.calls[c].pc))
    && (forall p | p in k.index :: IndexSound(k.uuids, k.index[p]))
    && (forall a | a in k.answers :: AnswerSound(k.store.history, a))
  }

  lemma InitSound(classes: map<string, map<string, string>>)
    ensures Sound(Init(classes).ctl)
  {
  }

  /** Storing a version that keeps its record's name and spec, while one call moves on. */
  lemma PutSound(k: Control, o: Record, k': Control)
    requires Sound(k) && SpecSound(k.uuids, o.name, o.spec) && o.finalizers == FINALIZERS
    requires k' == k.(store := Put(k.store, o))
    ensures Sound(k')
  {
    PutKeepsValid(k.store, o);
    forall a | a in k'.answers ensures AnswerSound(k'.store.history, a) {
      var w :| w in k.store.history && w.name == a.name && w.spec.uuid == a.uuid && w.spec.capacity == a.capacity;
      assert w in k'.store.history;
    }
    forall c | c in k'.calls ensures PcSound(k'.uuids, k'.store.history, k'.calls[c].pc) {
      assert PcSound(k.uuids, k.store.history, k.calls[c].pc);
    }
  }

  lemma CallSound(k: Control, c: nat, call: Call)
    requires Sound(k) && PcSound(k.uuids, k.store.history, call.pc)
    ensures Sound(k.(calls := k.calls[c := call]))
  {
  }

  lemma GotoSound(k: Control, c: nat, pc: Pc)
    requires Sound(k) && c in k.calls && PcSound(k.uuids, k.store.history, pc)
    ensures Sound(Goto(k, c, pc))
  {
    CallSound(k, c, k.calls[c].(pc := pc));
  }

  /** Images and the memory of deletions have no part in soundness. */
  lemma ImagesSound(k: Control, images: map<ImageId, Image>, dropped: set<string>, retired: set<string>)
    requires Sound(k)
    ensures Sound(k.(images := images, dropped := dropped, retired := retired))
  {
  }

  lemma FreshUuidSound(k: Control, uuid: string, name: string)
    requires Sound(k) && uuid !in k.uuids
    ensures Sound(k.(uuids := k.uuids[uuid := name]))
  {
    var k' := k.(uuids := k.uuids[uuid := name]);
    forall c | c in k'.calls ensures PcSound(k'.uuids, k'.store.history, k'.calls[c].pc) {
      assert PcSound(k.uuids, k.store.history, k.calls[c].pc);
    }
  }

  lemma BeginCreateSound(k: Control, c: nat, proc: string, name: string, required: int, sc: Option<string>,
                         seen: Option<Record>, labelled: bool, uuid: string)
    requires Sound(k)
    ensures Sound(DoBeginCreate(k, c, proc, name, required, sc, seen, labelled, uuid))
  {
    if c in k.calls || name == "" || !MayRead(k.store, name, seen) {
    } else if seen.Some? {
      var spec := seen.value.spec;
      if spec.capacity < required {
        CallSound(k, c, Call(proc, Finished(false)));
      } else {
        var answer := Answer(name, required, spec.uuid, spec.capacity);
        assert AnswerSound(k.store.history, answer);
        CallSound(k.(answers := k.answers + {answer}), c, Call(proc, Created(spec.uuid, spec.capacity)));
      }
    } else if !labelled {
      CallSound(k, c, Call(proc, Finished(false)));
    } else if uuid !in k.uuids {
      FreshUuidSound(k, uuid, name);
      CallSound(k.(uuids := k.uuids[uuid := name]), c,
                Call(proc, if sc.Some? then CreateImage(name, required, sc.value, uuid) else Finished(false)));
    }
  }

  lemma MakeImageSound(k: Control, c: nat, a: Attempt)
    requires Sound(k)
    ensures Sound(DoMakeImage(k, c, a))
  {
    if c in k.calls && k.calls[c].pc.CreateImage? {
      var pc := k.calls[c].pc;
      assert PcSound(k.uuids, k.store.history, pc);
      MibCovers(pc.capacity);
      var k' := DoMakeImage(k, c, a);
      ImagesSound(k, k'.images, k.dropped, k.retired);
      GotoSound(k.(images := k'.images), c, k'.calls[c].pc);
    }
  }

  lemma IndexStaysSound(k: Control, proc: string, idx: Index)
    requires Sound(k) && IndexSound(k.uuids, idx)
    ensures Sound(WithIndex(k, proc, idx))
  {
  }

  lemma ReserveSound(k: Control, c: nat)
    requires Sound(k)
    ensures Sound(DoReserve(k, c))
  {
    if c in k.calls && k.calls[c].pc.CreateReserve? {
      var Call(proc, pc) := k.calls[c];
      assert PcSound(k.uuids, k.store.history, pc);
      match ReserveUuid(IndexOf(k, proc), pc.spec.uuid, pc.name)
      case Some(idx) =>
        GotoSound(k, c, CreateRecord(pc.name, pc.spec));
        IndexStaysSound(Goto(k, c, CreateRecord(pc.name, pc.spec)), proc, idx);
      case None => GotoSound(k, c, CreateRollback(pc.name, pc.spec));
    }
  }

  lemma PostRecordSound(k: Control, c: nat, outcome: Outcome)
    requires Sound(k)
    ensures Sound(DoPostRecord(k, c, outcome))
  {
    if c in k.calls && k.calls[c].pc.CreateRecord? {
      var pc := k.calls[c].pc;
      assert PcSound(k.uuids, k.store.history, pc);
      if ApiCreate(k.store, pc.name, pc.spec).None? || outcome.Refused? {
        GotoSound(k, c, CreateRelease(pc.name, pc.spec));
      } else {
        var o := Record(pc.name, 0, pc.spec, EMPTY_STATUS, FINALIZERS, false);
        var k1 := k.(store := Put(k.store, o));
        PutSound(k, o, k1);
        if outcome.Lost? {
          GotoSound(k1, c, CreateRelease(pc.name, pc.spec));
        } else {
          var answer := Answer(pc.name, pc.spec.capacity, pc.spec.uuid, pc.spec.capacity);
          assert o.(version := k.store.revision + 1) in k1.store.history;
          assert AnswerSound(k1.store.history, answer);
          GotoSound(k1.(answers := k1.answers + {answer}), c, Created(pc.spec.uuid, pc.spec.capacity));
        }
      }
    }
  }

  lemma ReleaseSound(k: Control, c: nat)
    requires Sound(k)
    ensures Sound(DoRelease(k, c))
  {
    if c in k.calls && k.calls[c].pc.CreateRelease? {
      var Call(proc, pc) := k.calls[c];
      assert PcSound(k.uuids, k.store.history, pc);
      GotoSound(k, c, CreateRollback(pc.name, pc.spec));
      IndexStaysSound(Goto(k, c, CreateRollback(pc.name, pc.spec)), proc, IndexOf(k, proc) - {pc.spec.uuid});
    }
  }

  lemma RollbackSound(k: Control, links: set<Attachment>, c: nat, a: Attempt)
    requires Sound(k)
    ensures Sound(DoRollback(k, links, c, a))
  {
    if c in k.calls && k.calls[c].pc.CreateRollback? {
      assert PcSound(k.uuids, k.store.history, k.calls[c].pc);
      var k' := DoRollback(k, links, c, a);
      ImagesSound(k, k'.images, k.dropped, k.retired);
      GotoSound(k.(images := k'.images), c, k'.calls[c].pc);
    }
  }

  lemma BeginDeleteSound(k: Control, c: nat, proc: string, uuid: string)
    requires Sound(k)
    ensures Sound(DoBeginDelete(k, c, proc, uuid))
  {
    if c !in k.calls {
      CallSound(k, c, DoBeginDelete(k, c, proc, uuid).calls[c]);
    }
  }

  lemma ReadForDeleteSound(k: Control, c: nat, seen: Option<Record>)
    requires Sound(k)
    ensures Sound(DoReadForDelete(k, c, seen))
  {
    if c in k.calls && k.calls[c].pc.DeleteRead? && MayRead(k.store, k.calls[c].pc.name, seen) {
      var k' := DoReadForDelete(k, c, seen);
      ImagesSound(k, k.images, k.dropped, k'.retired);
      GotoSound(k.(retired := k'.retired), c, k'.calls[c].pc);
    }
  }

  lemma DropImageSound(k: Control, links: set<Attachment>, c: nat, a: Attempt)
    requires Sound(k)
    ensures Sound(DoDropImage(k, links, c, a))
  {
    hide ResolvePool, Watched, SpecSound, AnswerSound, IndexSound;
    if c in k.calls && k.calls[c].pc.DeleteImage? {
      assert PcSound(k.uuids, k.store.history, k.calls[c].pc);
      var k' := DoDropImage(k, links, c, a);
      ImagesSound(k, k'.images, k'.dropped, k.retired);
      GotoSound(k.(images := k'.images, dropped := k'.dropped), c, k'.calls[c].pc);
    }
  }

  lemma MarkDeletedSound(k: Control, c: nat, seen: Option<Record>, outcome: Outcome)
    requires Sound(k)
    ensures Sound(DoMarkDeleted(k, c, seen, outcome))
  {
    hide ApiDelete, MayRead, SpecSound, AnswerSound, IndexSound;
    if c in k.calls && k.calls[c].pc.DeleteMark? {
      var name := k.calls[c].pc.record.name;
      GotoSound(k, c, Finished(false));
      if ApiDelete(k.store, name).Some? {
        MarkSound(k, name);
        GotoSound(k.(store := ApiDelete(k.store, name).value), c, Finished(outcome.Done?));
      }
    }
  }

  lemma MarkSound(k: Control, name: string)
    requires Sound(k) && ApiDelete(k.store, name).Some?
    ensures Sound(k.(store := ApiDelete(k.store, name).value))
  {
    DeletionMark(k.store, name);
    var s' := ApiDelete(k.store, name).value;
    if s' != k.store {
      assert k.store.objects[name] in k.store.history;
      PutSound(k, k.store.objects[name].(deleting := true), k.(store := s'));
    }
  }

  lemma ReconcileSound(k: Control, c: nat, proc: string, name: string, seen: Option<Record>)
    requires Sound(k)
    ensures Sound(DoReconcile(k, c, proc, name, seen))
  {
    if c in k.calls || !MayRead(k.store, name, seen) || seen.None? {
    } else if seen.value.deleting {
      if seen.value.status.node == "" {
        CallSound(k, c, Call(proc, Strip(seen.value)));
      }
    } else {
      match ReserveUuid(IndexOf(k, proc), seen.value.spec.uuid, name)
      case Some(idx) => IndexStaysSound(k, proc, idx);
      case None =>
    }
  }

  lemma RemoveSound(k: Control, name: string)
    requires Sound(k) && ValidStore(Remove(k.store, name))
    ensures Sound(k.(store := Remove(k.store, name)))
  {
  }

  lemma StripSound(k: Control, c: nat, outcome: Outcome)
    requires Sound(k)
    ensures Sound(DoStripFinalizer(k, c, outcome))
  {
    hide SpecSound, AnswerSound, IndexSound;
    if c in k.calls && k.calls[c].pc.Strip? {
      var base := k.calls[c].pc.record;
      assert PcSound(k.uuids, k.store.history, k.calls[c].pc);
      GotoSound(k, c, Finished(false));
      if ApiUpdate(k.store, base.(finalizers := [])).Some? {
        FinalizerStrip(k.store, base);
        RemoveSound(k, base.name);
        GotoSound(k.(store := Remove(k.store, base.name)), c, Finished(true));
      }
    }
  }

  lemma CrashSound(k: Control, proc: string)
    requires Sound(k)
    ensures Sound(DoCrash(k, proc))
  {
    var k' := DoCrash(k, proc);
    forall c | c in k'.calls ensures PcSound(k'.uuids, k'.store.history, k'.calls[c].pc) {
      assert PcSound(k.uuids, k.store.history, k.calls[c].pc);
    }
  }

  lemma NextControlSound(k: Control, links: set<Attachment>, s: ControlStep)
    requires Sound(k)
    ensures Sound(NextControl(k, links, s))
  {
    hide Sound, DoBeginCreate, DoMakeImage, DoReserve, DoPostRecord, DoRelease, DoRollback,
         DoBeginDelete, DoReadForDelete, DoDropImage, DoMarkDeleted, DoReconcile, DoStripFinalizer, DoCrash;
    match s
    case BeginCreate(c, proc, name, required, sc, seen, labelled, uuid) =>
      BeginCreateSound(k, c, proc, name, required, sc, seen, labelled, uuid);
    case MakeImage(c, a) => MakeImageSound(k, c, a);
    case Reserve(c) => ReserveSound(k, c);
    case PostRecord(c, outcome) => PostRecordSound(k, c, outcome);
    case Release(c) => ReleaseSound(k, c);
    case Rollback(c, a) => RollbackSound(k, links, c, a);
    case BeginDelete(c, proc, uuid) => BeginDeleteSound(k, c, proc, uuid);
    case ReadForDelete(c, seen) => ReadForDeleteSound(k, c, seen);
    case DropImage(c, a) => DropImageSound(k, links, c, a);
    case MarkDeleted(c, seen, outcome) => MarkDeletedSound(k, c, seen, outcome);
    case Reconcile(c, proc, name, seen) => ReconcileSound(k, c, proc, name, seen);
    case StripFinalizer(c, outcome) => StripSound(k, c, outcome);
    case Crash(proc) => CrashSound(k, proc);
  }

  /** A node's status write stores the current record with another status, or nothing. */
  lemma WriteStatusShape(w: World, c: nat, seen: Option<Record>, ip: string, outcome: Outcome)
    requires ValidStore(w.ctl.store) && CanWrite(w, c, seen)
    requires StatusUpdate(w, c, seen, ip, outcome).Some?
    ensures var status := StatusToWrite(w.nodes.calls[c], ip);
            var s' := StatusUpdate(w, c, seen, ip, outcome).value;
            && seen.value.name in w.ctl.store.objects && w.ctl.store.objects[seen.value.name] == seen.value
            && ValidStore(s')
            && ((s' == w.ctl.store && seen.value.status == status)
                || s' == Put(w.ctl.store, seen.value.(status := status)))
  {
    StatusWrite(w.ctl.store, seen.value, StatusToWrite(w.nodes.calls[c], ip));
  }

  lemma WriteStatusSound(w: World, c: nat, seen: Option<Record>, ip: string, outcome: Outcome)
    requires Sound(w.ctl)
    ensures Sound(DoWriteStatus(w, c, seen, ip, outcome).ctl)
  {
    if CanWrite(w, c, seen) && StatusUpdate(w, c, seen, ip, outcome).Some? {
      WriteStatusShape(w, c, seen, ip, outcome);
      var s' := StatusUpdate(w, c, seen, ip, outcome).value;
      if s' != w.ctl.store {
        PutSound(w.ctl, seen.value.(status := StatusToWrite(w.nodes.calls[c], ip)), w.ctl.(store := s'));
      }
    }
  }

  lemma NextSound(w: World, s: Step)
    requires Sound(w.ctl)
    ensures Sound(Next(w, s).ctl)
  {
    hide Sound, NextControl, DoWriteStatus, DoCrash;
    match s
    case ByControl(cs) => NextControlSound(w.ctl, w.nodes.links, cs);
    case ByNode(WriteStatus(c, seen, ip, outcome)) => WriteStatusSound(w, c, seen, ip, outcome);
    case ByNode(NodeCrash(node)) => CrashSound(w.ctl, node);
    case ByNode(_) =>
  }

  lemma {:induction false} RunSound(classes: map<string, map<string, string>>, steps: seq<Step>)
    ensures Sound(Run(Init(classes), steps).ctl)
  {
    if steps == [] {
      InitSound(classes);
    } else {
      var n := |steps| - 1;
      RunSound(classes, steps[..n]);
      NextSound(Run(Init(classes), steps[..n]), steps[n]);
    }
  }
}
