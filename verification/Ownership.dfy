/**
 What holds over every run that follows three rules: the keys of a storage class that mean the
 pool agree, a name is not created again once a DeleteVolume has resolved it, and a failed record
 create means that no record was made. Every image then has an owner, and every record its image.
 */
module Ownership {
  import opened Records
  import opened StorageClass
  import opened Lifecycle
  import opened Soundness

  /** A create call for `name` that has not come to its end. */
  predicate ActiveOn(pc: Pc, name: string) {
    (pc.CreateImage? || pc.CreateReserve? || pc.CreateRecord? || pc.CreateRelease? || pc.CreateRollback?)
    && pc.name == name
  }

  predicate CreateActive(k: Control, name: string) {
    exists c :: c in k.calls && ActiveOn(k.calls[c].pc, name)
  }

  /**
   The hypotheses on a run, one step at a time: no create starts for a retired name, a name is
   retired only while no create for it is in flight, and record creates fail honestly.
   */
  predicate Rules(k: Control, s: ControlStep) {
    match s
    case BeginCreate(_, _, name, _, _, _, _, _) => name !in k.retired
    case ReadForDelete(c, seen) => seen.Some? ==> !CreateActive(k, seen.value.name)
    case PostRecord(_, outcome) => !outcome.Lost?
    case _ => true
  }

  ghost predicate ClassesAgree(classes: map<string, map<string, string>>) {
    forall sc | sc in classes :: PoolAgrees(classes[sc])
  }

  // ---------------------------------------------------------------- the invariant

  ghost predicate SpecDeclared(classes: map<string, map<string, string>>, spec: Spec) {
    spec.rbdSc in classes && spec.pool == DeclaredPool(classes[spec.rbdSc])
  }

  /** The record is terminating or gone. */
  predicate Ending(k: Control, o: Record) {
    o.deleting || o.name !in k.store.objects
  }

  ghost predicate RecordOrderly(k: Control, o: Record) {
    && SpecDeclared(k.classes, o.spec)
    && (Ending(k, o) ==> o.name in k.retired && IdOf(o.spec) !in k.images)
    && (IdOf(o.spec) in k.images ==>
          k.images[IdOf(o.spec)].uuid == o.spec.uuid && k.images[IdOf(o.spec)].mib == MibFor(o.spec.capacity))
    && (o.name in k.store.objects && IdOf(o.spec) !in k.images ==> o.spec.uuid in k.dropped)
  }

  ghost predicate RecordsOrderly(k: Control) {
    && ClassesAgree(k.classes)
    && (forall o | o in k.store.history :: RecordOrderly(k, o))
    && (forall o, o' | o in k.store.history && o' in k.store.history && o.name == o'.name :: o.spec == o'.spec)
    && (forall u | u in k.dropped :: u in k.uuids && k.uuids[u] in k.retired)
  }

  /** The uuid that belongs to a create call alone until its record exists. */
  function Carried(pc: Pc): Option<string> {
    if pc.CreateImage? then Some(pc.uuid)
    else if OwnsImage(pc) then Some(pc.spec.uuid)
    else None
  }

  ghost predicate PcOrderly(k: Control, c: nat, pc: Pc) {
    && (Carried(pc).Some? ==>
          && (forall o | o in k.store.history :: o.spec.uuid != Carried(pc).value)
          && (forall d | d in k.calls && d != c :: Carried(k.calls[d].pc) != Carried(pc)))
    && (forall n | ActiveOn(pc, n) :: n !in k.retired)
    && (OwnsImage(pc) ==>
          && SpecDeclared(k.classes, pc.spec)
          && IdOf(pc.spec) in k.images
          && k.images[IdOf(pc.spec)] == Image(MibFor(pc.spec.capacity), pc.spec.uuid, c))
    && (pc.DeleteImage? || pc.DeleteMark? ==> pc.record.name in k.retired)
    && (pc.DeleteMark? ==> IdOf(pc.record.spec) !in k.images)
  }

  /** The image belongs to the create call that made it, or to the record of that call. */
  ghost predicate ImageOwned(k: Control, id: ImageId)
    requires id in k.images
  {
    var m := k.images[id];
    || (m.maker in k.calls && OwnsImage(k.calls[m.maker].pc) && IdOf(k.calls[m.maker].pc.spec) == id)
    || (id.image in k.store.objects && IdOf(k.store.objects[id.image].spec) == id
        && k.store.objects[id.image].spec.uuid == m.uuid)
  }

  ghost predicate Orderly(k: Control) {
    && RecordsOrderly(k)
    && (forall c | c in k.calls :: PcOrderly(k, c, k.calls[c].pc))
    && (forall id | id in k.images :: ImageOwned(k, id))
  }

  lemma InitOrderly(classes: map<string, map<string, string>>)
    requires ClassesAgree(classes)
    ensures Orderly(Init(classes).ctl)
  {
  }

  // ---------------------------------------------------------------- building blocks

  /** An attempt at a class that agrees can only resolve to the declared pool. */
  lemma ResolvesDeclared(classes: map<string, map<string, string>>, sc: string, a: Attempt)
    requires ClassesAgree(classes) && ResolvePool(classes, sc, a).Some?
    ensures sc in classes && ResolvePool(classes, sc, a).value == DeclaredPool(classes[sc])
  {
    ParsedPoolIsDeclared(a.lookups, classes[sc], a.order);
  }

  /** A call moves to a state that is in order by itself, its image (if it had one) still owned. */
  lemma SetCall(k: Control, c: nat, call: Call)
    requires Orderly(k) && PcOrderly(k, c, call.pc)
    requires c in k.calls ==> Carried(call.pc).None? || Carried(call.pc) == Carried(k.calls[c].pc)
    requires c !in k.calls ==> !OwnsImage(call.pc)
    requires c in k.calls && OwnsImage(k.calls[c].pc) && IdOf(k.calls[c].pc.spec) in k.images ==>
               ImageOwned(k.(calls := k.calls[c := call]), IdOf(k.calls[c].pc.spec))
    ensures Orderly(k.(calls := k.calls[c := call]))
  {
    var k' := k.(calls := k.calls[c := call]);
    forall d | d in k'.calls ensures PcOrderly(k', d, k'.calls[d].pc) {
      if d != c {
        assert PcOrderly(k, d, k.calls[d].pc);
      }
    }
    forall o | o in k'.store.history ensures RecordOrderly(k', o) {
      assert RecordOrderly(k, o);
    }
    forall id | id in k'.images ensures ImageOwned(k', id) {
      assert ImageOwned(k, id);
    }
  }

  /** Moving on without an image to answer for. */
  lemma Move(k: Control, c: nat, pc: Pc)
    requires Orderly(k) && c in k.calls && !OwnsImage(k.calls[c].pc)
    requires Carried(pc).None? && PcOrderly(k, c, pc)
    ensures Orderly(Goto(k, c, pc))
  {
    SetCall(k, c, k.calls[c].(pc := pc));
  }

  lemma EndCall(k: Control, c: nat, ok: bool)
    requires Orderly(k) && c in k.calls && !OwnsImage(k.calls[c].pc)
    ensures Orderly(Goto(k, c, Finished(ok)))
  {
    Move(k, c, Finished(ok));
  }

  /** Moving on while answerable for the same image. */
  lemma MoveOwner(k: Control, c: nat, pc: Pc)
    requires Orderly(k) && c in k.calls && OwnsImage(k.calls[c].pc) && OwnsImage(pc)
    requires pc.spec == k.calls[c].pc.spec && pc.name == k.calls[c].pc.name
    requires pc.Leaked? || ActiveOn(k.calls[c].pc, pc.name)
    ensures Orderly(Goto(k, c, pc))
  {
    assert PcOrderly(k, c, k.calls[c].pc);
    SetCall(k, c, k.calls[c].(pc := pc));
  }

  lemma IndexOrderly(k: Control, proc: string, idx: Index)
    requires Orderly(k)
    ensures Orderly(WithIndex(k, proc, idx))
  {
    var k' := WithIndex(k, proc, idx);
    forall d | d in k'.calls ensures PcOrderly(k', d, k'.calls[d].pc) {
      assert PcOrderly(k, d, k.calls[d].pc);
    }
    forall o | o in k'.store.history ensures RecordOrderly(k', o) {
      assert RecordOrderly(k, o);
    }
    forall id | id in k'.images ensures ImageOwned(k', id) {
      assert ImageOwned(k, id);
    }
  }

  ghost predicate VersionMayFollow(k: Control, o: Record) {
    && o.name in k.store.objects && o.spec == k.store.objects[o.name].spec
    && (o.deleting ==> o.name in k.retired && IdOf(o.spec) !in k.images)
  }

  lemma NewVersionCalls(k: Control, o: Record, d: nat)
    requires Sound(k) && Orderly(k) && VersionMayFollow(k, o) && d in k.calls
    ensures PcOrderly(k.(store := Put(k.store, o)), d, k.calls[d].pc)
  {
    assert PcOrderly(k, d, k.calls[d].pc);
    assert k.store.objects[o.name] in k.store.history;
  }

  lemma NewVersionRecords(k: Control, o: Record)
    requires Sound(k) && Orderly(k) && VersionMayFollow(k, o)
    ensures RecordsOrderly(k.(store := Put(k.store, o)))
  {
    hide PcOrderly, ImageOwned, PcSound, SpecSound, MibFor, SpecDeclared;
    var k' := k.(store := Put(k.store, o));
    var cur := k.store.objects[o.name];
    assert cur in k.store.history && RecordOrderly(k, cur);
    forall r | r in k'.store.history ensures RecordOrderly(k', r) {
      if r in k.store.history {
        assert RecordOrderly(k, r);
      }
    }
  }

  lemma NewVersionImages(k: Control, o: Record, id: ImageId)
    requires Sound(k) && Orderly(k) && VersionMayFollow(k, o) && id in k.images
    ensures ImageOwned(k.(store := Put(k.store, o)), id)
  {
    assert ImageOwned(k, id);
  }

  /** A new version of a stored record, with its name and spec; terminating only if it may be. */
  lemma NewVersion(k: Control, o: Record)
    requires Sound(k) && Orderly(k) && VersionMayFollow(k, o)
    ensures Orderly(k.(store := Put(k.store, o)))
  {
    NewVersionRecords(k, o);
    forall d | d in k.calls { NewVersionCalls(k, o, d); }
    forall id | id in k.images { NewVersionImages(k, o, id); }
  }

  /** The image of a record in order was made for it, so no create call can be answerable for it. */
  lemma RecordImageNotCarried(k: Control, r: Record, c: nat)
    requires Orderly(k) && r in k.store.history && c in k.calls && OwnsImage(k.calls[c].pc)
    ensures IdOf(k.calls[c].pc.spec) != IdOf(r.spec)
  {
    assert PcOrderly(k, c, k.calls[c].pc) && RecordOrderly(k, r);
  }

  // ---------------------------------------------------------------- the steps of CreateVolume

  /** A call that appears already over, or about to be, with nothing of its own. */
  lemma PlainCall(k: Control, c: nat, call: Call)
    requires Orderly(k) && c !in k.calls && Over(call.pc) && !call.pc.Leaked?
    ensures Orderly(k.(calls := k.calls[c := call]))
  {
    SetCall(k, c, call);
  }

  lemma CreateBegins(k: Control, c: nat, proc: string, name: string, capacity: int, sc: string, uuid: string)
    requires Sound(k) && Orderly(k) && name !in k.retired && c !in k.calls && uuid !in k.uuids
    ensures Orderly(k.(uuids := k.uuids[uuid := name],
                       calls := k.calls[c := Call(proc, CreateImage(name, capacity, sc, uuid))]))
  {
    var call := Call(proc, CreateImage(name, capacity, sc, uuid));
    UuidIsUnused(k, uuid);
    assert PcOrderly(k, c, call.pc);
    SetCall(k, c, call);
    OnlyCallsCount(k.(calls := k.calls[c := call]),
                   k.(uuids := k.uuids[uuid := name], calls := k.calls[c := call]));
  }

  lemma BeginCreateOrderly(k: Control, c: nat, proc: string, name: string, required: int, sc: Option<string>,
                           seen: Option<Record>, labelled: bool, uuid: string)
    requires Sound(k) && Orderly(k) && name !in k.retired
    ensures Orderly(DoBeginCreate(k, c, proc, name, required, sc, seen, labelled, uuid))
  {
    hide Orderly, Sound, ResolvePool, Watched;
    if c in k.calls || name == "" || !MayRead(k.store, name, seen) {
    } else if seen.Some? {
      var spec := seen.value.spec;
      PlainCall(k, c, Call(proc, Finished(false)));
      PlainCall(k, c, Call(proc, Created(spec.uuid, spec.capacity)));
      OnlyCallsCount(k.(calls := k.calls[c := Call(proc, Created(spec.uuid, spec.capacity))]),
                     k.(calls := k.calls[c := Call(proc, Created(spec.uuid, spec.capacity))],
                        answers := k.answers + {Answer(name, required, spec.uuid, spec.capacity)}));
    } else {
      PlainCall(k, c, Call(proc, Finished(false)));
      if labelled && uuid !in k.uuids && uuid != "" {
        if sc.Some? {
          CreateBegins(k, c, proc, name, required, sc.value, uuid);
        } else {
          OnlyCallsCount(k.(calls := k.calls[c := Call(proc, Finished(false))]),
                         k.(uuids := k.uuids[uuid := name], calls := k.calls[c := Call(proc, Finished(false))]));
        }
      }
    }
  }

  lemma UuidIsUnused(k: Control, uuid: string)
    requires Sound(k) && uuid !in k.uuids
    ensures forall o | o in k.store.history :: o.spec.uuid != uuid
    ensures forall d | d in k.calls :: Carried(k.calls[d].pc) != Some(uuid)
  {
    forall d | d in k.calls ensures Carried(k.calls[d].pc) != Some(uuid) {
      assert PcSound(k.uuids, k.store.history, k.calls[d].pc);
    }
  }

  /** More uuids and answers change nothing here. */
  lemma OnlyCallsCount(k: Control, k': Control)
    requires Orderly(k)
    requires k' == k.(uuids := k'.uuids, answers := k'.answers)
    requires forall u | u in k.uuids :: u in k'.uuids && k'.uuids[u] == k.uuids[u]
    ensures Orderly(k')
  {
    forall d | d in k'.calls ensures PcOrderly(k', d, k'.calls[d].pc) {
      assert PcOrderly(k, d, k.calls[d].pc);
    }
    forall o | o in k'.store.history ensures RecordOrderly(k', o) {
      assert RecordOrderly(k, o);
    }
    forall id | id in k'.images ensures ImageOwned(k', id) {
      assert ImageOwned(k, id);
    }
  }

  /** No record that was ever stored has the image that an active create is about to make. */
  lemma NewImageIsNoRecords(k: Control, c: nat, id: ImageId)
    requires Sound(k) && Orderly(k) && c in k.calls && ActiveOn(k.calls[c].pc, id.image) && id !in k.images
    ensures forall o | o in k.store.history :: IdOf(o.spec) != id
  {
    assert PcOrderly(k, c, k.calls[c].pc);
    forall o | o in k.store.history ensures IdOf(o.spec) != id {
      assert RecordOrderly(k, o);
      assert SpecSound(k.uuids, o.name, o.spec);
    }
  }

  /** What call `c` makes when it is about to make the image of `spec`. */
  ghost predicate AboutToMake(k: Control, c: nat, spec: Spec, pc: Pc) {
    && c in k.calls && k.calls[c].pc.CreateImage?
    && OwnsImage(pc) && pc.spec == spec && pc.name == k.calls[c].pc.name == spec.image
    && spec.uuid == k.calls[c].pc.uuid && SpecDeclared(k.classes, spec) && IdOf(spec) !in k.images
  }

  function WithImage(k: Control, c: nat, spec: Spec, pc: Pc): Control
    requires c in k.calls
  {
    Goto(k.(images := k.images[IdOf(spec) := Image(MibFor(spec.capacity), spec.uuid, c)]), c, pc)
  }

  lemma ImageMadeCalls(k: Control, c: nat, spec: Spec, pc: Pc, d: nat)
    requires Sound(k) && Orderly(k) && AboutToMake(k, c, spec, pc) && d in k.calls
    ensures PcOrderly(WithImage(k, c, spec, pc), d, WithImage(k, c, spec, pc).calls[d].pc)
  {
    hide MibFor, RecordOrderly, ImageOwned, SpecDeclared;
    NewImageIsNoRecords(k, c, IdOf(spec));
    assert PcOrderly(k, c, k.calls[c].pc);
    assert PcOrderly(k, d, k.calls[d].pc);
    assert PcSound(k.uuids, k.store.history, k.calls[d].pc);
  }

  lemma ImageMadeRecords(k: Control, c: nat, spec: Spec, pc: Pc)
    requires Sound(k) && Orderly(k) && AboutToMake(k, c, spec, pc)
    ensures RecordsOrderly(WithImage(k, c, spec, pc))
  {
    NewImageIsNoRecords(k, c, IdOf(spec));
    var k' := WithImage(k, c, spec, pc);
    forall o | o in k'.store.history ensures RecordOrderly(k', o) {
      assert RecordOrderly(k, o);
    }
  }

  lemma ImageMade(k: Control, c: nat, spec: Spec, pc: Pc)
    requires Sound(k) && Orderly(k) && AboutToMake(k, c, spec, pc)
    ensures Orderly(WithImage(k, c, spec, pc))
  {
    var k' := WithImage(k, c, spec, pc);
    ImageMadeRecords(k, c, spec, pc);
    forall d | d in k'.calls { ImageMadeCalls(k, c, spec, pc, d); }
    forall i | i in k'.images ensures ImageOwned(k', i) {
      if i != IdOf(spec) {
        assert ImageOwned(k, i);
      }
    }
  }

  lemma MakeImageOrderly(k: Control, c: nat, a: Attempt)
    requires Sound(k) && Orderly(k)
    ensures Orderly(DoMakeImage(k, c, a))
  {
    hide ResolvePool, Watched;
    if c in k.calls && k.calls[c].pc.CreateImage? {
      var pc := k.calls[c].pc;
      var pool := ResolvePool(k.classes, pc.sc, a);
      if pool.None? || MibFor(pc.capacity) <= 0 || a.outcome.Refused? || ImageId(pool.value, pc.name) in k.images {
        EndCall(k, c, false);
      } else {
        ResolvesDeclared(k.classes, pc.sc, a);
        var spec := Spec(pc.uuid, pc.capacity, pc.sc, pool.value, pc.name);
        ImageMade(k, c, spec, if a.outcome.Done? then CreateReserve(pc.name, spec) else Leaked(pc.name, spec));
      }
    }
  }

  lemma ReserveOrderly(k: Control, c: nat)
    requires Orderly(k)
    ensures Orderly(DoReserve(k, c))
  {
    hide Orderly, Sound, ResolvePool, Watched;
    if c in k.calls && k.calls[c].pc.CreateReserve? {
      var Call(proc, pc) := k.calls[c];
      match ReserveUuid(IndexOf(k, proc), pc.spec.uuid, pc.name)
      case Some(idx) =>
        MoveOwner(k, c, CreateRecord(pc.name, pc.spec));
        IndexOrderly(Goto(k, c, CreateRecord(pc.name, pc.spec)), proc, idx);
      case None => MoveOwner(k, c, CreateRollback(pc.name, pc.spec));
    }
  }

  function WithRecord(k: Control, c: nat): Control
    requires c in k.calls && k.calls[c].pc.CreateRecord? && k.calls[c].pc.name !in k.store.objects
  {
    var pc := k.calls[c].pc;
    Goto(k.(store := ApiCreate(k.store, pc.name, pc.spec).value), c, Created(pc.spec.uuid, pc.spec.capacity))
  }

  /** A create that is still active meets no earlier record of its name, unless that record is there. */
  lemma FirstOfItsName(k: Control, c: nat, name: string)
    requires Orderly(k) && c in k.calls && ActiveOn(k.calls[c].pc, name) && name !in k.store.objects
    ensures forall o | o in k.store.history :: o.name != name
  {
    assert PcOrderly(k, c, k.calls[c].pc);
    forall o | o in k.store.history ensures o.name != name {
      assert RecordOrderly(k, o);
    }
  }

  lemma RecordMadeCalls(k: Control, c: nat, d: nat)
    requires Sound(k) && Orderly(k) && c in k.calls && k.calls[c].pc.CreateRecord? && d in k.calls
    requires k.calls[c].pc.name !in k.store.objects
    ensures PcOrderly(WithRecord(k, c), d, WithRecord(k, c).calls[d].pc)
  {
    hide MibFor, RecordOrderly, ImageOwned, SpecDeclared;
    assert PcOrderly(k, c, k.calls[c].pc) && PcOrderly(k, d, k.calls[d].pc);
  }

  lemma OldRecordOrderly(k: Control, c: nat, o: Record)
    requires Sound(k) && Orderly(k) && c in k.calls && k.calls[c].pc.CreateRecord?
    requires k.calls[c].pc.name !in k.store.objects && o in k.store.history
    ensures RecordOrderly(WithRecord(k, c), o) && o.name != k.calls[c].pc.name
  {
    FirstOfItsName(k, c, k.calls[c].pc.name);
    assert RecordOrderly(k, o);
  }

  lemma NewRecordOrderly(k: Control, c: nat)
    requires Sound(k) && Orderly(k) && c in k.calls && k.calls[c].pc.CreateRecord?
    requires k.calls[c].pc.name !in k.store.objects
    ensures RecordOrderly(WithRecord(k, c), WithRecord(k, c).store.objects[k.calls[c].pc.name])
  {
    assert PcOrderly(k, c, k.calls[c].pc);
  }

  lemma RecordMadeRecords(k: Control, c: nat)
    requires Sound(k) && Orderly(k) && c in k.calls && k.calls[c].pc.CreateRecord?
    requires k.calls[c].pc.name !in k.store.objects
    ensures RecordsOrderly(WithRecord(k, c))
  {
    hide RecordOrderly, PcOrderly, ImageOwned, Sound;
    var k' := WithRecord(k, c);
    var o' := k'.store.objects[k.calls[c].pc.name];
    forall o | o in k.store.history { OldRecordOrderly(k, c, o); }
    NewRecordOrderly(k, c);
    assert k'.store.history == k.store.history + {o'};
  }

  lemma RecordMade(k: Control, c: nat)
    requires Sound(k) && Orderly(k) && c in k.calls && k.calls[c].pc.CreateRecord?
    requires k.calls[c].pc.name !in k.store.objects
    ensures Orderly(WithRecord(k, c))
  {
    hide Sound, PcOrderly, RecordsOrderly, ImageOwned;
    RecordMadeRecords(k, c);
    forall d | d in k.calls { RecordMadeCalls(k, c, d); }
    forall i | i in k.images { RecordMadeImages(k, c, i); }
  }

  lemma RecordMadeImages(k: Control, c: nat, i: ImageId)
    requires Sound(k) && Orderly(k) && c in k.calls && k.calls[c].pc.CreateRecord? && i in k.images
    requires k.calls[c].pc.name !in k.store.objects
    ensures ImageOwned(WithRecord(k, c), i)
  {
    hide MibFor, RecordOrderly, SpecDeclared;
    assert ImageOwned(k, i);
    assert PcOrderly(k, c, k.calls[c].pc) && PcSound(k.uuids, k.store.history, k.calls[c].pc);
  }

  lemma PostRecordOrderly(k: Control, c: nat, outcome: Outcome)
    requires Sound(k) && Orderly(k) && !outcome.Lost?
    ensures Orderly(DoPostRecord(k, c, outcome))
  {
    hide Orderly, Sound, ResolvePool, Watched;
    if c in k.calls && k.calls[c].pc.CreateRecord? {
      var pc := k.calls[c].pc;
      if ApiCreate(k.store, pc.name, pc.spec).None? || outcome.Refused? {
        MoveOwner(k, c, CreateRelease(pc.name, pc.spec));
      } else {
        RecordMade(k, c);
        OnlyCallsCount(WithRecord(k, c), DoPostRecord(k, c, outcome));
      }
    }
  }

  lemma ReleaseOrderly(k: Control, c: nat)
    requires Orderly(k)
    ensures Orderly(DoRelease(k, c))
  {
    hide Orderly, Sound, ResolvePool, Watched;
    if c in k.calls && k.calls[c].pc.CreateRelease? {
      var Call(proc, pc) := k.calls[c];
      MoveOwner(k, c, CreateRollback(pc.name, pc.spec));
      IndexOrderly(Goto(k, c, CreateRollback(pc.name, pc.spec)), proc, IndexOf(k, proc) - {pc.spec.uuid});
    }
  }

  lemma OwnImageRemovedCalls(k: Control, c: nat, d: nat)
    requires Orderly(k) && c in k.calls && OwnsImage(k.calls[c].pc) && d in k.calls
    ensures var k' := Goto(k.(images := k.images - {IdOf(k.calls[c].pc.spec)}), c, Finished(false));
            PcOrderly(k', d, k'.calls[d].pc)
  {
    hide RecordsOrderly, ImageOwned, MibFor, SpecDeclared;
    assert PcOrderly(k, c, k.calls[c].pc) && PcOrderly(k, d, k.calls[d].pc);
  }

  /** A call removes the image that it is answerable for, and is done. */
  lemma OwnImageRemoved(k: Control, c: nat)
    requires Sound(k) && Orderly(k) && c in k.calls && OwnsImage(k.calls[c].pc)
    ensures Orderly(Goto(k.(images := k.images - {IdOf(k.calls[c].pc.spec)}), c, Finished(false)))
  {
    hide Sound, MibFor, SpecDeclared;
    var id := IdOf(k.calls[c].pc.spec);
    var k' := Goto(k.(images := k.images - {id}), c, Finished(false));
    assert PcOrderly(k, c, k.calls[c].pc);
    forall d | d in k.calls { OwnImageRemovedCalls(k, c, d); }
    forall o | o in k'.store.history ensures RecordOrderly(k', o) {
      RecordImageNotCarried(k, o, c);
      assert RecordOrderly(k, o);
    }
    forall i | i in k'.images ensures ImageOwned(k', i) {
      assert ImageOwned(k, i);
    }
  }

  lemma RollbackOrderly(k: Control, links: set<Attachment>, c: nat, a: Attempt)
    requires Sound(k) && Orderly(k)
    ensures Orderly(DoRollback(k, links, c, a))
  {
    hide ResolvePool, Watched;
    if c in k.calls && k.calls[c].pc.CreateRollback? {
      var pc := k.calls[c].pc;
      assert PcOrderly(k, c, pc) && PcSound(k.uuids, k.store.history, pc);
      var k' := DoRollback(k, links, c, a);
      var pool := ResolvePool(k.classes, pc.spec.rbdSc, a);
      if pool.Some? {
        ResolvesDeclared(k.classes, pc.spec.rbdSc, a);
      }
      if IdOf(pc.spec) in k'.images {
        assert k'.images == k.images;
        MoveOwner(k, c, Leaked(pc.name, pc.spec));
      } else {
        OwnImageRemoved(k, c);
      }
    }
  }

  // ---------------------------------------------------------------- DeleteVolume and the rest

  lemma BeginDeleteOrderly(k: Control, c: nat, proc: string, uuid: string)
    requires Orderly(k)
    ensures Orderly(DoBeginDelete(k, c, proc, uuid))
  {
    if c !in k.calls {
      SetCall(k, c, DoBeginDelete(k, c, proc, uuid).calls[c]);
    }
  }

  lemma Retire(k: Control, name: string)
    requires Orderly(k) && !CreateActive(k, name)
    ensures Orderly(k.(retired := k.retired + {name}))
  {
    var k' := k.(retired := k.retired + {name});
    forall d | d in k'.calls ensures PcOrderly(k', d, k'.calls[d].pc) {
      assert PcOrderly(k, d, k.calls[d].pc);
    }
    forall o | o in k'.store.history ensures RecordOrderly(k', o) {
      assert RecordOrderly(k, o);
    }
    forall i | i in k'.images ensures ImageOwned(k', i) {
      assert ImageOwned(k, i);
    }
  }

  lemma ReadForDeleteOrderly(k: Control, c: nat, seen: Option<Record>)
    requires Orderly(k) && (seen.Some? ==> !CreateActive(k, seen.value.name))
    ensures Orderly(DoReadForDelete(k, c, seen))
  {
    if c in k.calls && k.calls[c].pc.DeleteRead? && MayRead(k.store, k.calls[c].pc.name, seen) {
      if seen.None? {
        EndCall(k, c, true);
      } else {
        Retire(k, seen.value.name);
        Move(k.(retired := k.retired + {seen.value.name}), c, DeleteImage(seen.value));
      }
    }
  }

  /** DeleteVolume removes the image of the record it read. */
  lemma RecordImageRemoved(k: Control, c: nat)
    requires Sound(k) && Orderly(k) && c in k.calls && k.calls[c].pc.DeleteImage?
    ensures var r := k.calls[c].pc.record;
            Orderly(k.(images := k.images - {IdOf(r.spec)}, dropped := k.dropped + {r.spec.uuid}))
  {
    var r := k.calls[c].pc.record;
    var id := IdOf(r.spec);
    var k' := k.(images := k.images - {id}, dropped := k.dropped + {r.spec.uuid});
    assert PcOrderly(k, c, k.calls[c].pc) && PcSound(k.uuids, k.store.history, k.calls[c].pc);
    assert SpecSound(k.uuids, r.name, r.spec);
    forall d | d in k'.calls ensures PcOrderly(k', d, k'.calls[d].pc) {
      assert PcOrderly(k, d, k.calls[d].pc);
      if OwnsImage(k.calls[d].pc) {
        RecordImageNotCarried(k, r, d);
      }
    }
    forall o | o in k'.store.history ensures RecordOrderly(k', o) {
      assert RecordOrderly(k, o);
      assert SpecSound(k.uuids, o.name, o.spec);
    }
    forall i | i in k'.images ensures ImageOwned(k', i) {
      assert ImageOwned(k, i);
    }
  }

  /** Past the image step the call goes on only if the image is not there. */
  lemma AfterDrop(k: Control, c: nat, ok: bool)
    requires Orderly(k) && c in k.calls && k.calls[c].pc.DeleteImage?
    requires ok ==> IdOf(k.calls[c].pc.record.spec) !in k.images
    ensures Orderly(Goto(k, c, if ok then DeleteMark(k.calls[c].pc.record) else Finished(false)))
  {
    assert PcOrderly(k, c, k.calls[c].pc);
    Move(k, c, if ok then DeleteMark(k.calls[c].pc.record) else Finished(false));
  }

  /** The deleting call reparses the class and still addresses the image that its record names. */
  lemma DropAddressesRecord(k: Control, c: nat, a: Attempt)
    requires Sound(k) && Orderly(k) && c in k.calls && k.calls[c].pc.DeleteImage?
    requires ResolvePool(k.classes, k.calls[c].pc.record.spec.rbdSc, a).Some?
    ensures ResolvePool(k.classes, k.calls[c].pc.record.spec.rbdSc, a).value == k.calls[c].pc.record.spec.pool
  {
    assert PcSound(k.uuids, k.store.history, k.calls[c].pc);
    assert RecordOrderly(k, k.calls[c].pc.record);
    ResolvesDeclared(k.classes, k.calls[c].pc.record.spec.rbdSc, a);
  }

  lemma DropImageOrderly(k: Control, links: set<Attachment>, c: nat, a: Attempt)
    requires Sound(k) && Orderly(k)
    ensures Orderly(DoDropImage(k, links, c, a))
  {
    hide Orderly, Sound, ResolvePool, Watched;
    if c in k.calls && k.calls[c].pc.DeleteImage? {
      var r := k.calls[c].pc.record;
      AfterDrop(k, c, false);
      if ResolvePool(k.classes, r.spec.rbdSc, a).Some? {
        DropAddressesRecord(k, c, a);
        var removal := RemoveImage(k.images, links, IdOf(r.spec), a.outcome);
        if IdOf(r.spec) in k.images && IdOf(r.spec) !in removal.images {
          RecordImageRemoved(k, c);
          AfterDrop(k.(images := removal.images, dropped := k.dropped + {r.spec.uuid}), c, removal.ok);
        } else {
          AfterDrop(k, c, removal.ok);
        }
      }
    }
  }

  /** Marking the record that the call has dropped the image of. */
  lemma Marked(k: Control, c: nat)
    requires Sound(k) && Orderly(k) && c in k.calls && k.calls[c].pc.DeleteMark?
    requires ApiDelete(k.store, k.calls[c].pc.record.name).Some?
    ensures Orderly(k.(store := ApiDelete(k.store, k.calls[c].pc.record.name).value))
  {
    var r := k.calls[c].pc.record;
    DeletionMark(k.store, r.name);
    var s' := ApiDelete(k.store, r.name).value;
    var cur := k.store.objects[r.name];
    assert PcOrderly(k, c, k.calls[c].pc) && PcSound(k.uuids, k.store.history, k.calls[c].pc);
    assert cur in k.store.history && cur.spec == r.spec;
    if s' != k.store {
      NewVersion(k, cur.(deleting := true));
    }
  }

  lemma MarkedAndFinished(k: Control, c: nat, ok: bool)
    requires Sound(k) && Orderly(k) && c in k.calls && k.calls[c].pc.DeleteMark?
    requires ApiDelete(k.store, k.calls[c].pc.record.name).Some?
    ensures Orderly(Goto(k.(store := ApiDelete(k.store, k.calls[c].pc.record.name).value), c, Finished(ok)))
  {
    Marked(k, c);
    EndCall(k.(store := ApiDelete(k.store, k.calls[c].pc.record.name).value), c, ok);
  }

  lemma MarkDeletedOrderly(k: Control, c: nat, seen: Option<Record>, outcome: Outcome)
    requires Sound(k) && Orderly(k)
    ensures Orderly(DoMarkDeleted(k, c, seen, outcome))
  {
    hide Orderly, Sound, ResolvePool, Watched;
    if c !in k.calls || !k.calls[c].pc.DeleteMark? || !MayRead(k.store, k.calls[c].pc.record.name, seen) {
      assert DoMarkDeleted(k, c, seen, outcome) == k;
    } else if seen.None? || outcome.Refused? || ApiDelete(k.store, k.calls[c].pc.record.name).None? {
      EndCall(k, c, false);
    } else {
      MarkedAndFinished(k, c, outcome.Done?);
    }
  }

  lemma ReconcileOrderly(k: Control, c: nat, proc: string, name: string, seen: Option<Record>)
    requires Orderly(k)
    ensures Orderly(DoReconcile(k, c, proc, name, seen))
  {
    if c in k.calls || !MayRead(k.store, name, seen) || seen.None? {
    } else if seen.value.deleting {
      if seen.value.status.node == "" {
        SetCall(k, c, Call(proc, Strip(seen.value)));
      }
    } else {
      match ReserveUuid(IndexOf(k, proc), seen.value.spec.uuid, name)
      case Some(idx) => IndexOrderly(k, proc, idx);
      case None =>
    }
  }

  lemma RecordGone(k: Control, r: Record)
    requires Sound(k) && Orderly(k) && r.name in k.store.objects && k.store.objects[r.name] == r && r.deleting
    ensures Orderly(k.(store := Remove(k.store, r.name)))
  {
    hide MibFor, SpecDeclared, PcSound, SpecSound;
    var k' := k.(store := Remove(k.store, r.name));
    assert r in k.store.history && RecordOrderly(k, r);
    forall d | d in k'.calls ensures PcOrderly(k', d, k'.calls[d].pc) {
      assert PcOrderly(k, d, k.calls[d].pc);
    }
    forall o | o in k'.store.history ensures RecordOrderly(k', o) {
      assert RecordOrderly(k, o);
    }
    forall i | i in k'.images ensures ImageOwned(k', i) {
      assert ImageOwned(k, i);
    }
  }

  lemma StrippedAndFinished(k: Control, c: nat)
    requires Sound(k) && Orderly(k) && c in k.calls && k.calls[c].pc.Strip?
    requires ApiUpdate(k.store, k.calls[c].pc.record.(finalizers := [])).Some?
    ensures Orderly(Goto(k.(store := ApiUpdate(k.store, k.calls[c].pc.record.(finalizers := [])).value), c, Finished(true)))
  {
    var base := k.calls[c].pc.record;
    assert PcSound(k.uuids, k.store.history, k.calls[c].pc);
    FinalizerStrip(k.store, base);
    RecordGone(k, base);
    EndCall(k.(store := Remove(k.store, base.name)), c, true);
  }

  lemma StripOrderly(k: Control, c: nat, outcome: Outcome)
    requires Sound(k) && Orderly(k)
    ensures Orderly(DoStripFinalizer(k, c, outcome))
  {
    hide Orderly, Sound, ResolvePool, Watched;
    if c !in k.calls || !k.calls[c].pc.Strip? {
      assert DoStripFinalizer(k, c, outcome) == k;
    } else if outcome.Refused? || ApiUpdate(k.store, k.calls[c].pc.record.(finalizers := [])).None? {
      EndCall(k, c, false);
    } else {
      StrippedAndFinished(k, c);
    }
  }

  lemma CrashedUuids(k: Control, proc: string, e: nat)
    requires e in k.calls
    ensures var k' := DoCrash(k, proc);
            && SameGoods(k, k') && k'.retired == k.retired && k'.dropped == k.dropped
            && k'.calls.Keys == k.calls.Keys
            && Carried(k'.calls[e].pc) in {None, Carried(k.calls[e].pc)}
            && (OwnsImage(k'.calls[e].pc) ==> OwnsImage(k.calls[e].pc) && k'.calls[e].pc.spec == k.calls[e].pc.spec)
            && (k'.calls[e].pc == k.calls[e].pc || Over(k'.calls[e].pc))
  {
  }

  lemma CrashedCall(k: Control, proc: string, d: nat)
    requires Orderly(k) && d in k.calls
    ensures PcOrderly(DoCrash(k, proc), d, DoCrash(k, proc).calls[d].pc)
  {
    hide DoCrash, RecordsOrderly, ImageOwned, SpecDeclared, MibFor;
    forall e | e in k.calls { CrashedUuids(k, proc, e); }
    assert PcOrderly(k, d, k.calls[d].pc);
  }

  lemma CrashOrderly(k: Control, proc: string)
    requires Orderly(k)
    ensures Orderly(DoCrash(k, proc))
  {
    var k' := DoCrash(k, proc);
    forall d | d in k'.calls { CrashedCall(k, proc, d); }
    forall o | o in k'.store.history ensures RecordOrderly(k', o) {
      assert RecordOrderly(k, o);
    }
    forall i | i in k'.images ensures ImageOwned(k', i) {
      assert ImageOwned(k, i);
    }
  }

  lemma NextControlOrderly(k: Control, links: set<Attachment>, s: ControlStep)
    requires Sound(k) && Orderly(k) && Rules(k, s)
    ensures Orderly(NextControl(k, links, s))
  {
    hide Orderly, Sound, DoBeginCreate, DoMakeImage, DoReserve, DoPostRecord, DoRelease, DoRollback,
         DoBeginDelete, DoReadForDelete, DoDropImage, DoMarkDeleted, DoReconcile, DoStripFinalizer, DoCrash;
    match s
    case BeginCreate(c, proc, name, required, sc, seen, labelled, uuid) =>
      BeginCreateOrderly(k, c, proc, name, required, sc, seen, labelled, uuid);
    case MakeImage(c, a) => MakeImageOrderly(k, c, a);
    case Reserve(c) => ReserveOrderly(k, c);
    case PostRecord(c, outcome) => PostRecordOrderly(k, c, outcome);
    case Release(c) => ReleaseOrderly(k, c);
    case Rollback(c, a) => RollbackOrderly(k, links, c, a);
    case BeginDelete(c, proc, uuid) => BeginDeleteOrderly(k, c, proc, uuid);
    case ReadForDelete(c, seen) => ReadForDeleteOrderly(k, c, seen);
    case DropImage(c, a) => DropImageOrderly(k, links, c, a);
    case MarkDeleted(c, seen, outcome) => MarkDeletedOrderly(k, c, seen, outcome);
    case Reconcile(c, proc, name, seen) => ReconcileOrderly(k, c, proc, name, seen);
    case StripFinalizer(c, outcome) => StripOrderly(k, c, outcome);
    case Crash(proc) => CrashOrderly(k, proc);
  }

  lemma WriteStatusOrderly(w: World, c: nat, seen: Option<Record>, ip: string, outcome: Outcome)
    requires Sound(w.ctl) && Orderly(w.ctl)
    ensures Orderly(DoWriteStatus(w, c, seen, ip, outcome).ctl)
  {
    if CanWrite(w, c, seen) && StatusUpdate(w, c, seen, ip, outcome).Some? {
      WriteStatusShape(w, c, seen, ip, outcome);
      assert RecordOrderly(w.ctl, seen.value);
      NewVersion(w.ctl, seen.value.(status := StatusToWrite(w.nodes.calls[c], ip)));
    }
  }

  /** The rules for a step of the whole machine; nodes are free. */
  predicate Lawful(w: World, s: Step) {
    s.ByControl? ==> Rules(w.ctl, s.s)
  }

  lemma NextOrderly(w: World, s: Step)
    requires Sound(w.ctl) && Orderly(w.ctl) && Lawful(w, s)
    ensures Orderly(Next(w, s).ctl)
  {
    hide Orderly, Sound, NextControl, DoWriteStatus, DoCrash;
    match s
    case ByControl(cs) => NextControlOrderly(w.ctl, w.nodes.links, cs);
    case ByNode(WriteStatus(c, seen, ip, outcome)) => WriteStatusOrderly(w, c, seen, ip, outcome);
    case ByNode(NodeCrash(node)) => CrashOrderly(w.ctl, node);
    case ByNode(_) =>
  }

  ghost predicate LawfulRun(w: World, steps: seq<Step>) {
    forall i | 0 <= i < |steps| :: Lawful(Run(w, steps[..i]), steps[i])
  }

  lemma LawfulPrefix(w: World, steps: seq<Step>, n: nat)
    requires LawfulRun(w, steps) && n <= |steps|
    ensures LawfulRun(w, steps[..n])
  {
    forall i | 0 <= i < n ensures Lawful(Run(w, steps[..n][..i]), steps[..n][i]) {
      assert steps[..n][..i] == steps[..i];
    }
  }

  lemma {:induction false} RunOrderly(classes: map<string, map<string, string>>, steps: seq<Step>)
    requires ClassesAgree(classes) && LawfulRun(Init(classes), steps)
    ensures Sound(Run(Init(classes), steps).ctl) && Orderly(Run(Init(classes), steps).ctl)
  {
    RunSound(classes, steps);
    if steps == [] {
      InitOrderly(classes);
    } else {
      var n := |steps| - 1;
      LawfulPrefix(Init(classes), steps, n);
      RunOrderly(classes, steps[..n]);
      NextOrderly(Run(Init(classes), steps[..n]), steps[n]);
    }
  }
}
