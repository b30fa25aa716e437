/**
 The controller service. Each method is its protocol script run without interruption: its effects
 on the services and on its own index are exactly those of the machine's steps, in that order.
 */
module Controller {
  import opened Records
  import opened StorageClass
  import opened Lifecycle
  import opened Calls
  import opened Cluster
  import opened Rbd
  import opened Manager

  const SC_PARAM := "scname"

  /** An access capability asks for a mount or for something else. */
  datatype Capability = MountAccess | OtherAccess

  /** The topologies that the orchestrator requires or prefers. */
  datatype Accessibility = Accessibility(requisite: Option<seq<string>>, preferred: Option<seq<string>>)

  datatype CreateRequest = CreateRequest(name: string, capabilities: Option<seq<Capability>>, hasSource: bool,
                                         required: int, params: Option<map<string, string>>,
                                         accessibility: Option<Accessibility>)

  datatype CreateReply =
    | Provided(id: string, capacity: int, topology: seq<string>)
    | InvalidArgument | AlreadyExists | Unavailable | Internal

  /** The storage class that the request names, if any. */
  function ScOf(params: Option<map<string, string>>): Option<string> {
    if params.Some? && SC_PARAM in params.value then Some(params.value[SC_PARAM]) else None
  }

  class ControllerServer {
    const services: Services
    const alcub: AlcubCon
    const rbd: RbdClient

    constructor (services: Services, alcub: AlcubCon, rbd: RbdClient)
      ensures this.services == services && this.alcub == alcub && this.rbd == rbd
    {
      this.services, this.alcub, this.rbd := services, alcub, rbd;
    }

    /** The parts belong together. */
    ghost predicate Wired()
    {
      alcub.services == services && rbd.services == services
    }

    /** The machine's control state shows this process and the services as they are. */
    ghost predicate Tracks(k: Control)
      reads services, alcub
    {
      && k.store == services.store && k.images == services.images
      && IndexOf(k, alcub.proc) == alcub.uuidname && k.classes == rbd.classes
    }

    /** Every attempt iterates the class in some order of its keys. */
    ghost predicate Ordered(sc: string, a: Attempt) {
      sc in rbd.classes ==> IsOrder(a.order, rbd.classes[sc])
    }

    /** A record of the volume is stored, with an image that covers the bytes by less than a MiB too much. */
    ghost predicate VolumeStored(name: string, uuid: string, bytes: int, sc: string)
      reads services
    {
      && name in services.store.objects
      && var spec := services.store.objects[name].spec;
         && spec.uuid == uuid && spec.capacity == bytes && spec.rbdSc == sc && spec.image == name
         && IdOf(spec) in services.images
         && 0 < bytes <= services.images[IdOf(spec)].mib * 1048576 < bytes + 1048576
    }

    /** Image, then record; the image is deleted again if the record does not come to be. */
    method CreateVolumeFor(sc: string, name: string, uuid: string, bytes: int, t: CreateTale, c: nat, ghost k: Control)
      returns (spec: Option<Spec>)
      requires Wired() && Tracks(k) && Ordered(sc, t.make) && Ordered(sc, t.undo)
      requires c in k.calls && k.calls[c] == Call(alcub.proc, CreateImage(name, bytes, sc, uuid))
      modifies services`store, services`images, alcub`uuidname
      ensures var k' := CreateTail(k, services.links, c, t);
              && Tracks(k') && c in k'.calls && Over(k'.calls[c].pc)
              && (spec.Some? <==> k'.calls[c].pc.Created?)
              && (spec.Some? ==> k'.calls[c].pc == Created(uuid, bytes))
      ensures spec.Some? ==> VolumeStored(name, uuid, bytes, sc)
    {
      hide ResolvePool, MibFor, Watched, RemoveImage, ApiCreate, ReserveUuid, Parse,
           DoMakeImage, DoReserve, DoPostRecord, DoRelease, DoRollback;
      var volume := rbd.CreateImage(sc, name, bytes, t.make, uuid, c);
      ImageStep(k, c, alcub.proc, name, bytes, sc, uuid, t.make);
      ghost var k1 := DoMakeImage(k, c, t.make);
      if volume.None? {
        OverStays(k1, services.links, c, t);
        return None;
      }
      spec := Some(Spec(uuid, bytes, sc, volume.value.pool, volume.value.image));
      var ok := RecordOrRollback(name, spec.value, t, k1, c);
      if !ok {
        spec := None;
      }
    }

    /** The record, with the deferred delete of the image in case it fails. */
    method RecordOrRollback(name: string, s: Spec, t: CreateTale, ghost k: Control, ghost c: nat) returns (ok: bool)
      requires Wired() && Tracks(k) && Ordered(s.rbdSc, t.undo)
      requires c in k.calls && k.calls[c] == Call(alcub.proc, CreateReserve(name, s))
      modifies services`store, services`images, alcub`uuidname
      ensures var k' := DoRollback(DoRelease(DoPostRecord(DoReserve(k, c), c, t.post), c), services.links, c, t.undo);
              && Tracks(k') && c in k'.calls && Over(k'.calls[c].pc)
              && (ok <==> k'.calls[c].pc.Created?)
              && (ok ==> k'.calls[c].pc == Created(s.uuid, s.capacity))
      ensures ok ==> services.images == old(services.images)
                     && name in services.store.objects && services.store.objects[name].spec == s
    {
      hide ResolvePool, Watched, RemoveImage, ApiCreate, ReserveUuid, Parse,
           DoReserve, DoPostRecord, DoRelease, DoRollback;
      var r := alcub.Create(name, s, t.post);
      RecordScript(k, c, alcub.proc, name, s, t.post);
      ghost var k4 := DoRelease(DoPostRecord(DoReserve(k, c), c, t.post), c);
      if r.Stored? {
        CreatedStays(k4, services.links, c, t.undo);
        return true;
      }
      var _ := rbd.DeleteImage(s.rbdSc, name, t.undo);
      RollbackStep(k4, services.links, c, alcub.proc, name, s, t.undo);
      return false;
    }

    /** Called by the provisioner: checks, the record that may already be there, then the volume. */
    method CreateVolume(req: CreateRequest, t: CreateTale, c: nat, ghost k: Control) returns (reply: CreateReply)
      requires Wired() && Tracks(k) && c !in k.calls
      requires MayRead(services.store, req.name, t.seen) && t.uuid != "" && t.uuid !in k.uuids
      requires ScOf(req.params).Some? ==> Ordered(ScOf(req.params).value, t.make) && Ordered(ScOf(req.params).value, t.undo)
      modifies services`store, services`images, alcub`uuidname
      ensures reply.InvalidArgument? <==>
                req.name == "" || req.capabilities.None? || MountAccess !in req.capabilities.value || req.hasSource
      ensures reply.InvalidArgument? ==> Tracks(k)
      ensures !reply.InvalidArgument? ==>
                var k' := CreateRun(k, services.links, c, alcub.proc, req.name, req.required, ScOf(req.params), t);
                && Tracks(k') && c in k'.calls && Over(k'.calls[c].pc)
                && (reply.Provided? <==> k'.calls[c].pc.Created?)
                && (reply.Provided? ==> k'.calls[c].pc == Created(reply.id, reply.capacity) && reply.capacity >= req.required)
                && (reply.AlreadyExists? <==> t.seen.Some? && t.seen.value.spec.capacity < req.required)
                && (reply.Unavailable? <==> t.seen.None? && !t.labelled)
      ensures reply.Provided? && t.seen.Some? ==>
                reply.id == t.seen.value.spec.uuid && reply.capacity == t.seen.value.spec.capacity && reply.topology == []
      ensures reply.Provided? && t.seen.None? && req.accessibility.Some? ==>
                var a := req.accessibility.value;
                && (a.requisite.Some? ==> reply.topology == a.requisite.value)
                && (a.requisite.None? && a.preferred.Some? ==> reply.topology == a.preferred.value)
                && (a.requisite.None? && a.preferred.None? ==> reply.topology == [])
      ensures reply.Provided? && t.seen.None? && req.accessibility.None? ==> reply.topology == []
      ensures reply.Provided? && t.seen.None? ==>
                && reply.id == t.uuid && reply.capacity == req.required
                && req.params.Some? && "scname" in req.params.value
                && VolumeStored(req.name, t.uuid, req.required, req.params.value["scname"])
    {
      hide ResolvePool, CreateTail, DoBeginCreate, MayRead;
      if req.name == "" || req.capabilities.None? {
        return InvalidArgument;
      }
      var accessTypeMount := false;
      for i := 0 to |req.capabilities.value|
        invariant accessTypeMount <==> MountAccess in req.capabilities.value[..i]
      {
        if req.capabilities.value[i].MountAccess? {
          accessTypeMount := true;
        }
      }
      if !accessTypeMount || req.hasSource {
        return InvalidArgument;
      }
      ghost var links := services.links;
      ghost var k1 := DoBeginCreate(k, c, alcub.proc, req.name, req.required, ScOf(req.params), t.seen, t.labelled, t.uuid);
      var found := alcub.GetByName(req.name, t.seen);
      BeginStep(k, c, alcub.proc, req.name, req.required, ScOf(req.params), t);
      if found.Some? {
        TailOver(k1, links, c, t);
        if found.value.spec.capacity < req.required {
          return AlreadyExists;
        }
        return Provided(found.value.spec.uuid, found.value.spec.capacity, []);
      }
      if !t.labelled {
        TailOver(k1, links, c, t);
        return Unavailable;
      }
      var topologies := [];
      if req.accessibility.Some? {
        var a := req.accessibility.value;
        if a.requisite.Some? {
          topologies := a.requisite.value;
        } else if a.preferred.Some? {
          topologies := a.preferred.value;
        }
      }
      if req.params.None? || SC_PARAM !in req.params.value {
        TailOver(k1, links, c, t);
        return Internal;
      }
      var spec := CreateVolumeFor(req.params.value[SC_PARAM], req.name, t.uuid, req.required, t, c, k1);
      if spec.None? {
        return Internal;
      }
      return Provided(t.uuid, req.required, topologies);
    }

    /** Image first, then the record. */
    method DeleteVolumeOf(r: Record, t: DeleteTale, ghost k: Control, ghost c: nat) returns (ok: bool)
      requires Wired() && Tracks(k) && Ordered(r.spec.rbdSc, t.drop)
      requires c in k.calls && k.calls[c] == Call(alcub.proc, DeleteImage(r)) && MayRead(services.store, r.name, t.again)
      modifies services`store, services`images
      ensures var k' := DeleteTail(k, services.links, c, t);
              Tracks(k') && c in k'.calls && k'.calls[c].pc == Finished(ok)
    {
      hide ResolvePool, Watched, RemoveImage, ApiDelete, DoDropImage, DoMarkDeleted;
      ok := rbd.DeleteImage(r.spec.rbdSc, r.spec.image, t.drop);
      DropStep(k, services.links, c, alcub.proc, r, t.drop);
      ghost var k1 := DoDropImage(k, services.links, c, t.drop);
      if ok {
        ok := alcub.Delete(r.name, t.again, t.mark);
        MarkStep(k1, c, alcub.proc, r, t.again, t.mark);
      } else {
        MarkOver(k1, c, t.again, t.mark);
      }
    }

    method DeleteVolume(volid: string, t: DeleteTale, ghost k: Control, ghost c: nat) returns (ok: bool)
      requires Wired() && Tracks(k) && c !in k.calls
      requires Lookup(alcub.uuidname, volid).Some? ==> MayRead(services.store, Lookup(alcub.uuidname, volid).value, t.seen)
      requires t.seen.Some? ==> MayRead(services.store, t.seen.value.name, t.again) && Ordered(t.seen.value.spec.rbdSc, t.drop)
      modifies services`store, services`images
      ensures var k' := DeleteRun(k, services.links, c, alcub.proc, volid, t);
              Tracks(k') && c in k'.calls && k'.calls[c].pc == Finished(ok)
      ensures volid == "" || volid !in alcub.uuidname || t.seen.None? ==>
                ok && services.store == old(services.store) && services.images == old(services.images)
    {
      hide DeleteTail, ResolvePool;
      ghost var k2 := DoReadForDelete(DoBeginDelete(k, c, alcub.proc, volid), c, t.seen);
      var found := alcub.GetByUuid(volid, t.seen);
      if found.None? {
        DeleteTailOver(k2, services.links, c, true, t);
        return true;
      }
      ok := DeleteVolumeOf(found.value, t, k2, c);
    }
  }

  lemma TailOver(k: Control, links: set<Attachment>, c: nat, t: CreateTale)
    requires c in k.calls && Over(k.calls[c].pc)
    ensures CreateTail(k, links, c, t) == k
  {
    hide ResolvePool, RemoveImage, ApiCreate, MibFor;
  }

  /** A create that ended with its image step goes no further. */
  lemma OverStays(k: Control, links: set<Attachment>, c: nat, t: CreateTale)
    requires c in k.calls && Over(k.calls[c].pc)
    ensures DoRollback(DoRelease(DoPostRecord(DoReserve(k, c), c, t.post), c), links, c, t.undo) == k
  {
    hide ResolvePool, RemoveImage, ApiCreate;
  }

  lemma ReserveStep(k: Control, c: nat, proc: string, name: string, s: Spec)
    requires c in k.calls && k.calls[c] == Call(proc, CreateReserve(name, s))
    ensures var k' := DoReserve(k, c);
            var idx := ReserveUuid(IndexOf(k, proc), s.uuid, name);
            && SameGoods(k, k')
            && c in k'.calls && k'.calls[c] == Call(proc, if idx.Some? then CreateRecord(name, s) else CreateRollback(name, s))
            && IndexOf(k', proc) == (if idx.Some? then idx.value else IndexOf(k, proc))
  {
  }

  lemma PostStep(k: Control, c: nat, proc: string, name: string, s: Spec, post: Outcome)
    requires c in k.calls && k.calls[c] == Call(proc, CreateRecord(name, s))
    ensures var k' := DoPostRecord(k, c, post);
            var stored := ApiCreate(k.store, name, s);
            && k'.classes == k.classes && k'.images == k.images && k'.index == k.index
            && k'.store == (if post.Refused? || stored.None? then k.store else stored.value)
            && c in k'.calls
            && k'.calls[c] == Call(proc, if post.Done? && stored.Some? then Created(s.uuid, s.capacity) else CreateRelease(name, s))
  {
    hide ApiCreate;
  }

  lemma ReleaseStep(k: Control, c: nat, proc: string, name: string, s: Spec)
    requires c in k.calls && k.calls[c] == Call(proc, CreateRelease(name, s))
    ensures var k' := DoRelease(k, c);
            && SameGoods(k, k')
            && c in k'.calls && k'.calls[c] == Call(proc, CreateRollback(name, s))
            && IndexOf(k', proc) == IndexOf(k, proc) - {s.uuid}
  {
  }

  /** Where reserving, posting and releasing lead, and what they leave. */
  ghost predicate Posted(k: Control, k': Control, c: nat, proc: string, name: string, s: Spec, post: Outcome) {
    var idx := ReserveUuid(IndexOf(k, proc), s.uuid, name);
    var stored := ApiCreate(k.store, name, s);
    var done := idx.Some? && post.Done? && stored.Some?;
    && c in k'.calls && k'.calls[c] == Call(proc, if done then Created(s.uuid, s.capacity) else CreateRollback(name, s))
    && k'.classes == k.classes && k'.images == k.images
    && k'.store == (if idx.None? || post.Refused? || stored.None? then k.store else stored.value)
    && IndexOf(k', proc) == (if idx.None? then IndexOf(k, proc) else if done then idx.value else idx.value - {s.uuid})
  }

  lemma RecordScript(k: Control, c: nat, proc: string, name: string, s: Spec, post: Outcome)
    requires c in k.calls && k.calls[c] == Call(proc, CreateReserve(name, s))
    ensures Posted(k, DoRelease(DoPostRecord(DoReserve(k, c), c, post), c), c, proc, name, s, post)
  {
    hide ApiCreate, ReserveUuid, DoReserve;
    ReserveStep(k, c, proc, name, s);
    var k1 := DoReserve(k, c);
    if k1.calls[c].pc.CreateRecord? {
      hide DoPostRecord;
      PostStep(k1, c, proc, name, s, post);
      var k2 := DoPostRecord(k1, c, post);
      if k2.calls[c].pc.CreateRelease? {
        hide DoRelease;
        ReleaseStep(k2, c, proc, name, s);
      }
    }
  }

  /** Where the image step leads. */
  lemma ImageStep(k: Control, c: nat, proc: string, name: string, bytes: int, sc: string, uuid: string, a: Attempt)
    requires c in k.calls && k.calls[c] == Call(proc, CreateImage(name, bytes, sc, uuid))
    ensures var k' := DoMakeImage(k, c, a);
            var pool := ResolvePool(k.classes, sc, a);
            var made := pool.Some? && MibFor(bytes) > 0 && !a.outcome.Refused? && ImageId(pool.value, name) !in k.images;
            && k'.classes == k.classes && k'.store == k.store && k'.index == k.index
            && k'.images == (if made then k.images[ImageId(pool.value, name) := Image(MibFor(bytes), uuid, c)] else k.images)
            && c in k'.calls && k'.calls[c].proc == proc
            && (made && a.outcome.Done? ==>
                  k'.calls[c].pc == CreateReserve(name, Spec(uuid, bytes, sc, pool.value, name)))
            && (!made || !a.outcome.Done? ==> Over(k'.calls[c].pc) && !k'.calls[c].pc.Created?)
  {
    hide ResolvePool, MibFor;
  }

  /** Where the deferred rollback leads. */
  lemma RollbackStep(k: Control, links: set<Attachment>, c: nat, proc: string, name: string, s: Spec, a: Attempt)
    requires c in k.calls && k.calls[c] == Call(proc, CreateRollback(name, s))
    ensures var k' := DoRollback(k, links, c, a);
            var pool := ResolvePool(k.classes, s.rbdSc, a);
            && k'.classes == k.classes && k'.store == k.store && k'.index == k.index
            && k'.images == (if pool.None? then k.images
                             else RemoveImage(k.images, links, ImageId(pool.value, name), a.outcome).images)
            && c in k'.calls && Over(k'.calls[c].pc) && !k'.calls[c].pc.Created?
  {
    hide ResolvePool, RemoveImage;
  }

  /** Where the look at the existing record leads. */
  lemma BeginStep(k: Control, c: nat, proc: string, name: string, required: int, sc: Option<string>, t: CreateTale)
    requires c !in k.calls && name != "" && MayRead(k.store, name, t.seen) && t.uuid != "" && t.uuid !in k.uuids
    ensures var k' := DoBeginCreate(k, c, proc, name, required, sc, t.seen, t.labelled, t.uuid);
            && SameGoods(k, k') && k'.index == k.index && c in k'.calls
            && k'.calls[c] == Call(proc,
                 if t.seen.Some? then
                   (if t.seen.value.spec.capacity < required then Finished(false)
                    else Created(t.seen.value.spec.uuid, t.seen.value.spec.capacity))
                 else if t.labelled && sc.Some? then CreateImage(name, required, sc.value, t.uuid)
                 else Finished(false))
  {
    hide MayRead;
  }

  lemma DropStep(k: Control, links: set<Attachment>, c: nat, proc: string, r: Record, a: Attempt)
    requires c in k.calls && k.calls[c] == Call(proc, DeleteImage(r))
    ensures var k' := DoDropImage(k, links, c, a);
            var pool := ResolvePool(k.classes, r.spec.rbdSc, a);
            var removal := if pool.None? then Removal(k.images, false)
                           else RemoveImage(k.images, links, ImageId(pool.value, r.spec.image), a.outcome);
            && k'.classes == k.classes && k'.store == k.store && k'.index == k.index && k'.images == removal.images
            && c in k'.calls && k'.calls[c] == Call(proc, if removal.ok then DeleteMark(r) else Finished(false))
  {
    hide ResolvePool, RemoveImage;
  }

  lemma MarkStep(k: Control, c: nat, proc: string, r: Record, seen: Option<Record>, outcome: Outcome)
    requires c in k.calls && k.calls[c] == Call(proc, DeleteMark(r)) && MayRead(k.store, r.name, seen)
    ensures var k' := DoMarkDeleted(k, c, seen, outcome);
            var marked := ApiDelete(k.store, r.name);
            var failed := seen.None? || outcome.Refused? || marked.None?;
            && k'.classes == k.classes && k'.images == k.images && k'.index == k.index
            && k'.store == (if failed then k.store else marked.value)
            && c in k'.calls && k'.calls[c] == Call(proc, Finished(!failed && outcome.Done?))
  {
    hide ApiDelete, MayRead;
  }

  lemma MarkOver(k: Control, c: nat, seen: Option<Record>, outcome: Outcome)
    requires c in k.calls && k.calls[c].pc.Finished?
    ensures DoMarkDeleted(k, c, seen, outcome) == k
  {
    hide ApiDelete, MayRead;
  }
}
