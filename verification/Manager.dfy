/** The record manager of one process: its uuid index, and its calls to the API server. */
module Manager {
  import opened Records
  import opened Lifecycle
  import opened Cluster

  datatype CreateResult = Stored | AlreadyExist | NotStored

  class AlcubCon {
    const services: Services
    const proc: string
    var uuidname: Index

    constructor (services: Services, proc: string)
      ensures this.services == services && this.proc == proc && uuidname == map[]
    {
      this.services, this.proc, uuidname := services, proc, map[];
    }

    method ReverseUuid(uuid: string, name: string) returns (ok: bool)
      modifies this`uuidname
      ensures ok <==> (uuid in old(uuidname) ==> old(uuidname)[uuid] == name)
      ensures uuidname == if ok then old(uuidname)[uuid := name] else old(uuidname)
    {
      if uuid in uuidname {
        return uuidname[uuid] == name;
      }
      uuidname := uuidname[uuid := name];
      return true;
    }

    method ReleaseUuid(uuid: string)
      modifies this`uuidname
      ensures uuidname == old(uuidname) - {uuid}
    {
      uuidname := uuidname - {uuid};
    }

    method GetNameByUuid(uuid: string) returns (name: string)
      ensures name == if uuid in uuidname then uuidname[uuid] else ""
    {
      if uuid in uuidname {
        return uuidname[uuid];
      }
      return "";
    }

    /** `seen` is what the cached client answers; any error reads as nothing. */
    method GetByName(name: string, seen: Option<Record>) returns (r: Option<Record>)
      requires MayRead(services.store, name, seen)
      ensures r == seen
    {
      return seen;
    }

    method GetByUuid(uuid: string, seen: Option<Record>) returns (r: Option<Record>)
      requires Lookup(uuidname, uuid).Some? ==> MayRead(services.store, Lookup(uuidname, uuid).value, seen)
      ensures r == if uuid != "" && uuid in uuidname && uuidname[uuid] != "" then seen else None
    {
      if uuid == "" {
        return None;
      }
      var name := GetNameByUuid(uuid);
      if name == "" {
        return None;
      }
      r := GetByName(name, seen);
    }

    /** Reserves the uuid, stores the record, and gives the uuid up again if that fails. */
    method Create(name: string, spec: Spec, post: Outcome) returns (r: CreateResult)
      modifies this`uuidname, services`store
      ensures var idx := ReserveUuid(old(uuidname), spec.uuid, name);
              var stored := ApiCreate(old(services.store), name, spec);
              if idx.None? then r.NotStored? && uuidname == old(uuidname) && services.store == old(services.store)
              else
                && services.store == (if post.Refused? || stored.None? then old(services.store) else stored.value)
                && (r.Stored? <==> post.Done? && stored.Some?)
                && (r.AlreadyExist? <==> !post.Refused? && stored.None?)
                && uuidname == (if r.Stored? then idx.value else idx.value - {spec.uuid})
      ensures r.Stored? ==>
                && uuidname == old(uuidname)[spec.uuid := name]
                && name !in old(services.store).objects && name in services.store.objects
                && var o := services.store.objects[name];
                   && o.name == name && o.spec == spec && o.status == Status("", "", "", "", [])
                   && o.finalizers == ["controller/csi-alcub"] && !o.deleting
      ensures !r.Stored? && spec.uuid !in old(uuidname) ==> uuidname == old(uuidname)
    {
      var ok := ReverseUuid(spec.uuid, name);
      if !ok {
        return NotStored;
      }
      var stored := ApiCreate(services.store, name, spec);
      if post.Refused? {
        r := NotStored;
      } else if stored.None? {
        r := AlreadyExist;
      } else {
        services.store := stored.value;
        r := if post.Done? then Stored else NotStored;
      }
      if !r.Stored? {
        ReleaseUuid(spec.uuid);
      }
    }

    /** Marks the record deleted; reading nothing first is an error. */
    method Delete(name: string, seen: Option<Record>, outcome: Outcome) returns (ok: bool)
      requires MayRead(services.store, name, seen)
      modifies services`store
      ensures var marked := ApiDelete(old(services.store), name);
              if seen.None? || outcome.Refused? || marked.None? then !ok && services.store == old(services.store)
              else ok == outcome.Done? && services.store == marked.value
    {
      if seen.None? || outcome.Refused? {
        return false;
      }
      var marked := ApiDelete(services.store, name);
      if marked.None? {
        return false;
      }
      services.store := marked.value;
      return outcome.Done?;
    }

    /**
     Reads the record, overwrites what is given, and writes it back on the version that was read.
     The retries around the write read nothing anew, so they amount to one attempt.
     */
    method Update(name: string, spec: Option<Spec>, stat: Option<Status>, seen: Option<Record>, outcome: Outcome)
      returns (ok: bool)
      requires MayRead(services.store, name, seen)
      modifies services`store
      ensures seen.None? || outcome.Refused? ==> !ok && services.store == old(services.store)
      ensures seen.Some? && !outcome.Refused? ==>
                var obj := seen.value.(spec := if spec.Some? then spec.value else seen.value.spec,
                                       status := if stat.Some? then stat.value else seen.value.status);
                var written := ApiUpdate(old(services.store), obj);
                if written.None? then !ok && services.store == old(services.store)
                else ok == outcome.Done? && services.store == written.value
    {
      if seen.None? {
        return false;
      }
      var obj := seen.value;
      if spec.Some? {
        obj := obj.(spec := spec.value);
      }
      if stat.Some? {
        obj := obj.(status := stat.value);
      }
      if outcome.Refused? {
        return false;
      }
      var written := ApiUpdate(services.store, obj);
      if written.None? {
        return false;
      }
      services.store := written.value;
      return outcome.Done?;
    }

    predicate ValidBeDelete(alcub: Record) {
      alcub.status.node == ""
    }

    /** Strips the finalizer of a terminating record that nobody holds; indexes any other record. */
    method ReconcileRecord(name: string, seen: Option<Record>, strip: Outcome, ghost k: Control, ghost c: nat)
      requires MayRead(services.store, name, seen)
      requires k.store == services.store && IndexOf(k, proc) == uuidname && c !in k.calls
      modifies this`uuidname, services`store
      ensures var k' := DoStripFinalizer(DoReconcile(k, c, proc, name, seen), c, strip);
              services.store == k'.store && uuidname == IndexOf(k', proc)
      ensures seen.Some? && !seen.value.deleting && seen.value.spec.uuid !in old(uuidname) ==>
                uuidname == old(uuidname)[seen.value.spec.uuid := name] && services.store == old(services.store)
      ensures seen.Some? && seen.value.deleting && seen.value.status.node != "" ==>
                uuidname == old(uuidname) && services.store == old(services.store)
      ensures seen.Some? && seen.value.deleting && seen.value.status.node == "" && !strip.Refused?
              && name in old(services.store).objects && old(services.store).objects[name] == seen.value ==>
                name !in services.store.objects
    {
      hide ApiUpdate, DoReconcile, DoStripFinalizer;
      if seen.Some? && seen.value.deleting && name in services.store.objects && services.store.objects[name] == seen.value {
        StripOfStored(services.store, seen.value);
      }
      ReconcileScript(k, c, proc, name, seen, strip);
      if seen.None? {
        return;
      }
      var alcub := seen.value;
      if alcub.deleting {
        if ValidBeDelete(alcub) {
          alcub := alcub.(finalizers := []);
          if !strip.Refused? {
            var written := ApiUpdate(services.store, alcub);
            if written.Some? {
              services.store := written.value;
            }
          }
        }
        return;
      }
      var _ := ReverseUuid(alcub.spec.uuid, name);
    }
  }

  /** Where reading a record for reconciliation, and stripping it if that is due, leads. */
  lemma ReconcileScript(k: Control, c: nat, proc: string, name: string, seen: Option<Record>, strip: Outcome)
    requires c !in k.calls && MayRead(k.store, name, seen)
    ensures var k' := DoStripFinalizer(DoReconcile(k, c, proc, name, seen), c, strip);
            var idx := if seen.Some? && !seen.value.deleting
                       then ReserveUuid(IndexOf(k, proc), seen.value.spec.uuid, name) else None;
            var stripped := if seen.Some? && seen.value.deleting && seen.value.status.node == "" && !strip.Refused?
                            then ApiUpdate(k.store, seen.value.(finalizers := [])) else None;
            && IndexOf(k', proc) == (if idx.Some? then idx.value else IndexOf(k, proc))
            && k'.store == (if stripped.Some? then stripped.value else k.store)
  {
    hide ApiUpdate, MayRead, ReserveUuid;
  }
}
