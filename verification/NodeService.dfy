/**
 The node service. As with the controller, each method is its protocol script run without
 interruption; the deferred commit or rollback is the end of the method.
 */
module NodeService {
  import opened Records
  import opened Lifecycle
  import opened NodeCalls
  import opened Cluster
  import opened Manager

  datatype Access = MountVolume | BlockVolume

  datatype NodeReply = Success | InvalidArgument | NotFound | Internal

  class NodeServer {
    const services: Services
    const alcub: AlcubCon
    const nodename: string
    const storeip: string

    constructor (services: Services, alcub: AlcubCon, storeip: string)
      ensures this.services == services && this.alcub == alcub
      ensures this.nodename == alcub.proc && this.storeip == storeip
    {
      this.services, this.alcub, this.nodename, this.storeip := services, alcub, alcub.proc, storeip;
    }

    ghost predicate Wired() {
      alcub.services == services && alcub.proc == nodename
    }

    /** The machine shows the services and this node's index as they are. */
    ghost predicate Tracks(w: World)
      reads services, alcub
    {
      && w.ctl.store == services.store && w.ctl.images == services.images
      && w.nodes.links == services.links && w.nodes.mounts == services.mounts
      && IndexOf(w.ctl, nodename) == alcub.uuidname
    }

    /** Asks for the device; an error may still leave it connected. */
    method AttachDevice(r: Record, dev: string, outcome: Outcome) returns (devpath: Option<string>)
      modifies services`links
      ensures var connected := !outcome.Refused? && IdOf(r.spec) in services.images;
              && services.links == (if connected then old(services.links) + {AttachmentOf(nodename, r)} else old(services.links))
              && devpath == (if connected && outcome.Done? && dev != "" then Some(dev) else None)
    {
      if outcome.Refused? || IdOf(r.spec) !in services.images {
        return None;
      }
      services.links := services.links + {AttachmentOf(nodename, r)};
      if outcome.Lost? || dev == "" {
        return None;
      }
      return Some(dev);
    }

    method DetachDevice(r: Record, outcome: Outcome) returns (ok: bool)
      modifies services`links
      ensures services.links == if outcome.Refused? then old(services.links)
                                else old(services.links) - {AttachmentOf(nodename, r)}
      ensures ok == outcome.Done?
    {
      if !outcome.Refused? {
        services.links := services.links - {AttachmentOf(nodename, r)};
      }
      return outcome.Done?;
    }

    /** The checks before a mount, ending with the connection. */
    method PreMountValid(r: Record, t: PublishTale) returns (devpath: Option<string>)
      modifies services`links
      ensures var connected := r.spec.image != "" && r.spec.pool != "" && t.ready && t.zone.Some?
                               && !t.connect.Refused? && IdOf(r.spec) in services.images;
              && services.links == (if connected then old(services.links) + {AttachmentOf(nodename, r)} else old(services.links))
              && devpath == (if connected && t.connect.Done? && t.dev != "" then Some(t.dev) else None)
    {
      if r.spec.image == "" || r.spec.pool == "" {
        return None;
      }
      if !t.ready {
        return None;
      }
      if t.zone.None? {
        return None;
      }
      devpath := AttachDevice(r, t.dev, t.connect);
    }

    /** Creates the target path if it is missing, and mounts unless that has been done. */
    method MountTarget(r: Record, t: PublishTale) returns (ok: bool)
      requires t.check.Missing? ==> AttachmentOf(nodename, r) !in services.mounts
      modifies services`mounts
      ensures var a := AttachmentOf(nodename, r);
              var mounted := a in old(services.mounts);
              && ok == (if t.check.Failed? then false else if mounted then true
                        else (t.check.Missing? ==> t.check.made) && t.mount)
              && services.mounts == (if ok then old(services.mounts) + {a} else old(services.mounts))
    {
      var a := AttachmentOf(nodename, r);
      var notMnt := a !in services.mounts;
      match t.check {
        case Failed => return false;
        case Missing(made) =>
          if !made {
            return false;
          }
        case Told =>
      }
      if !notMnt {
        assert services.mounts + {a} == services.mounts;
        return true;
      }
      if !t.mount {
        return false;
      }
      services.mounts := services.mounts + {a};
      return true;
    }

    /** On failure the device is disconnected again, on success the holder is recorded. */
    method NodePublishVolume(volid: string, targetPath: string, capability: Option<Access>, t: PublishTale,
                             ghost w: World, ghost c: nat) returns (reply: NodeReply)
      requires Wired() && Tracks(w) && c !in w.nodes.calls && t.ip == storeip
      requires Lookup(alcub.uuidname, volid).Some? ==> MayRead(services.store, Lookup(alcub.uuidname, volid).value, t.seen)
      requires t.seen.Some? ==> MayRead(services.store, t.seen.value.name, t.again)
      requires t.seen.Some? && t.check.Missing? ==> AttachmentOf(nodename, t.seen.value) !in services.mounts
      modifies services`store, services`links, services`mounts
      ensures reply.InvalidArgument? <==> capability != Some(MountVolume) || volid == "" || targetPath == ""
      ensures reply.InvalidArgument? ==> Tracks(w)
      ensures !reply.InvalidArgument? ==>
                var w' := PublishRun(w, c, nodename, volid, t);
                && Tracks(w') && c in w'.nodes.calls && w'.nodes.calls[c].pc == NodeDone(reply.Success?)
      ensures reply.NotFound? <==>
                !reply.InvalidArgument? && (volid !in alcub.uuidname || alcub.uuidname[volid] == "" || t.seen.None?)
      ensures reply.NotFound? ==> services.store == old(services.store) && services.links == old(services.links)
                                  && services.mounts == old(services.mounts)
      ensures reply.Success? && ValidStore(old(services.store)) ==>
                t.seen.Some? && t.zone.Some? && Recorded(t.seen.value, t.dev, t.zone.value)
    {
      hide ApiUpdate, MayRead, PublishTail;
      if capability.None? || volid == "" || targetPath == "" || capability.value != MountVolume {
        return InvalidArgument;
      }
      ghost var w2 := PublishReadStep(w, c, nodename, volid, t);
      var alcubRecord := alcub.GetByUuid(volid, t.seen);
      if alcubRecord.None? {
        PublishOver(w2, c, t);
        return NotFound;
      }
      var r := alcubRecord.value;
      var devpath := PreMountValid(r, t);
      ghost var w3 := w2.(nodes := DoConnect(w2, c, t.ready, t.zone, t.dev, t.connect));
      ConnectStep(w2, c, nodename, r, t);
      if devpath.None? {
        PublishOver(w3, c, t);
        return Internal;
      }
      var ok := FinishPublish(r, devpath.value, t.zone.value, t, w3, c);
      reply := if ok then Success else Internal;
    }

    /** The volume is connected and mounted here, and its record says so, field by field. */
    ghost predicate Recorded(r: Record, devpath: string, zone: seq<string>)
      reads services
    {
      && AttachmentOf(nodename, r) in services.links && AttachmentOf(nodename, r) in services.mounts
      && r.name in services.store.objects
      && var status := services.store.objects[r.name].status;
         && status.node == nodename && status.devpath == devpath
         && status.storageIp == storeip && status.allNodes == zone
    }

    method FinishPublish(r: Record, devpath: string, zone: seq<string>, t: PublishTale, ghost w: World, ghost c: nat)
      returns (ok: bool)
      requires Wired() && Tracks(w) && t.ip == storeip && MayRead(services.store, r.name, t.again)
      requires c in w.nodes.calls && w.nodes.calls[c] == NodeCall(nodename, PublishCheck(r, devpath, zone))
      requires t.check.Missing? ==> AttachmentOf(nodename, r) !in services.mounts
      modifies services`store, services`links, services`mounts
      ensures var w' := PublishTail(w, c, t);
              Tracks(w') && c in w'.nodes.calls && w'.nodes.calls[c].pc == NodeDone(ok)
      ensures ok && ValidStore(old(services.store)) && AttachmentOf(nodename, r) in old(services.links) ==>
                Recorded(r, devpath, zone)
    {
      hide ApiUpdate, DoWriteStatus, DoUndo, DoMount, DoCheckTarget, Put;
      var mounted := MountTarget(r, t);
      MountStep(w.nodes, c, nodename, r, devpath, zone, t);
      ghost var n2 := DoMount(DoCheckTarget(w.nodes, c, t.check), c, t.mount);
      if !mounted {
        var _ := DetachDevice(r, t.undo);
        UndoStep(n2, c, nodename, r, t.undo);
        WriteOver(w.(nodes := DoUndo(n2, c, t.undo)), c, t.again, t.ip, t.write);
        return false;
      }
      UndoStands(n2, c, t.undo);
      var status := PublishedStatus(r.status, nodename, devpath, storeip, zone);
      ok := alcub.Update(r.name, None, Some(status), t.again, t.write);
      WriteStep(w.(nodes := n2), c, t.again, t.ip, t.write);
      if ok && ValidStore(w.ctl.store) {
        WrittenStatus(w.ctl.store, t.again.value, status);
      }
    }

    /** Only the recorded holder may unpublish; the device is let go once nothing is mounted. */
    method NodeUnpublishVolume(volid: string, targetPath: string, t: UnpublishTale, ghost w: World, ghost c: nat)
      returns (reply: NodeReply)
      requires Wired() && Tracks(w) && c !in w.nodes.calls
      requires Lookup(alcub.uuidname, volid).Some? ==> MayRead(services.store, Lookup(alcub.uuidname, volid).value, t.seen)
      requires t.seen.Some? ==> MayRead(services.store, t.seen.value.name, t.again)
      requires t.seen.Some? && t.check.Missing? ==> AttachmentOf(nodename, t.seen.value) !in services.mounts
      modifies services`store, services`links, services`mounts
      ensures reply.InvalidArgument? <==> volid == "" || targetPath == ""
      ensures reply.InvalidArgument? ==> Tracks(w)
      ensures !reply.InvalidArgument? ==>
                var w' := UnpublishRun(w, c, nodename, volid, t);
                && Tracks(w') && c in w'.nodes.calls && w'.nodes.calls[c].pc == NodeDone(reply.Success?)
      ensures reply.NotFound? <==>
                !reply.InvalidArgument? && (volid !in alcub.uuidname || alcub.uuidname[volid] == "" || t.seen.None?)
      ensures reply.NotFound? || (t.seen.Some? && t.seen.value.status.node != nodename) ==>
                !reply.Success? && services.store == old(services.store) && services.links == old(services.links)
                && services.mounts == old(services.mounts)
      ensures reply.Success? && ValidStore(old(services.store)) ==> t.seen.Some? && Cleared(t.seen.value)
    {
      hide ApiUpdate, MayRead, UnpublishTail;
      if volid == "" || targetPath == "" {
        return InvalidArgument;
      }
      ghost var w2 := UnpublishReadStep(w, c, nodename, volid, t);
      var alcubRecord := alcub.GetByUuid(volid, t.seen);
      if alcubRecord.None? {
        UnpublishOver(w2, c, t);
        return NotFound;
      }
      var r := alcubRecord.value;
      if r.status.node != nodename {
        UnpublishOver(w2, c, t);
        return Internal;
      }
      var ok := FinishUnpublish(r, t, w2, c);
      reply := if ok then Success else Internal;
    }

    /** The volume is neither connected nor mounted here, and its record names nobody. */
    ghost predicate Cleared(r: Record)
      reads services
    {
      && AttachmentOf(nodename, r) !in services.links && AttachmentOf(nodename, r) !in services.mounts
      && r.name in services.store.objects && services.store.objects[r.name].status.node == ""
    }

    /** Unmounts the target if it is mounted, and removes its path. */
    method UnmountTarget(r: Record, t: UnpublishTale) returns (ok: bool)
      requires t.check.Missing? ==> AttachmentOf(nodename, r) !in services.mounts
      modifies services`mounts
      ensures var a := AttachmentOf(nodename, r);
              var mounted := a in old(services.mounts);
              && ok == (!t.check.Failed? && (mounted ==> t.unmount.Done?) && t.removed)
              && services.mounts == (if t.check.Failed? || t.unmount.Refused? then old(services.mounts)
                                     else old(services.mounts) - {a})
    {
      var a := AttachmentOf(nodename, r);
      if a !in services.mounts {
        assert services.mounts - {a} == services.mounts;
      }
      if t.check.Failed? {
        return false;
      }
      if a in services.mounts {
        if t.unmount.Refused? {
          return false;
        }
        services.mounts := services.mounts - {a};
        if t.unmount.Lost? {
          return false;
        }
      }
      return t.removed;
    }

    method FinishUnpublish(r: Record, t: UnpublishTale, ghost w: World, ghost c: nat) returns (ok: bool)
      requires Wired() && Tracks(w) && MayRead(services.store, r.name, t.again)
      requires c in w.nodes.calls && w.nodes.calls[c] == NodeCall(nodename, UnpublishCheck(r))
      requires t.check.Missing? ==> AttachmentOf(nodename, r) !in services.mounts
      modifies services`store, services`links, services`mounts
      ensures var w' := UnpublishTail(w, c, t);
              Tracks(w') && c in w'.nodes.calls && w'.nodes.calls[c].pc == NodeDone(ok)
      ensures ok && ValidStore(old(services.store)) ==> Cleared(r)
    {
      hide ApiUpdate, Put, DoWriteStatus, DoDetach, DoRemoveTarget, DoUnmount;
      ok := UnmountTarget(r, t);
      UnmountStep(w.nodes, c, nodename, r, t);
      ghost var n2 := DoRemoveTarget(DoUnmount(w.nodes, c, t.check, t.unmount), c, t.removed);
      ghost var w3 := w.(nodes := DoDetach(n2, c, t.detach));
      if !ok {
        DetachStands(n2, c, t.detach);
        WriteOver(w3, c, t.again, "", t.write);
        return false;
      }
      ok := DetachDevice(r, t.detach);
      DetachStep(n2, c, nodename, r, t.detach);
      if !ok {
        WriteOver(w3, c, t.again, "", t.write);
        return false;
      }
      var status := r.status.(node := "");
      ok := alcub.Update(r.name, None, Some(status), t.again, t.write);
      WriteStep(w3, c, t.again, "", t.write);
      if ok && ValidStore(w.ctl.store) {
        WrittenStatus(w.ctl.store, t.again.value, status);
      }
    }
  }

  // ---------------------------------------------------------------- where the steps lead

  /** A status write that succeeds is there afterwards. */
  lemma WrittenStatus(s: Store, base: Record, status: Status)
    requires ValidStore(s) && base in s.history && ApiUpdate(s, base.(status := status)).Some?
    ensures var s' := ApiUpdate(s, base.(status := status)).value;
            base.name in s'.objects && s'.objects[base.name].status == status
  {
    StatusWrite(s, base, status);
  }

  /** The call is at `pc` and the rest of the machine is as it was. */
  ghost predicate MovedTo(n: Nodes, n': Nodes, c: nat, node: string, pc: NodePc) {
    && n'.commits == n.commits && c in n'.calls && n'.calls[c] == NodeCall(node, pc)
  }

  lemma PublishReadStep(w: World, c: nat, node: string, uuid: string, t: PublishTale) returns (w2: World)
    requires c !in w.nodes.calls
    requires Lookup(IndexOf(w.ctl, node), uuid).Some? ==> MayRead(w.ctl.store, Lookup(IndexOf(w.ctl, node), uuid).value, t.seen)
    ensures var w1 := w.(nodes := DoBeginNode(w, c, node, uuid, true));
            w2 == w1.(nodes := DoReadForNode(w1, c, t.seen))
    ensures w2.ctl == w.ctl && w2.nodes.links == w.nodes.links && w2.nodes.mounts == w.nodes.mounts
    ensures MovedTo(w.nodes, w2.nodes, c, node,
                    if Lookup(IndexOf(w.ctl, node), uuid).None? || t.seen.None?
                       || t.seen.value.spec.image == "" || t.seen.value.spec.pool == ""
                    then NodeDone(false) else PublishConnect(t.seen.value))
  {
    hide MayRead, Lookup;
    var w1 := w.(nodes := DoBeginNode(w, c, node, uuid, true));
    w2 := w1.(nodes := DoReadForNode(w1, c, t.seen));
  }

  lemma UnpublishReadStep(w: World, c: nat, node: string, uuid: string, t: UnpublishTale) returns (w2: World)
    requires c !in w.nodes.calls
    requires Lookup(IndexOf(w.ctl, node), uuid).Some? ==> MayRead(w.ctl.store, Lookup(IndexOf(w.ctl, node), uuid).value, t.seen)
    ensures var w1 := w.(nodes := DoBeginNode(w, c, node, uuid, false));
            w2 == w1.(nodes := DoReadForNode(w1, c, t.seen))
    ensures w2.ctl == w.ctl && w2.nodes.links == w.nodes.links && w2.nodes.mounts == w.nodes.mounts
    ensures MovedTo(w.nodes, w2.nodes, c, node,
                    if Lookup(IndexOf(w.ctl, node), uuid).None? || t.seen.None? || t.seen.value.status.node != node
                    then NodeDone(false) else UnpublishCheck(t.seen.value))
  {
    hide MayRead, Lookup;
    var w1 := w.(nodes := DoBeginNode(w, c, node, uuid, false));
    w2 := w1.(nodes := DoReadForNode(w1, c, t.seen));
  }

  /** Once a publish has ended, the rest of its script stands still. */
  lemma PublishOver(w: World, c: nat, t: PublishTale)
    requires c in w.nodes.calls && w.nodes.calls[c].pc.NodeDone?
    ensures PublishTail(w, c, t) == w
    ensures w.(nodes := DoConnect(w, c, t.ready, t.zone, t.dev, t.connect)) == w
  {
    hide StatusUpdate, MayRead;
  }

  lemma UnpublishOver(w: World, c: nat, t: UnpublishTale)
    requires c in w.nodes.calls && w.nodes.calls[c].pc.NodeDone?
    ensures UnpublishTail(w, c, t) == w
  {
    hide StatusUpdate, MayRead;
  }

  /** Connecting, or standing still when the record named no image. */
  lemma ConnectStep(w: World, c: nat, node: string, r: Record, t: PublishTale)
    requires c in w.nodes.calls && w.nodes.calls[c] == NodeCall(node,
               if r.spec.image == "" || r.spec.pool == "" then NodeDone(false) else PublishConnect(r))
    ensures var n' := DoConnect(w, c, t.ready, t.zone, t.dev, t.connect);
            var connected := r.spec.image != "" && r.spec.pool != "" && t.ready && t.zone.Some?
                             && !t.connect.Refused? && IdOf(r.spec) in w.ctl.images;
            && n'.mounts == w.nodes.mounts
            && n'.links == (if connected then w.nodes.links + {AttachmentOf(node, r)} else w.nodes.links)
            && MovedTo(w.nodes, n', c, node, if connected && t.connect.Done? && t.dev != ""
                                             then PublishCheck(r, t.dev, t.zone.value) else NodeDone(false))
  {
  }

  lemma MountStep(n: Nodes, c: nat, node: string, r: Record, dev: string, zone: seq<string>, t: PublishTale)
    requires c in n.calls && n.calls[c] == NodeCall(node, PublishCheck(r, dev, zone))
    requires t.check.Missing? ==> AttachmentOf(node, r) !in n.mounts
    ensures var n' := DoMount(DoCheckTarget(n, c, t.check), c, t.mount);
            var a := AttachmentOf(node, r);
            var ok := if t.check.Failed? then false else if a in n.mounts then true
                      else (t.check.Missing? ==> t.check.made) && t.mount;
            && n'.links == n.links && n'.mounts == (if ok then n.mounts + {a} else n.mounts)
            && MovedTo(n, n', c, node, if ok then PublishCommit(r, dev, zone) else PublishUndo(r))
  {
    if AttachmentOf(node, r) in n.mounts {
      assert n.mounts + {AttachmentOf(node, r)} == n.mounts;
    }
  }

  lemma UndoStep(n: Nodes, c: nat, node: string, r: Record, outcome: Outcome)
    requires c in n.calls && n.calls[c] == NodeCall(node, PublishUndo(r))
    ensures var n' := DoUndo(n, c, outcome);
            && n'.mounts == n.mounts
            && n'.links == (if outcome.Refused? then n.links else n.links - {AttachmentOf(node, r)})
            && MovedTo(n, n', c, node, NodeDone(false))
  {
  }

  lemma UndoStands(n: Nodes, c: nat, outcome: Outcome)
    requires c in n.calls && n.calls[c].pc.PublishCommit?
    ensures DoUndo(n, c, outcome) == n
  {
  }

  lemma WriteOver(w: World, c: nat, seen: Option<Record>, ip: string, outcome: Outcome)
    requires c in w.nodes.calls && w.nodes.calls[c].pc.NodeDone?
    ensures DoWriteStatus(w, c, seen, ip, outcome) == w
  {
    hide StatusUpdate, MayRead;
  }

  lemma WriteStep(w: World, c: nat, seen: Option<Record>, ip: string, outcome: Outcome)
    requires c in w.nodes.calls && Committing(w.nodes.calls[c].pc)
    requires MayRead(w.ctl.store, w.nodes.calls[c].pc.record.name, seen)
    ensures var w' := DoWriteStatus(w, c, seen, ip, outcome);
            var status := StatusToWrite(w.nodes.calls[c], ip);
            var written := if seen.None? || outcome.Refused? then None
                           else ApiUpdate(w.ctl.store, seen.value.(status := status));
            && w'.ctl == w.ctl.(store := if written.Some? then written.value else w.ctl.store)
            && w'.nodes.links == w.nodes.links && w'.nodes.mounts == w.nodes.mounts
            && c in w'.nodes.calls && w'.nodes.calls[c].pc == NodeDone(written.Some? && outcome.Done?)
  {
    hide ApiUpdate, MayRead, PublishedStatus;
  }

  lemma UnmountStep(n: Nodes, c: nat, node: string, r: Record, t: UnpublishTale)
    requires c in n.calls && n.calls[c] == NodeCall(node, UnpublishCheck(r))
    requires t.check.Missing? ==> AttachmentOf(node, r) !in n.mounts
    ensures var n' := DoRemoveTarget(DoUnmount(n, c, t.check, t.unmount), c, t.removed);
            var a := AttachmentOf(node, r);
            var ok := !t.check.Failed? && (a in n.mounts ==> t.unmount.Done?) && t.removed;
            && n'.links == n.links
            && n'.mounts == (if t.check.Failed? || t.unmount.Refused? then n.mounts else n.mounts - {a})
            && MovedTo(n, n', c, node, if ok then UnpublishDetach(r) else NodeDone(false))
  {
    if AttachmentOf(node, r) !in n.mounts {
      assert n.mounts - {AttachmentOf(node, r)} == n.mounts;
    }
  }

  lemma DetachStep(n: Nodes, c: nat, node: string, r: Record, outcome: Outcome)
    requires c in n.calls && n.calls[c] == NodeCall(node, UnpublishDetach(r))
    ensures var n' := DoDetach(n, c, outcome);
            && n'.mounts == n.mounts
            && n'.links == (if outcome.Refused? then n.links else n.links - {AttachmentOf(node, r)})
            && MovedTo(n, n', c, node, if outcome.Done? then UnpublishCommit(r) else NodeDone(false))
  {
  }

  lemma DetachStands(n: Nodes, c: nat, outcome: Outcome)
    requires c in n.calls && n.calls[c].pc.NodeDone?
    ensures DoDetach(n, c, outcome) == n
  {
  }
}
