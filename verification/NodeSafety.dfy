/**
 What the nodes keep: a connected device's image exists, a mounted device is connected, and what a
 successful publish or unpublish has achieved. Other calls of the machine interleave freely.
 */
module NodeSafety {
  import opened Records
  import opened Lifecycle
  import opened Soundness
  import opened Ownership
  import opened Guarantees

  function Target(call: NodeCall): Attachment
    requires Holding(call.pc)
  {
    AttachmentOf(call.node, call.pc.record)
  }

  /**
   The hypotheses on node calls: on one node, calls on one volume do not overlap, and checking the
   target path of a mounted volume does not fail during publish.
   */
  predicate NodeRules(w: World, t: NodeStep) {
    match t
    case ReadForNode(c, seen) =>
      c in w.nodes.calls && seen.Some? ==>
        forall d | d in w.nodes.calls && Holding(w.nodes.calls[d].pc) ::
          Target(w.nodes.calls[d]) != AttachmentOf(w.nodes.calls[c].node, seen.value)
    case CheckTarget(c, check) =>
      c in w.nodes.calls && w.nodes.calls[c].pc.PublishCheck? && check.Failed? ==>
        Target(w.nodes.calls[c]) !in w.nodes.mounts
    case _ => true
  }

  predicate Attentive(w: World, s: Step) {
    s.ByNode? ==> NodeRules(w, s.t)
  }

  // ---------------------------------------------------------------- images under connected devices

  ghost predicate LinksHaveImages(w: World) {
    forall l | l in w.nodes.links :: l.id in w.ctl.images
  }

  lemma NextLinks(w: World, s: Step)
    ensures forall l | l in Next(w, s).nodes.links && l !in w.nodes.links :: l.id in Next(w, s).ctl.images
    ensures s.ByControl? ==> Next(w, s).nodes == w.nodes
  {
    hide NextControl, StatusUpdate, CanWrite, DoCrash, MayRead;
  }

  lemma NextLinksHaveImages(w: World, s: Step)
    requires LinksHaveImages(w)
    ensures LinksHaveImages(Next(w, s))
  {
    hide Next;
    NextLinks(w, s);
    NextImages(w, s);
  }

  /** In every run whatsoever, a connected device's image exists. */
  lemma {:induction false} ConnectedHasImage(classes: Classes, steps: seq<Step>)
    ensures LinksHaveImages(Run(Init(classes), steps))
  {
    hide Next;
    if steps != [] {
      var n := |steps| - 1;
      ConnectedHasImage(classes, steps[..n]);
      NextLinksHaveImages(Run(Init(classes), steps[..n]), steps[n]);
    }
  }

  /** On an image in use the image step of a DeleteVolume ends the call in failure and changes nothing else. */
  lemma DeleteOfWatchedImageFails(classes: Classes, steps: seq<Step>, c: nat, a: Attempt)
    requires Permitted(classes, steps)
    requires c in After(classes, steps).calls && After(classes, steps).calls[c].pc.DeleteImage?
    requires Watched(Run(Init(classes), steps).nodes.links, IdOf(After(classes, steps).calls[c].pc.record.spec))
    ensures Next(Run(Init(classes), steps), ByControl(DropImage(c, a))).ctl
         == Goto(After(classes, steps), c, Finished(false))
  {
    hide Run, Orderly, Sound, ResolvePool;
    RunOrderly(classes, steps);
    ConnectedHasImage(classes, steps);
    var k := After(classes, steps);
    if ResolvePool(k.classes, k.calls[c].pc.record.spec.rbdSc, a).Some? {
      DropAddressesRecord(k, c, a);
    }
  }

  // ---------------------------------------------------------------- mounts under connected devices

  predicate MustBeUnmounted(pc: NodePc) {
    pc.PublishMount? || pc.PublishUndo? || pc.UnpublishRemove? || pc.UnpublishDetach? || pc.UnpublishCommit?
  }

  /** Where a call stands, its own device is connected and mounted as far as it needs. */
  ghost predicate CallSafe(n: Nodes, call: NodeCall) {
    Holding(call.pc) ==>
      var a := Target(call);
      && (call.pc.PublishCheck? || call.pc.PublishMount? || call.pc.PublishCommit? ==> a in n.links)
      && (call.pc.PublishCommit? ==> a in n.mounts)
      && (MustBeUnmounted(call.pc) ==> a !in n.mounts)
      && (call.pc.UnpublishCommit? ==> a !in n.links)
  }

  ghost predicate NodesSafe(n: Nodes) {
    && n.mounts <= n.links
    && (forall c | c in n.calls :: CallSafe(n, n.calls[c]))
    && (forall c, d | c in n.calls && d in n.calls && c != d && Holding(n.calls[c].pc) && Holding(n.calls[d].pc) ::
          Target(n.calls[c]) != Target(n.calls[d]))
  }

  /** One call moves on, having touched no device but its own. */
  lemma OneCallMoves(n: Nodes, c: nat, pc: NodePc, n': Nodes)
    requires NodesSafe(n) && c in n.calls
    requires n' == n.(links := n'.links, mounts := n'.mounts, calls := n.calls[c := n.calls[c].(pc := pc)])
    requires CallSafe(n', n'.calls[c])
    requires Holding(n.calls[c].pc) ==>
               && (forall a | a != Target(n.calls[c]) ::
                     (a in n.links <==> a in n'.links) && (a in n.mounts <==> a in n'.mounts))
               && (Target(n.calls[c]) in n'.mounts ==> Target(n.calls[c]) in n'.links)
    requires !Holding(n.calls[c].pc) ==> n'.links == n.links && n'.mounts == n.mounts
    requires Holding(pc) ==>
               (Holding(n.calls[c].pc) && Target(n.calls[c]) == Target(n'.calls[c]))
               || forall d | d in n.calls && d != c && Holding(n.calls[d].pc) :: Target(n.calls[d]) != Target(n'.calls[c])
    ensures NodesSafe(n')
  {
    forall d | d in n'.calls ensures CallSafe(n', n'.calls[d]) {
      if d != c {
        assert CallSafe(n, n.calls[d]);
      }
    }
  }

  lemma NewCallSafe(n: Nodes, c: nat, call: NodeCall)
    requires NodesSafe(n) && c !in n.calls && !Holding(call.pc)
    ensures NodesSafe(n.(calls := n.calls[c := call]))
  {
    var n' := n.(calls := n.calls[c := call]);
    forall d | d in n'.calls ensures CallSafe(n', n'.calls[d]) {
      if d != c {
        assert CallSafe(n, n.calls[d]);
      }
    }
  }

  /** Moving on without touching any device. */
  lemma QuietMove(n: Nodes, c: nat, pc: NodePc)
    requires NodesSafe(n) && c in n.calls && CallSafe(n, n.calls[c].(pc := pc))
    requires Holding(pc) ==>
               (Holding(n.calls[c].pc) && pc.record == n.calls[c].pc.record)
               || forall d | d in n.calls && d != c && Holding(n.calls[d].pc) ::
                    Target(n.calls[d]) != AttachmentOf(n.calls[c].node, pc.record)
    ensures NodesSafe(GotoNode(n, c, pc))
  {
    var n' := GotoNode(n, c, pc);
    assert CallSafe(n', n'.calls[c]);
    OneCallMoves(n, c, pc, n');
  }

  lemma NodeOver(n: Nodes, c: nat, ok: bool)
    requires NodesSafe(n) && c in n.calls
    ensures NodesSafe(GotoNode(n, c, NodeDone(ok)))
  {
    QuietMove(n, c, NodeDone(ok));
  }

  lemma ReadForNodeSafe(w: World, c: nat, seen: Option<Record>)
    requires NodesSafe(w.nodes) && NodeRules(w, ReadForNode(c, seen))
    ensures NodesSafe(DoReadForNode(w, c, seen))
  {
    hide MayRead;
    if c in w.nodes.calls {
      hide NodesSafe;
      NodeOver(w.nodes, c, false);
      if seen.Some? && w.nodes.calls[c].pc.PublishRead? {
        QuietMove(w.nodes, c, PublishConnect(seen.value));
      } else if seen.Some? && w.nodes.calls[c].pc.UnpublishRead? {
        QuietMove(w.nodes, c, UnpublishCheck(seen.value));
      }
    }
  }

  lemma ConnectSafe(w: World, c: nat, ready: bool, zone: Option<seq<string>>, dev: string, outcome: Outcome)
    requires NodesSafe(w.nodes)
    ensures NodesSafe(DoConnect(w, c, ready, zone, dev, outcome))
  {
    var n, n' := w.nodes, DoConnect(w, c, ready, zone, dev, outcome);
    if c in n.calls && n.calls[c].pc.PublishConnect? {
      assert CallSafe(n, n.calls[c]);
      OneCallMoves(n, c, n'.calls[c].pc, n');
    }
  }

  lemma CheckTargetSafe(w: World, c: nat, check: Check)
    requires NodesSafe(w.nodes) && NodeRules(w, CheckTarget(c, check))
    ensures NodesSafe(DoCheckTarget(w.nodes, c, check))
  {
    var n := w.nodes;
    if c in n.calls && n.calls[c].pc.PublishCheck? {
      assert CallSafe(n, n.calls[c]);
      var n' := DoCheckTarget(n, c, check);
      QuietMove(n, c, n'.calls[c].pc);
      assert n' == GotoNode(n, c, n'.calls[c].pc);
    }
  }

  lemma MountSafe(n: Nodes, c: nat, ok: bool)
    requires NodesSafe(n)
    ensures NodesSafe(DoMount(n, c, ok))
  {
    if c in n.calls && n.calls[c].pc.PublishMount? {
      assert CallSafe(n, n.calls[c]);
      OneCallMoves(n, c, DoMount(n, c, ok).calls[c].pc, DoMount(n, c, ok));
    }
  }

  lemma UndoSafe(n: Nodes, c: nat, outcome: Outcome)
    requires NodesSafe(n)
    ensures NodesSafe(DoUndo(n, c, outcome))
  {
    if c in n.calls && n.calls[c].pc.PublishUndo? {
      assert CallSafe(n, n.calls[c]);
      OneCallMoves(n, c, NodeDone(false), DoUndo(n, c, outcome));
    }
  }

  lemma UnmountSafe(n: Nodes, c: nat, check: Check, outcome: Outcome)
    requires NodesSafe(n)
    ensures NodesSafe(DoUnmount(n, c, check, outcome))
  {
    if c in n.calls && n.calls[c].pc.UnpublishCheck? {
      assert CallSafe(n, n.calls[c]);
      var n' := DoUnmount(n, c, check, outcome);
      if n' != n {
        OneCallMoves(n, c, n'.calls[c].pc, n');
      }
    }
  }

  lemma RemoveTargetSafe(n: Nodes, c: nat, ok: bool)
    requires NodesSafe(n)
    ensures NodesSafe(DoRemoveTarget(n, c, ok))
  {
    if c in n.calls && n.calls[c].pc.UnpublishRemove? {
      assert CallSafe(n, n.calls[c]);
      QuietMove(n, c, DoRemoveTarget(n, c, ok).calls[c].pc);
    }
  }

  lemma DetachSafe(n: Nodes, c: nat, outcome: Outcome)
    requires NodesSafe(n)
    ensures NodesSafe(DoDetach(n, c, outcome))
  {
    if c in n.calls && n.calls[c].pc.UnpublishDetach? {
      assert CallSafe(n, n.calls[c]);
      OneCallMoves(n, c, DoDetach(n, c, outcome).calls[c].pc, DoDetach(n, c, outcome));
    }
  }

  lemma CommitsDoNotMatter(n: Nodes, commits: seq<Commit>)
    requires NodesSafe(n)
    ensures NodesSafe(n.(commits := commits))
  {
    var n' := n.(commits := commits);
    forall d | d in n'.calls ensures CallSafe(n', n'.calls[d]) {
      assert CallSafe(n, n.calls[d]);
    }
  }

  lemma WriteStatusSafe(w: World, c: nat, seen: Option<Record>, ip: string, outcome: Outcome)
    requires NodesSafe(w.nodes)
    ensures NodesSafe(DoWriteStatus(w, c, seen, ip, outcome).nodes)
  {
    hide StatusUpdate, MayRead, NodesSafe;
    if CanWrite(w, c, seen) {
      var n' := DoWriteStatus(w, c, seen, ip, outcome).nodes;
      CommitsDoNotMatter(w.nodes, n'.commits);
      NodeOver(w.nodes, c, false);
      NodeOver(w.nodes.(commits := n'.commits), c, outcome.Done?);
    }
  }

  lemma NodeCrashSafe(w: World, node: string)
    requires NodesSafe(w.nodes)
    ensures NodesSafe(DoNodeCrash(w, node).nodes)
  {
    hide DoCrash;
    var n, n' := w.nodes, DoNodeCrash(w, node).nodes;
    forall d | d in n'.calls ensures CallSafe(n', n'.calls[d]) {
      assert CallSafe(n, n.calls[d]);
    }
  }

  lemma BeginNodeSafe(w: World, c: nat, node: string, uuid: string, publish: bool)
    requires NodesSafe(w.nodes)
    ensures NodesSafe(DoBeginNode(w, c, node, uuid, publish))
  {
    hide NodesSafe;
    if c !in w.nodes.calls {
      NewCallSafe(w.nodes, c, DoBeginNode(w, c, node, uuid, publish).calls[c]);
    }
  }

  lemma NextNodesSafe(w: World, s: Step)
    requires NodesSafe(w.nodes) && Attentive(w, s)
    ensures NodesSafe(Next(w, s).nodes)
  {
    hide NodesSafe, NextControl, DoBeginNode, DoReadForNode, DoConnect, DoCheckTarget, DoMount, DoUndo, DoUnmount,
         DoRemoveTarget, DoDetach, DoWriteStatus, DoNodeCrash;
    match s
    case ByControl(_) =>
    case ByNode(BeginNode(c, node, uuid, publish)) => BeginNodeSafe(w, c, node, uuid, publish);
    case ByNode(ReadForNode(c, seen)) => ReadForNodeSafe(w, c, seen);
    case ByNode(Connect(c, ready, zone, dev, outcome)) => ConnectSafe(w, c, ready, zone, dev, outcome);
    case ByNode(CheckTarget(c, check)) => CheckTargetSafe(w, c, check);
    case ByNode(Mount(c, ok)) => MountSafe(w.nodes, c, ok);
    case ByNode(Undo(c, outcome)) => UndoSafe(w.nodes, c, outcome);
    case ByNode(Unmount(c, check, outcome)) => UnmountSafe(w.nodes, c, check, outcome);
    case ByNode(RemoveTarget(c, ok)) => RemoveTargetSafe(w.nodes, c, ok);
    case ByNode(Detach(c, outcome)) => DetachSafe(w.nodes, c, outcome);
    case ByNode(WriteStatus(c, seen, ip, outcome)) => WriteStatusSafe(w, c, seen, ip, outcome);
    case ByNode(NodeCrash(node)) => NodeCrashSafe(w, node);
  }

  ghost predicate AttentiveRun(w: World, steps: seq<Step>) {
    forall i | 0 <= i < |steps| :: Attentive(Run(w, steps[..i]), steps[i])
  }

  lemma {:induction false} RunNodesSafe(classes: Classes, steps: seq<Step>)
    requires AttentiveRun(Init(classes), steps)
    ensures NodesSafe(Run(Init(classes), steps).nodes)
  {
    hide Next;
    if steps != [] {
      var n := |steps| - 1;
      forall i | 0 <= i < n ensures Attentive(Run(Init(classes), steps[..n][..i]), steps[..n][i]) {
        assert steps[..n][..i] == steps[..i];
      }
      RunNodesSafe(classes, steps[..n]);
      NextNodesSafe(Run(Init(classes), steps[..n]), steps[n]);
    }
  }

  /** On every node, for every volume and at every moment of every such run, mounted implies connected. */
  lemma MountedIsConnected(classes: Classes, steps: seq<Step>, a: Attachment)
    requires AttentiveRun(Init(classes), steps) && a in Run(Init(classes), steps).nodes.mounts
    ensures a in Run(Init(classes), steps).nodes.links && a.id in After(classes, steps).images
  {
    hide Next, Run;
    RunNodesSafe(classes, steps);
    ConnectedHasImage(classes, steps);
  }

  /** The step disconnects a device under its mount, or mounts one that is not connected. */
  predicate Strands(w: World, s: Step) {
    && s.ByNode?
    && (match s.t
        case Undo(c, outcome) =>
          c in w.nodes.calls && w.nodes.calls[c].pc.PublishUndo? && !outcome.Refused?
          && Target(w.nodes.calls[c]) in w.nodes.mounts
        case Detach(c, outcome) =>
          c in w.nodes.calls && w.nodes.calls[c].pc.UnpublishDetach? && !outcome.Refused?
          && Target(w.nodes.calls[c]) in w.nodes.mounts
        case Mount(c, ok) =>
          c in w.nodes.calls && w.nodes.calls[c].pc.PublishMount? && ok
          && Target(w.nodes.calls[c]) !in w.nodes.links
        case _ => false)
  }

  lemma UndoStrandsIff(n: Nodes, c: nat, outcome: Outcome)
    requires n.mounts <= n.links
    ensures DoUndo(n, c, outcome).mounts <= DoUndo(n, c, outcome).links <==>
            (c in n.calls && n.calls[c].pc.PublishUndo? ==> outcome.Refused? || Target(n.calls[c]) !in n.mounts)
  {
    if c in n.calls && n.calls[c].pc.PublishUndo? {
      assert Target(n.calls[c]) !in n.links - {Target(n.calls[c])};
    }
  }

  lemma DetachStrandsIff(n: Nodes, c: nat, outcome: Outcome)
    requires n.mounts <= n.links
    ensures DoDetach(n, c, outcome).mounts <= DoDetach(n, c, outcome).links <==>
            (c in n.calls && n.calls[c].pc.UnpublishDetach? ==> outcome.Refused? || Target(n.calls[c]) !in n.mounts)
  {
    if c in n.calls && n.calls[c].pc.UnpublishDetach? {
      assert Target(n.calls[c]) !in n.links - {Target(n.calls[c])};
    }
  }

  lemma MountStrandsIff(n: Nodes, c: nat, ok: bool)
    requires n.mounts <= n.links
    ensures DoMount(n, c, ok).mounts <= DoMount(n, c, ok).links <==>
            (c in n.calls && n.calls[c].pc.PublishMount? ==> !ok || Target(n.calls[c]) in n.links)
  {
    if c in n.calls && n.calls[c].pc.PublishMount? {
      assert Target(n.calls[c]) in n.mounts + {Target(n.calls[c])};
    }
  }

  /** Every other step leaves mounts and connections alone, adds a connection or takes a mount away. */
  lemma OtherStepStrandsNone(w: World, s: Step)
    requires w.nodes.mounts <= w.nodes.links && !(s.ByNode? && (s.t.Undo? || s.t.Detach? || s.t.Mount?))
    ensures Next(w, s).nodes.mounts <= Next(w, s).nodes.links
  {
    hide NextControl, StatusUpdate, MayRead, Lookup, DoCrash;
  }

  /**
   Exactly which steps break that mounted implies connected, whatever calls overlap and whatever was
   checked: an effective disconnect of a mounted device, and a mount of an unconnected one.
   */
  lemma MountsStayConnectedIff(w: World, s: Step)
    requires w.nodes.mounts <= w.nodes.links
    ensures Next(w, s).nodes.mounts <= Next(w, s).nodes.links <==> !Strands(w, s)
  {
    if s.ByNode? && (s.t.Undo? || s.t.Detach? || s.t.Mount?) {
      hide DoUndo, DoDetach, DoMount;
      match s.t {
        case Undo(c, outcome) => UndoStrandsIff(w.nodes, c, outcome);
        case Detach(c, outcome) => DetachStrandsIff(w.nodes, c, outcome);
        case Mount(c, ok) => MountStrandsIff(w.nodes, c, ok);
      }
    } else {
      OtherStepStrandsNone(w, s);
    }
  }

  /**
   Exactly when a publish that is checking its target endangers its mount: the check fails, the
   volume is mounted, and the rollback's disconnect takes effect.
   */
  lemma FailedCheckDisconnectsMounted(n: Nodes, c: nat, check: Check, undo: Outcome)
    requires NodesSafe(n) && c in n.calls && n.calls[c].pc.PublishCheck?
    ensures var n' := DoUndo(DoCheckTarget(n, c, check), c, undo);
            var a := Target(n.calls[c]);
            (a in n'.mounts && a !in n'.links) <==> (check.Failed? && a in n.mounts && !undo.Refused?)
  {
    assert CallSafe(n, n.calls[c]);
  }
}
