/**
 Whole node calls as uninterrupted stretches of steps.
 */
module NodeCalls {
  import opened Records
  import opened Lifecycle

  /** What the outside answers during one NodePublishVolume. */
  datatype PublishTale = PublishTale(seen: Option<Record>, ready: bool, zone: Option<seq<string>>, dev: string,
                                     connect: Outcome, check: Check, mount: bool, undo: Outcome,
                                     again: Option<Record>, ip: string, write: Outcome)

  datatype UnpublishTale = UnpublishTale(seen: Option<Record>, check: Check, unmount: Outcome, removed: bool,
                                         detach: Outcome, again: Option<Record>, write: Outcome)

  /** From the target path on, with the rollback or the commit that is deferred to the end. */
  function PublishTail(w: World, c: nat, t: PublishTale): World {
    DoWriteStatus(w.(nodes := DoUndo(DoMount(DoCheckTarget(w.nodes, c, t.check), c, t.mount), c, t.undo)),
                  c, t.again, t.ip, t.write)
  }

  function PublishRun(w: World, c: nat, node: string, uuid: string, t: PublishTale): World {
    var w1 := w.(nodes := DoBeginNode(w, c, node, uuid, true));
    var w2 := w1.(nodes := DoReadForNode(w1, c, t.seen));
    PublishTail(w2.(nodes := DoConnect(w2, c, t.ready, t.zone, t.dev, t.connect)), c, t)
  }

  function PublishSteps(c: nat, node: string, uuid: string, t: PublishTale): seq<Step> {
    [ByNode(BeginNode(c, node, uuid, true)), ByNode(ReadForNode(c, t.seen)),
     ByNode(Connect(c, t.ready, t.zone, t.dev, t.connect)), ByNode(CheckTarget(c, t.check)),
     ByNode(Mount(c, t.mount)), ByNode(Undo(c, t.undo)), ByNode(WriteStatus(c, t.again, t.ip, t.write))]
  }

  function UnpublishTail(w: World, c: nat, t: UnpublishTale): World {
    DoWriteStatus(w.(nodes := DoDetach(DoRemoveTarget(DoUnmount(w.nodes, c, t.check, t.unmount), c, t.removed),
                                       c, t.detach)),
                  c, t.again, "", t.write)
  }

  function UnpublishRun(w: World, c: nat, node: string, uuid: string, t: UnpublishTale): World {
    var w1 := w.(nodes := DoBeginNode(w, c, node, uuid, false));
    UnpublishTail(w1.(nodes := DoReadForNode(w1, c, t.seen)), c, t)
  }

  function UnpublishSteps(c: nat, node: string, uuid: string, t: UnpublishTale): seq<Step> {
    [ByNode(BeginNode(c, node, uuid, false)), ByNode(ReadForNode(c, t.seen)), ByNode(Unmount(c, t.check, t.unmount)),
     ByNode(RemoveTarget(c, t.removed)), ByNode(Detach(c, t.detach)), ByNode(WriteStatus(c, t.again, "", t.write))]
  }

  lemma RunPrefix(w: World, steps: seq<Step>, i: nat)
    requires i < |steps|
    ensures Run(w, steps[..i + 1]) == Next(Run(w, steps[..i]), steps[i])
  {
    hide Next;
    assert steps[..i + 1][..i] == steps[..i];
  }

  lemma PublishRunIsRun(w: World, c: nat, node: string, uuid: string, t: PublishTale)
    ensures Run(w, PublishSteps(c, node, uuid, t)) == PublishRun(w, c, node, uuid, t)
  {
    hide Run, DoBeginNode, DoReadForNode, DoConnect, DoCheckTarget, DoMount, DoUndo, DoWriteStatus;
    var s := PublishSteps(c, node, uuid, t);
    RunNone(w);
    assert s[..0] == [] && s[..7] == s;
    RunPrefix(w, s, 0);
    RunPrefix(w, s, 1);
    RunPrefix(w, s, 2);
    RunPrefix(w, s, 3);
    RunPrefix(w, s, 4);
    RunPrefix(w, s, 5);
    RunPrefix(w, s, 6);
  }

  lemma UnpublishRunIsRun(w: World, c: nat, node: string, uuid: string, t: UnpublishTale)
    ensures Run(w, UnpublishSteps(c, node, uuid, t)) == UnpublishRun(w, c, node, uuid, t)
  {
    hide Run, DoBeginNode, DoReadForNode, DoUnmount, DoRemoveTarget, DoDetach, DoWriteStatus;
    var s := UnpublishSteps(c, node, uuid, t);
    RunNone(w);
    assert s[..0] == [] && s[..6] == s;
    RunPrefix(w, s, 0);
    RunPrefix(w, s, 1);
    RunPrefix(w, s, 2);
    RunPrefix(w, s, 3);
    RunPrefix(w, s, 4);
    RunPrefix(w, s, 5);
  }

  lemma RunNone(w: World)
    ensures Run(w, []) == w
  {
  }

  lemma NodeStepCalls(w: World, t: NodeStep, c: nat)
    requires t.BeginNode? ==> t.c == c
    ensures forall d | d in Next(w, ByNode(t)).nodes.calls :: d in w.nodes.calls || d == c
  {
    hide StatusUpdate, MayRead, DoCrash, Lookup;
  }

  /** Node steps that begin no call but `c` add no other. */
  lemma {:induction false} OnlyCall(w: World, steps: seq<Step>, c: nat)
    requires forall i | 0 <= i < |steps| :: steps[i].ByNode? && (steps[i].t.BeginNode? ==> steps[i].t.c == c)
    ensures forall d | d in Run(w, steps).nodes.calls :: d in w.nodes.calls || d == c
  {
    hide Next;
    if steps != [] {
      var n := |steps| - 1;
      OnlyCall(w, steps[..n], c);
      NodeStepCalls(Run(w, steps[..n]), steps[n].t, c);
    }
  }
}
