/**
 Who may unpublish: in serialised runs only the node that the stored record names gets past the
 admission of an unpublish, and any other node's unpublish changes nothing.
 */
module Admission {
  import opened Records
  import opened Lifecycle
  import opened Soundness
  import opened Ownership
  import opened Guarantees
  import opened HolderStatus

  /** An unpublish that was let in works for the recorded holder, whose record stays. */
  ghost predicate Admitted(w: World) {
    forall c | c in w.nodes.calls && Unpublishing(w.nodes.calls[c].pc) ::
      AdmittedCall(w.ctl.store, w.nodes.calls[c])
  }

  predicate AdmittedCall(s: Store, call: NodeCall)
    requires Unpublishing(call.pc)
  {
    call.pc.record.status.node == call.node && (call.node != "" ==> call.pc.record.name in s.objects)
  }

  lemma FreshCopy(w: World, c: nat)
    requires SerialState(w) && c in w.nodes.calls
    ensures CopyFresh(w.ctl, w.nodes.calls[c])
  {
  }

  /** A record whose holder is at work on it is not taken. */
  lemma AdmittedStays(w: World, s: Step, c: nat)
    requires Sound(w.ctl) && SerialState(w) && c in w.nodes.calls && Unpublishing(w.nodes.calls[c].pc)
    requires AdmittedCall(w.ctl.store, w.nodes.calls[c])
    ensures AdmittedCall(Next(w, s).ctl.store, w.nodes.calls[c])
  {
    hide Next, Sound, SerialState;
    FreshCopy(w, c);
    var call := w.nodes.calls[c];
    if call.node != "" {
      HeldIsNotTaken(w, s, call.pc.record.name);
    }
  }

  lemma KeptCallsAdmitted(w: World, s: Step)
    requires Sound(w.ctl) && SerialState(w) && Admitted(w) && KeepsRecords(w.nodes, Next(w, s).nodes)
    ensures Admitted(Next(w, s))
  {
    hide Next, Sound, SerialState, AdmittedCall;
    forall c | c in w.nodes.calls && Unpublishing(w.nodes.calls[c].pc)
      ensures AdmittedCall(Next(w, s).ctl.store, w.nodes.calls[c])
    {
      AdmittedStays(w, s, c);
    }
    SameCallAdmitted(w, Next(w, s));
  }

  lemma SameCallAdmitted(w: World, w': World)
    requires KeepsRecords(w.nodes, w'.nodes)
    requires forall c | c in w.nodes.calls && Unpublishing(w.nodes.calls[c].pc) ::
               AdmittedCall(w'.ctl.store, w.nodes.calls[c])
    ensures Admitted(w')
  {
    forall c | c in w'.nodes.calls && Unpublishing(w'.nodes.calls[c].pc)
      ensures AdmittedCall(w'.ctl.store, w'.nodes.calls[c])
    {
      assert AdmittedCall(w'.ctl.store, w.nodes.calls[c]);
    }
  }

  lemma ReadAdmits(w: World, c: nat, seen: Option<Record>)
    requires Admitted(w) && Serialised(w, ByNode(ReadForNode(c, seen)))
    ensures Admitted(w.(nodes := DoReadForNode(w, c, seen)))
  {
    var w' := w.(nodes := DoReadForNode(w, c, seen));
    forall d | d in w'.nodes.calls && Unpublishing(w'.nodes.calls[d].pc)
      ensures AdmittedCall(w'.ctl.store, w'.nodes.calls[d])
    {
      if d != c || Unpublishing(w.nodes.calls[d].pc) {
        assert AdmittedCall(w.ctl.store, w.nodes.calls[d]);
      }
    }
  }

  lemma WriteEndsCall(w: World, c: nat, seen: Option<Record>, ip: string, outcome: Outcome)
    ensures var n' := DoWriteStatus(w, c, seen, ip, outcome).nodes;
            forall d | d in n'.calls && Unpublishing(n'.calls[d].pc) :: d in w.nodes.calls && n'.calls[d] == w.nodes.calls[d]
  {
    hide StatusUpdate, MayRead;
  }

  lemma WriteKeepsAdmitted(w: World, c: nat, seen: Option<Record>, ip: string, outcome: Outcome)
    requires Sound(w.ctl) && SerialState(w) && Admitted(w)
    ensures Admitted(DoWriteStatus(w, c, seen, ip, outcome))
  {
    hide Sound, SerialState, AdmittedCall, DoWriteStatus;
    var s := ByNode(WriteStatus(c, seen, ip, outcome));
    forall d | d in w.nodes.calls && Unpublishing(w.nodes.calls[d].pc)
      ensures AdmittedCall(DoWriteStatus(w, c, seen, ip, outcome).ctl.store, w.nodes.calls[d])
    {
      AdmittedStays(w, s, d);
    }
    WriteEndsCall(w, c, seen, ip, outcome);
  }

  lemma NextAdmitted(w: World, s: Step)
    requires Sound(w.ctl) && SerialState(w) && Admitted(w) && Serialised(w, s)
    ensures Admitted(Next(w, s))
  {
    hide Sound, SerialState, Admitted, NextControl, DoBeginNode, DoReadForNode, DoConnect, DoCheckTarget,
         DoMount, DoUndo, DoUnmount, DoRemoveTarget, DoDetach, DoWriteStatus, DoNodeCrash, Serialised;
    match s {
      case ByNode(ReadForNode(c, seen)) => ReadAdmits(w, c, seen);
      case ByNode(WriteStatus(c, seen, ip, outcome)) => WriteKeepsAdmitted(w, c, seen, ip, outcome);
      case ByNode(NodeCrash(node)) =>
        CrashKeepsRecords(w, node);
        KeptCallsAdmitted(w, s);
      case _ => KeptCallsAdmitted(w, s);
    }
  }

  lemma {:induction false} RunAdmitted(classes: Classes, steps: seq<Step>)
    requires Permitted(classes, steps) && SerialisedRun(Init(classes), steps)
    ensures Admitted(Run(Init(classes), steps))
  {
    hide Next, Sound, Orderly, SerialState;
    if steps != [] {
      var n := |steps| - 1;
      SerialPrefix(classes, steps, n);
      RunAdmitted(classes, steps[..n]);
      RunSerial(classes, steps[..n]);
      RunSound(classes, steps[..n]);
      NextAdmitted(Run(Init(classes), steps[..n]), steps[n]);
    }
  }

  /** A shorter run of a permitted, serialised one is one. */
  lemma SerialPrefix(classes: Classes, steps: seq<Step>, n: nat)
    requires n < |steps| && Permitted(classes, steps) && SerialisedRun(Init(classes), steps)
    ensures Permitted(classes, steps[..n]) && SerialisedRun(Init(classes), steps[..n])
    ensures Serialised(Run(Init(classes), steps[..n]), steps[n])
  {
    hide Run;
    LawfulPrefix(Init(classes), steps, n);
    forall i | 0 <= i < n ensures Serialised(Run(Init(classes), steps[..n][..i]), steps[..n][i]) {
      assert steps[..n][..i] == steps[..i];
    }
  }

  predicate Holds(s: Store, name: string, node: string) {
    name in s.objects && s.objects[name].status.node == node
  }

  /**
   In every serialised run, an unpublish past its admission works for the node that the stored
   record names at that very moment.
   */
  lemma UnpublisherHolds(classes: Classes, steps: seq<Step>, c: nat)
    requires Permitted(classes, steps) && SerialisedRun(Init(classes), steps)
    requires c in Run(Init(classes), steps).nodes.calls && Unpublishing(Run(Init(classes), steps).nodes.calls[c].pc)
    requires Run(Init(classes), steps).nodes.calls[c].node != ""
    ensures var call := Run(Init(classes), steps).nodes.calls[c];
            Holds(After(classes, steps).store, call.pc.record.name, call.node)
  {
    hide Next, Run, SerialState;
    RunAdmitted(classes, steps);
    RunSerial(classes, steps);
    FreshCopy(Run(Init(classes), steps), c);
    assert AdmittedCall(After(classes, steps).store, Run(Init(classes), steps).nodes.calls[c]);
  }

  /** The volume that an unpublish call is about. */
  function VolumeOf(pc: NodePc): string
    requires pc.UnpublishRead? || Unpublishing(pc)
  {
    if pc.UnpublishRead? then pc.name else pc.record.name
  }

  /**
   In every serialised run, no step of an unpublish by a node that the stored record does not name
   changes anything but the call itself, which ends in failure as soon as it has read the record.
   */
  lemma NonHolderChangesNothing(classes: Classes, steps: seq<Step>, t: NodeStep)
    requires Permitted(classes, steps) && SerialisedRun(Init(classes), steps)
    requires Serialised(Run(Init(classes), steps), ByNode(t))
    requires !t.NodeCrash? && t.c in Run(Init(classes), steps).nodes.calls
    requires var call := Run(Init(classes), steps).nodes.calls[t.c];
             && call.node != "" && (call.pc.UnpublishRead? || Unpublishing(call.pc))
             && !Holds(After(classes, steps).store, VolumeOf(call.pc), call.node)
    ensures var w := Run(Init(classes), steps);
            var w' := Next(w, ByNode(t));
            && w.nodes.calls[t.c].pc.UnpublishRead?
            && (w' == w || w' == w.(nodes := GotoNode(w.nodes, t.c, NodeDone(false))))
            && (t.ReadForNode? && MayRead(w.ctl.store, w.nodes.calls[t.c].pc.name, t.seen) ==>
                  w'.nodes.calls[t.c].pc == NodeDone(false))
  {
    hide Run, StatusUpdate, Permitted, SerialisedRun;
    if Unpublishing(Run(Init(classes), steps).nodes.calls[t.c].pc) {
      UnpublisherHolds(classes, steps, t.c);
    }
  }
}
