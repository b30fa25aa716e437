/**
 Who holds a volume, as its record tells: what a successful publish and unpublish leave recorded,
 that nothing else changes the recorded node, and where `Prenode` comes from.
 */
module HolderStatus {
  import opened Records
  import opened Lifecycle
  import opened Soundness
  import opened Ownership
  import opened Guarantees
  import opened NodeSafety
  import opened Copies

  /** The step with which a node call ends in success. */
  predicate Succeeds(w: World, s: Step) {
    && s.ByNode? && s.t.WriteStatus? && s.t.c in w.nodes.calls && Committing(w.nodes.calls[s.t.c].pc)
    && s.t.c in Next(w, s).nodes.calls && Next(w, s).nodes.calls[s.t.c].pc == NodeDone(true)
  }

  lemma SuccessWrites(w: World, s: Step)
    requires ValidStore(w.ctl.store) && Succeeds(w, s)
    ensures var call := w.nodes.calls[s.t.c];
            var store' := Next(w, s).ctl.store;
            && call.pc.record.name in store'.objects
            && store'.objects[call.pc.record.name].status == StatusToWrite(call, s.t.ip)
            && Next(w, s).nodes.links == w.nodes.links && Next(w, s).nodes.mounts == w.nodes.mounts
  {
    var c, seen, ip, outcome := s.t.c, s.t.seen, s.t.ip, s.t.outcome;
    hide ApiUpdate;
    if CanWrite(w, c, seen) && StatusUpdate(w, c, seen, ip, outcome).Some? {
      WriteStatusShape(w, c, seen, ip, outcome);
    }
  }

  /** A publish that succeeds leaves the volume connected, mounted and recorded on its node. */
  lemma PublishAchieves(classes: Classes, steps: seq<Step>, s: Step)
    requires AttentiveRun(Init(classes), steps) && Succeeds(Run(Init(classes), steps), s)
    requires Run(Init(classes), steps).nodes.calls[s.t.c].pc.PublishCommit?
    ensures var call := Run(Init(classes), steps).nodes.calls[s.t.c];
            var w' := Next(Run(Init(classes), steps), s);
            && Target(call) in w'.nodes.links && Target(call) in w'.nodes.mounts
            && call.pc.record.name in w'.ctl.store.objects
            && w'.ctl.store.objects[call.pc.record.name].status.node == call.node
            && w'.ctl.store.objects[call.pc.record.name].status.devpath == call.pc.dev
            && w'.ctl.store.objects[call.pc.record.name].status.storageIp == s.t.ip
            && w'.ctl.store.objects[call.pc.record.name].status.allNodes == call.pc.zone
  {
    hide Next, Run;
    RunSound(classes, steps);
    RunNodesSafe(classes, steps);
    SuccessWrites(Run(Init(classes), steps), s);
    var n := Run(Init(classes), steps).nodes;
    assert CallSafe(n, n.calls[s.t.c]);
  }

  /** An unpublish that succeeds leaves the volume unmounted, disconnected and held by nobody. */
  lemma UnpublishAchieves(classes: Classes, steps: seq<Step>, s: Step)
    requires AttentiveRun(Init(classes), steps) && Succeeds(Run(Init(classes), steps), s)
    requires Run(Init(classes), steps).nodes.calls[s.t.c].pc.UnpublishCommit?
    ensures var call := Run(Init(classes), steps).nodes.calls[s.t.c];
            var w' := Next(Run(Init(classes), steps), s);
            && Target(call) !in w'.nodes.links && Target(call) !in w'.nodes.mounts
            && call.pc.record.name in w'.ctl.store.objects
            && w'.ctl.store.objects[call.pc.record.name].status.node == ""
  {
    hide Next, Run;
    RunSound(classes, steps);
    RunNodesSafe(classes, steps);
    SuccessWrites(Run(Init(classes), steps), s);
    var n := Run(Init(classes), steps).nodes;
    assert CallSafe(n, n.calls[s.t.c]);
  }

  // ---------------------------------------------------------------- the recorded node stays

  /** A control step keeps the spec and status of every record that stays, and starts new ones blank. */
  ghost predicate StatusesKept(k: Control, k': Control) {
    && (forall n | n in k.store.objects && n in k'.store.objects ::
          && k'.store.objects[n].status == k.store.objects[n].status
          && k'.store.objects[n].spec == k.store.objects[n].spec)
    && (forall n | n in k'.store.objects && n !in k.store.objects ::
          && k'.store.objects[n].status == EMPTY_STATUS
          && exists c :: c in k.calls && k.calls[c].pc == CreateRecord(n, k'.store.objects[n].spec))
  }

  lemma PostRecordKeepsStatuses(k: Control, c: nat, outcome: Outcome)
    ensures StatusesKept(k, DoPostRecord(k, c, outcome))
  {
  }

  lemma MarkKeepsContents(s: Store, name: string)
    requires ValidStore(s) && ApiDelete(s, name).Some?
    ensures var s' := ApiDelete(s, name).value;
            && s'.objects.Keys == s.objects.Keys
            && forall n | n in s.objects ::
                 s'.objects[n].status == s.objects[n].status && s'.objects[n].spec == s.objects[n].spec
  {
    DeletionMark(s, name);
  }

  lemma MarkDeletedKeepsStatuses(k: Control, c: nat, seen: Option<Record>, outcome: Outcome)
    requires Sound(k)
    ensures StatusesKept(k, DoMarkDeleted(k, c, seen, outcome))
  {
    hide Sound, ValidStore, MayRead, ApiDelete;
    SoundStore(k);
    if c in k.calls && k.calls[c].pc.DeleteMark? && ApiDelete(k.store, k.calls[c].pc.record.name).Some? {
      MarkKeepsContents(k.store, k.calls[c].pc.record.name);
    }
  }

  lemma StripKeepsStatuses(k: Control, c: nat, outcome: Outcome)
    requires Sound(k)
    ensures StatusesKept(k, DoStripFinalizer(k, c, outcome))
  {
    if c in k.calls && k.calls[c].pc.Strip? && ApiUpdate(k.store, k.calls[c].pc.record.(finalizers := [])).Some? {
      assert PcSound(k.uuids, k.store.history, k.calls[c].pc);
      FinalizerStrip(k.store, k.calls[c].pc.record);
    }
  }

  lemma ControlKeepsStatuses(k: Control, links: set<Attachment>, s: ControlStep)
    requires Sound(k)
    ensures StatusesKept(k, NextControl(k, links, s))
  {
    hide Sound, DoBeginCreate, DoMakeImage, DoReserve, DoPostRecord, DoRelease, DoRollback,
         DoBeginDelete, DoReadForDelete, DoDropImage, DoMarkDeleted, DoReconcile, DoStripFinalizer, DoCrash;
    match s {
      case PostRecord(c, outcome) => PostRecordKeepsStatuses(k, c, outcome);
      case MarkDeleted(c, seen, outcome) => MarkDeletedKeepsStatuses(k, c, seen, outcome);
      case StripFinalizer(c, outcome) => StripKeepsStatuses(k, c, outcome);
      case _ =>
    }
  }

  /** The status write that call `c` is at takes effect, on the version stored now, and its reply is lost. */
  predicate LostWriteTakes(w: World, c: nat, seen: Option<Record>, ip: string, outcome: Outcome)
    requires c in w.nodes.calls && Committing(w.nodes.calls[c].pc)
  {
    var name := w.nodes.calls[c].pc.record.name;
    && outcome.Lost? && name in w.ctl.store.objects && seen == Some(w.ctl.store.objects[name])
    && StatusToWrite(w.nodes.calls[c], ip) != w.ctl.store.objects[name].status
  }

  /**
   Exactly when a node call that fails with its status write leaves the record's status alone: unless
   the write took effect all the same, on the stored version and with another status.
   */
  lemma FailedWriteKeepsStatusIff(w: World, c: nat, seen: Option<Record>, ip: string, outcome: Outcome)
    requires ValidStore(w.ctl.store) && CanWrite(w, c, seen)
    requires w.nodes.calls[c].pc.record.name in w.ctl.store.objects
    requires DoWriteStatus(w, c, seen, ip, outcome).nodes.calls[c].pc == NodeDone(false)
    ensures var name := w.nodes.calls[c].pc.record.name;
            var s, s' := w.ctl.store, DoWriteStatus(w, c, seen, ip, outcome).ctl.store;
            && name in s'.objects && s'.objects[name].spec == s.objects[name].spec
            && (s'.objects[name].status == s.objects[name].status <==> !LostWriteTakes(w, c, seen, ip, outcome))
  {
    hide StatusToWrite;
    if StatusUpdate(w, c, seen, ip, outcome).Some? {
      WriteStatusShape(w, c, seen, ip, outcome);
    }
  }

  /** On this volume, neither a node call that succeeds nor a status write that takes effect with its reply lost. */
  predicate NoNodeSuccess(w: World, s: Step, name: string) {
    s.ByNode? && s.t.WriteStatus? && s.t.c in w.nodes.calls && Committing(w.nodes.calls[s.t.c].pc)
    && w.nodes.calls[s.t.c].pc.record.name == name
    ==> !Succeeds(w, s) && !LostWriteTakes(w, s.t.c, s.t.seen, s.t.ip, s.t.outcome)
  }

  lemma NoSuccessNoChange(w: World, s: Step, name: string)
    requires Sound(w.ctl) && NoNodeSuccess(w, s, name)
    requires name in w.ctl.store.objects && name in Next(w, s).ctl.store.objects
    ensures Next(w, s).ctl.store.objects[name].status == w.ctl.store.objects[name].status
    ensures Next(w, s).ctl.store.objects[name].spec == w.ctl.store.objects[name].spec
  {
    hide Sound, NextControl, ApiUpdate, MayRead, DoCrash, DoBeginNode, DoReadForNode, DoConnect, DoCheckTarget,
         DoMount, DoUndo, DoUnmount, DoRemoveTarget, DoDetach;
    match s {
      case ByControl(cs) => ControlKeepsStatuses(w.ctl, w.nodes.links, cs);
      case ByNode(WriteStatus(c, seen, ip, outcome)) =>
        SoundStore(w.ctl);
        if CanWrite(w, c, seen) {
          UnsuccessfulWrite(w, c, seen, ip, outcome, name);
        }
      case _ =>
    }
  }

  lemma UnsuccessfulWrite(w: World, c: nat, seen: Option<Record>, ip: string, outcome: Outcome, name: string)
    requires ValidStore(w.ctl.store) && NoNodeSuccess(w, ByNode(WriteStatus(c, seen, ip, outcome)), name)
    requires CanWrite(w, c, seen) && name in w.ctl.store.objects
    ensures var s' := DoWriteStatus(w, c, seen, ip, outcome).ctl.store;
            && name in s'.objects && s'.objects[name].status == w.ctl.store.objects[name].status
            && s'.objects[name].spec == w.ctl.store.objects[name].spec
  {
    hide ApiUpdate, StatusToWrite, ValidStore, LostWriteTakes;
    if w.nodes.calls[c].pc.record.name == name {
      FailedWriteKeepsStatusIff(w, c, seen, ip, outcome);
    } else if StatusUpdate(w, c, seen, ip, outcome).Some? {
      WriteStatusShape(w, c, seen, ip, outcome);
      assert seen.value.name != name;
    }
  }

  ghost predicate RunWithoutSuccess(w: World, steps: seq<Step>, name: string) {
    forall i | 0 <= i < |steps| :: NoNodeSuccess(Run(w, steps[..i]), steps[i], name)
  }

  /**
   However many publishes and unpublishes of a volume fail or die, and whatever is done to others,
   a volume that its record says is held stays stored and held by the same node, so that node's
   unpublish stays admitted.
   */
  lemma {:induction false} HolderStays(w: World, steps: seq<Step>, name: string)
    requires Sound(w.ctl) && RunWithoutSuccess(w, steps, name)
    requires name in w.ctl.store.objects && w.ctl.store.objects[name].status.node != ""
    ensures var s' := Run(w, steps).ctl.store;
            && name in s'.objects
            && s'.objects[name].status == w.ctl.store.objects[name].status
            && s'.objects[name].spec == w.ctl.store.objects[name].spec
  {
    hide Next, Sound, NoNodeSuccess;
    if steps != [] {
      var n := |steps| - 1;
      var w1 := Run(w, steps[..n]);
      forall i | 0 <= i < n ensures NoNodeSuccess(Run(w, steps[..n][..i]), steps[..n][i], name) {
        assert steps[..n][..i] == steps[..i];
      }
      HolderStays(w, steps[..n], name);
      RunExtends(w, steps[..n]);
      HeldIsNotTaken(w1, steps[n], name);
      NoSuccessNoChange(w1, steps[n], name);
    }
  }

  lemma HeldIsNotTaken(w: World, s: Step, name: string)
    requires Sound(w.ctl) && name in w.ctl.store.objects && w.ctl.store.objects[name].status.node != ""
    ensures name in Next(w, s).ctl.store.objects
  {
    hide Next;
    NextStore(w, s);
  }

  // ---------------------------------------------------------------- Prenode

  /** The first holder that a status-committing publish of this volume came upon. */
  function FirstFound(commits: seq<Commit>, uuid: string): string {
    if commits == [] then ""
    else
      var n := |commits| - 1;
      var earlier := FirstFound(commits[..n], uuid);
      if earlier != "" then earlier
      else if commits[n].uuid == uuid then commits[n].found
      else ""
  }

  /**
   The hypothesis that node calls on one volume are serialised across all nodes: a call takes up a
   volume only when no other works on it, and reads the record as it is then.
   */
  predicate Serialised(w: World, s: Step) {
    s.ByNode? && s.t.ReadForNode? && s.t.seen.Some? ==>
      && Some(s.t.seen.value) == (if s.t.seen.value.name in w.ctl.store.objects
                                  then Some(w.ctl.store.objects[s.t.seen.value.name]) else None)
      && forall d | d in w.nodes.calls && Holding(w.nodes.calls[d].pc) ::
           w.nodes.calls[d].pc.record.name != s.t.seen.value.name
  }

  /** The call's copy of the record is still what the record says. */
  ghost predicate CopyFresh(k: Control, call: NodeCall) {
    Holding(call.pc) ==>
      var r := call.pc.record;
      && r in k.store.history
      && (r.name in k.store.objects ==>
            k.store.objects[r.name].status == r.status && k.store.objects[r.name].spec == r.spec)
  }

  ghost predicate PrenodeRecorded(w: World, name: string)
    requires name in w.ctl.store.objects
  {
    var o := w.ctl.store.objects[name];
    o.status.prenode == FirstFound(w.nodes.commits, o.spec.uuid)
  }

  ghost predicate SerialState(w: World) {
    && (forall c | c in w.nodes.calls :: CopyFresh(w.ctl, w.nodes.calls[c]))
    && (forall c, d | c in w.nodes.calls && d in w.nodes.calls && c != d
                      && Holding(w.nodes.calls[c].pc) && Holding(w.nodes.calls[d].pc) ::
          w.nodes.calls[c].pc.record.name != w.nodes.calls[d].pc.record.name)
    && (forall e | e in w.nodes.commits :: CommitKnown(w.ctl.store, e))
    && (forall n | n in w.ctl.store.objects :: PrenodeRecorded(w, n))
  }

  lemma {:induction false} NotCommittedNotFound(commits: seq<Commit>, uuid: string)
    requires forall e | e in commits :: e.uuid != uuid
    ensures FirstFound(commits, uuid) == ""
  {
    if commits != [] {
      NotCommittedNotFound(commits[..|commits| - 1], uuid);
    }
  }

  lemma FirstFoundSnoc(commits: seq<Commit>, e: Commit, uuid: string)
    ensures FirstFound(commits + [e], uuid) ==
            if FirstFound(commits, uuid) != "" then FirstFound(commits, uuid)
            else if e.uuid == uuid then e.found else ""
  {
    assert (commits + [e])[..|commits|] == commits;
  }

  /** A record that a control step stored anew had no earlier version and no commits. */
  lemma NewRecordIsBlank(w: World, k': Control, name: string)
    requires Orderly(w.ctl) && StatusesKept(w.ctl, k')
    requires forall e | e in w.nodes.commits :: CommitKnown(w.ctl.store, e)
    requires name in k'.store.objects && name !in w.ctl.store.objects
    ensures forall o | o in w.ctl.store.history :: o.name != name
    ensures k'.store.objects[name].status == EMPTY_STATUS
    ensures FirstFound(w.nodes.commits, k'.store.objects[name].spec.uuid) == ""
  {
    var spec := k'.store.objects[name].spec;
    var c :| c in w.ctl.calls && w.ctl.calls[c].pc == CreateRecord(name, spec);
    FirstOfItsName(w.ctl, c, name);
    assert PcOrderly(w.ctl, c, w.ctl.calls[c].pc);
    forall e | e in w.nodes.commits ensures e.uuid != spec.uuid {
      assert CommitKnown(w.ctl.store, e);
    }
    NotCommittedNotFound(w.nodes.commits, spec.uuid);
  }

  lemma ControlKeepsSerial(w: World, k': Control)
    requires Orderly(w.ctl) && SerialState(w) && StatusesKept(w.ctl, k') && Extends(w.ctl.store, k'.store)
    ensures SerialState(w.(ctl := k'))
  {
    hide Orderly, StatusesKept;
    forall n | n in k'.store.objects && n !in w.ctl.store.objects { NewRecordIsBlank(w, k', n); }
    KeptMeansKept(w.ctl, k');
    forall c | c in w.nodes.calls ensures CopyFresh(k', w.nodes.calls[c]) {
      assert CopyFresh(w.ctl, w.nodes.calls[c]);
    }
    forall e | e in w.nodes.commits ensures CommitKnown(k'.store, e) {
      assert CommitKnown(w.ctl.store, e);
    }
    forall n | n in k'.store.objects ensures PrenodeRecorded(w.(ctl := k'), n) {
      if n in w.ctl.store.objects {
        assert PrenodeRecorded(w, n);
      }
    }
  }

  lemma KeptMeansKept(k: Control, k': Control)
    requires StatusesKept(k, k')
    ensures forall n | n in k.store.objects && n in k'.store.objects ::
              && k'.store.objects[n].status == k.store.objects[n].status
              && k'.store.objects[n].spec == k.store.objects[n].spec
  {
  }

  /** Calls that take up no new record, over an unchanged store. */
  lemma NodesKeepSerial(w: World, w': World)
    requires SerialState(w) && w'.ctl.store == w.ctl.store && KeepsRecords(w.nodes, w'.nodes)
    ensures SerialState(w')
  {
    forall c | c in w'.nodes.calls ensures CopyFresh(w'.ctl, w'.nodes.calls[c]) {
      if Holding(w'.nodes.calls[c].pc) {
        assert CopyFresh(w.ctl, w.nodes.calls[c]);
      }
    }
    forall e | e in w'.nodes.commits ensures CommitKnown(w'.ctl.store, e) {
      assert CommitKnown(w.ctl.store, e);
    }
    forall n | n in w'.ctl.store.objects ensures PrenodeRecorded(w', n) {
      assert PrenodeRecorded(w, n);
    }
  }

  lemma ReadKeepsSerial(w: World, c: nat, seen: Option<Record>)
    requires Sound(w.ctl) && SerialState(w) && Serialised(w, ByNode(ReadForNode(c, seen)))
    ensures SerialState(w.(nodes := DoReadForNode(w, c, seen)))
  {
    hide SpecSound, PcSound, AnswerSound, IndexSound, FirstFound;
    var w' := w.(nodes := DoReadForNode(w, c, seen));
    forall d | d in w'.nodes.calls ensures CopyFresh(w'.ctl, w'.nodes.calls[d]) {
      assert CopyFresh(w.ctl, w.nodes.calls[d]);
    }
    forall e | e in w'.nodes.commits ensures CommitKnown(w'.ctl.store, e) {
      assert CommitKnown(w.ctl.store, e);
    }
    forall n | n in w'.ctl.store.objects ensures PrenodeRecorded(w', n) {
      assert PrenodeRecorded(w, n);
    }
  }

  /** What a successful compare-and-swap of a call with a fresh copy does. */
  ghost predicate FreshWrite(w: World, c: nat, w': World, ip: string) {
    && c in w.nodes.calls && Committing(w.nodes.calls[c].pc)
    && var call := w.nodes.calls[c];
       var name := call.pc.record.name;
       && name in w.ctl.store.objects
       && w.ctl.store.objects[name].status == call.pc.record.status
       && w.ctl.store.objects[name].spec == call.pc.record.spec
       && w'.ctl.store.objects.Keys == w.ctl.store.objects.Keys
       && w.ctl.store.history <= w'.ctl.store.history
       && (forall n | n in w.ctl.store.objects && n != name :: w'.ctl.store.objects[n] == w.ctl.store.objects[n])
       && w'.ctl.store.objects[name].status == StatusToWrite(call, ip)
       && w'.ctl.store.objects[name].spec == call.pc.record.spec
       && w'.nodes.commits == (if call.pc.PublishCommit?
                               then w.nodes.commits + [Commit(call.pc.record.spec.uuid, call.pc.record.status.node)]
                               else w.nodes.commits)
       && w'.nodes.calls.Keys == w.nodes.calls.Keys
       && (forall d | d in w.nodes.calls && d != c :: w'.nodes.calls[d] == w.nodes.calls[d])
       && w'.nodes.calls[c].pc.NodeDone?
  }

  lemma WriteIsFresh(w: World, c: nat, seen: Option<Record>, ip: string, outcome: Outcome)
    requires ValidStore(w.ctl.store) && SerialState(w) && CanWrite(w, c, seen)
    requires StatusUpdate(w, c, seen, ip, outcome).Some?
    ensures FreshWrite(w, c, DoWriteStatus(w, c, seen, ip, outcome), ip)
  {
    hide ApiUpdate;
    assert CopyFresh(w.ctl, w.nodes.calls[c]);
    WriteStatusShape(w, c, seen, ip, outcome);
  }

  lemma FreshWriteCalls(w: World, c: nat, w': World, ip: string, d: nat)
    requires SerialState(w) && FreshWrite(w, c, w', ip) && d in w'.nodes.calls
    ensures CopyFresh(w'.ctl, w'.nodes.calls[d])
  {
    assert CopyFresh(w.ctl, w.nodes.calls[d]);
  }

  lemma FreshWritePrenode(w: World, c: nat, w': World, ip: string, n: string)
    requires Sound(w.ctl) && SerialState(w) && FreshWrite(w, c, w', ip) && n in w'.ctl.store.objects
    ensures PrenodeRecorded(w', n)
  {
    hide Sound, SerialState;
    var r := w.nodes.calls[c].pc.record;
    StoredRecorded(w, n);
    FirstFoundSnoc(w.nodes.commits, Commit(r.spec.uuid, r.status.node), w.ctl.store.objects[n].spec.uuid);
    if n != r.name {
      StoredSound(w.ctl, n);
      StoredSound(w.ctl, r.name);
    }
  }

  lemma StoredRecorded(w: World, n: string)
    requires SerialState(w) && n in w.ctl.store.objects
    ensures PrenodeRecorded(w, n)
  {
  }

  lemma StoredSound(k: Control, n: string)
    requires Sound(k) && n in k.store.objects
    ensures SpecSound(k.uuids, n, k.store.objects[n].spec)
  {
  }

  lemma FreshWriteKeepsSerial(w: World, c: nat, w': World, ip: string)
    requires Sound(w.ctl) && SerialState(w) && FreshWrite(w, c, w', ip)
    ensures SerialState(w')
  {
    forall d | d in w'.nodes.calls { FreshWriteCalls(w, c, w', ip, d); }
    forall n | n in w'.ctl.store.objects { FreshWritePrenode(w, c, w', ip, n); }
    forall e | e in w'.nodes.commits ensures CommitKnown(w'.ctl.store, e) {
      if e in w.nodes.commits {
        assert CommitKnown(w.ctl.store, e);
      } else {
        assert CopyFresh(w.ctl, w.nodes.calls[c]);
      }
    }
  }

  lemma WriteKeepsSerial(w: World, c: nat, seen: Option<Record>, ip: string, outcome: Outcome)
    requires Sound(w.ctl) && SerialState(w)
    ensures SerialState(DoWriteStatus(w, c, seen, ip, outcome))
  {
    hide Sound, SerialState, ApiUpdate, FreshWrite;
    if CanWrite(w, c, seen) {
      if StatusUpdate(w, c, seen, ip, outcome).Some? {
        SoundStore(w.ctl);
        WriteIsFresh(w, c, seen, ip, outcome);
        FreshWriteKeepsSerial(w, c, DoWriteStatus(w, c, seen, ip, outcome), ip);
      } else {
        NodesKeepSerial(w, DoWriteStatus(w, c, seen, ip, outcome));
      }
    }
  }

  lemma CrashKeepsRecords(w: World, node: string)
    ensures KeepsRecords(w.nodes, DoNodeCrash(w, node).nodes)
    ensures DoNodeCrash(w, node).ctl.store == w.ctl.store
  {
    hide DoCrash;
  }

  lemma NextSerial(w: World, s: Step)
    requires Sound(w.ctl) && Orderly(w.ctl) && SerialState(w) && Serialised(w, s)
    ensures SerialState(Next(w, s))
  {
    hide Sound, Orderly, SerialState, StatusesKept, NextControl, DoBeginNode, DoReadForNode, DoConnect, DoCheckTarget,
         DoMount, DoUndo, DoUnmount, DoRemoveTarget, DoDetach, DoWriteStatus, DoNodeCrash, Extends;
    match s {
      case ByControl(cs) =>
        ControlKeepsStatuses(w.ctl, w.nodes.links, cs);
        StepExtends(w, s);
        ControlKeepsSerial(w, NextControl(w.ctl, w.nodes.links, cs));
      case ByNode(ReadForNode(c, seen)) => ReadKeepsSerial(w, c, seen);
      case ByNode(WriteStatus(c, seen, ip, outcome)) => WriteKeepsSerial(w, c, seen, ip, outcome);
      case ByNode(NodeCrash(node)) =>
        CrashKeepsRecords(w, node);
        NodesKeepSerial(w, Next(w, s));
      case _ => NodesKeepSerial(w, Next(w, s));
    }
  }

  ghost predicate SerialisedRun(w: World, steps: seq<Step>) {
    forall i | 0 <= i < |steps| :: Serialised(Run(w, steps[..i]), steps[i])
  }

  lemma {:induction false} RunSerial(classes: Classes, steps: seq<Step>)
    requires Permitted(classes, steps) && SerialisedRun(Init(classes), steps)
    ensures SerialState(Run(Init(classes), steps))
  {
    hide Next, Sound, Orderly;
    if steps != [] {
      var n := |steps| - 1;
      forall i | 0 <= i < n ensures Serialised(Run(Init(classes), steps[..n][..i]), steps[..n][i]) {
        assert steps[..n][..i] == steps[..i];
      }
      LawfulPrefix(Init(classes), steps, n);
      RunSerial(classes, steps[..n]);
      RunOrderly(classes, steps[..n]);
      NextSerial(Run(Init(classes), steps[..n]), steps[n]);
    }
  }

  /**
   In every run whose node calls on one volume are serialised, a record's `Prenode` is the holder
   found by the first publish of that volume that wrote its status and had found one.
   */
  lemma PrenodeIsFirstHolder(classes: Classes, steps: seq<Step>, name: string)
    requires Permitted(classes, steps) && SerialisedRun(Init(classes), steps)
    requires name in After(classes, steps).store.objects
    ensures var o := After(classes, steps).store.objects[name];
            o.status.prenode == FirstFound(Run(Init(classes), steps).nodes.commits, o.spec.uuid)
  {
    hide Next, Run;
    RunSerial(classes, steps);
    assert PrenodeRecorded(Run(Init(classes), steps), name);
  }

  /** What a commit notes down as found is what the record said at that very moment. */
  lemma CommitFindsTheHolder(classes: Classes, steps: seq<Step>, s: Step)
    requires Permitted(classes, steps) && SerialisedRun(Init(classes), steps)
    requires Succeeds(Run(Init(classes), steps), s)
    requires Run(Init(classes), steps).nodes.calls[s.t.c].pc.PublishCommit?
    ensures var w := Run(Init(classes), steps);
            var name := w.nodes.calls[s.t.c].pc.record.name;
            && name in w.ctl.store.objects
            && Next(w, s).nodes.commits ==
               w.nodes.commits + [Commit(w.ctl.store.objects[name].spec.uuid, w.ctl.store.objects[name].status.node)]
  {
    hide Run, Sound, SerialState, ApiUpdate;
    RunSound(classes, steps);
    RunSerial(classes, steps);
    var w := Run(Init(classes), steps);
    SoundStore(w.ctl);
    if CanWrite(w, s.t.c, s.t.seen) && StatusUpdate(w, s.t.c, s.t.seen, s.t.ip, s.t.outcome).Some? {
      WriteIsFresh(w, s.t.c, s.t.seen, s.t.ip, s.t.outcome);
    }
  }

  lemma {:induction false} FirstFoundStays(commits: seq<Commit>, more: seq<Commit>, uuid: string)
    requires FirstFound(commits, uuid) != ""
    ensures FirstFound(commits + more, uuid) == FirstFound(commits, uuid)
  {
    if more == [] {
      assert commits + more == commits;
    } else {
      var n := |more| - 1;
      FirstFoundStays(commits, more[..n], uuid);
      FirstFoundSnoc(commits + more[..n], more[n], uuid);
      assert commits + more == commits + more[..n] + [more[n]];
    }
  }

  lemma NextCommits(w: World, s: Step)
    ensures |w.nodes.commits| <= |Next(w, s).nodes.commits|
    ensures Next(w, s).nodes.commits[..|w.nodes.commits|] == w.nodes.commits
  {
    hide NextControl, StatusUpdate, CanWrite, MayRead, DoBeginNode, DoConnect, DoCheckTarget, DoMount, DoUndo,
         DoUnmount, DoRemoveTarget, DoDetach, DoCrash;
  }

  lemma {:induction false} RunCommits(w: World, steps: seq<Step>)
    ensures |w.nodes.commits| <= |Run(w, steps).nodes.commits|
    ensures Run(w, steps).nodes.commits[..|w.nodes.commits|] == w.nodes.commits
  {
    hide Next;
    if steps != [] {
      var n := |steps| - 1;
      RunCommits(w, steps[..n]);
      var w1 := Run(w, steps[..n]);
      NextCommits(w1, steps[n]);
      assert Next(w1, steps[n]).nodes.commits[..|w.nodes.commits|] == w1.nodes.commits[..|w.nodes.commits|];
    }
  }

  /** `Prenode` is written at most once: whatever happens later, once it names a node it keeps it. */
  lemma PrenodeWrittenOnce(classes: Classes, steps: seq<Step>, more: seq<Step>, name: string)
    requires Permitted(classes, steps + more) && SerialisedRun(Init(classes), steps + more)
    requires name in After(classes, steps).store.objects && name in After(classes, steps + more).store.objects
    requires After(classes, steps).store.objects[name].status.prenode != ""
    ensures After(classes, steps + more).store.objects[name].status.prenode
         == After(classes, steps).store.objects[name].status.prenode
  {
    hide Next, Run, Permitted, SerialisedRun;
    SamePrefix(classes, steps, more);
    var w, w' := Run(Init(classes), steps), Run(Init(classes), steps + more);
    PrenodeIsFirstHolder(classes, steps, name);
    PrenodeIsFirstHolder(classes, steps + more, name);
    StoredSpecForLife(classes, steps, more, name);
    RunAppend(Init(classes), steps, more);
    RunCommits(w, more);
    var added := w'.nodes.commits[|w.nodes.commits|..];
    assert w'.nodes.commits == w.nodes.commits + added;
    FirstFoundStays(w.nodes.commits, added, w.ctl.store.objects[name].spec.uuid);
  }

  lemma StoredSpecForLife(classes: Classes, steps: seq<Step>, more: seq<Step>, name: string)
    requires Permitted(classes, steps + more)
    requires name in After(classes, steps).store.objects && name in After(classes, steps + more).store.objects
    ensures After(classes, steps).store.objects[name].spec == After(classes, steps + more).store.objects[name].spec
  {
    hide Next, Run;
    RunSound(classes, steps);
    RunSound(classes, steps + more);
    SpecForLife(classes, steps, more, After(classes, steps).store.objects[name],
                After(classes, steps + more).store.objects[name]);
  }

  lemma SamePrefix(classes: Classes, steps: seq<Step>, more: seq<Step>)
    requires Permitted(classes, steps + more) && SerialisedRun(Init(classes), steps + more)
    ensures Permitted(classes, steps) && SerialisedRun(Init(classes), steps)
  {
    hide Run;
    var all := steps + more;
    forall i | 0 <= i < |steps|
      ensures Lawful(Run(Init(classes), steps[..i]), steps[i]) && Serialised(Run(Init(classes), steps[..i]), steps[i])
    {
      assert all[..i] == steps[..i] && all[i] == steps[i];
    }
  }
}
