/**
 What node calls know: every copy that a call works on is some stored version of its record, however
 old, and every device that is connected was named by one.
 */
module Copies {
  import opened Records
  import opened Lifecycle
  import opened Soundness
  import opened Ownership
  import opened Guarantees
  import opened NodeSafety

  ghost predicate CommitKnown(s: Store, e: Commit) {
    exists o :: o in s.history && o.spec.uuid == e.uuid
  }

  ghost predicate LinkNamed(s: Store, l: Attachment) {
    exists o :: o in s.history && IdOf(o.spec) == l.id
  }

  ghost predicate CopiesKnown(w: World) {
    && (forall c | c in w.nodes.calls && Holding(w.nodes.calls[c].pc) :: w.nodes.calls[c].pc.record in w.ctl.store.history)
    && (forall l | l in w.nodes.links :: LinkNamed(w.ctl.store, l))
    && (forall e | e in w.nodes.commits :: CommitKnown(w.ctl.store, e))
  }

  /** The same calls, connections and commits over a store that only grew. */
  lemma GrowthKeepsKnown(w: World, s': Store)
    requires CopiesKnown(w) && w.ctl.store.history <= s'.history
    ensures CopiesKnown(w.(ctl := w.ctl.(store := s')))
  {
    forall l | l in w.nodes.links ensures LinkNamed(s', l) {
      assert LinkNamed(w.ctl.store, l);
    }
    forall e | e in w.nodes.commits ensures CommitKnown(s', e) {
      assert CommitKnown(w.ctl.store, e);
    }
  }

  /** Nodes that take up nothing new: their calls go on, and what is connected or noted was so before. */
  ghost predicate NothingNew(w: World, n': Nodes) {
    && (forall c | c in n'.calls && Holding(n'.calls[c].pc) ::
          c in w.nodes.calls && Holding(w.nodes.calls[c].pc) && n'.calls[c].pc.record == w.nodes.calls[c].pc.record)
    && (forall l | l in n'.links :: l in w.nodes.links || OwnLink(w.nodes, l))
    && (forall e | e in n'.commits :: e in w.nodes.commits || OwnCommit(w.nodes, e))
  }

  /** A device of a volume that a call works on. */
  ghost predicate OwnLink(n: Nodes, l: Attachment) {
    exists c :: c in n.calls && Holding(n.calls[c].pc) && l == Target(n.calls[c])
  }

  ghost predicate OwnCommit(n: Nodes, e: Commit) {
    exists c :: c in n.calls && Holding(n.calls[c].pc) && e.uuid == n.calls[c].pc.record.spec.uuid
  }

  lemma NothingNewKeepsKnown(w: World, n': Nodes)
    requires CopiesKnown(w) && NothingNew(w, n')
    ensures CopiesKnown(w.(nodes := n'))
  {
    forall l | l in n'.links ensures LinkNamed(w.ctl.store, l) {
      if l !in w.nodes.links {
        assert OwnLink(w.nodes, l);
      }
    }
    forall e | e in n'.commits ensures CommitKnown(w.ctl.store, e) {
      if e !in w.nodes.commits {
        assert OwnCommit(w.nodes, e);
      }
    }
  }

  lemma ReadKeepsKnown(w: World, c: nat, seen: Option<Record>)
    requires CopiesKnown(w)
    ensures CopiesKnown(w.(nodes := DoReadForNode(w, c, seen)))
  {
  }

  lemma ConnectBringsOwn(w: World, c: nat, ready: bool, zone: Option<seq<string>>, dev: string, outcome: Outcome)
    ensures NothingNew(w, DoConnect(w, c, ready, zone, dev, outcome))
  {
    if c in w.nodes.calls && w.nodes.calls[c].pc.PublishConnect? {
      assert Target(w.nodes.calls[c]) == AttachmentOf(w.nodes.calls[c].node, w.nodes.calls[c].pc.record);
    }
  }

  lemma WriteBringsOwn(w: World, c: nat, seen: Option<Record>, ip: string, outcome: Outcome)
    ensures NothingNew(w, DoWriteStatus(w, c, seen, ip, outcome).nodes)
  {
    hide StatusUpdate, MayRead;
  }

  lemma NodeBringsOwn(w: World, t: NodeStep)
    requires !t.ReadForNode? && !t.Connect? && !t.WriteStatus?
    ensures NothingNew(w, Next(w, ByNode(t)).nodes)
  {
    hide MayRead, Lookup, DoCrash;
  }

  lemma NextCopiesKnown(w: World, s: Step)
    requires Sound(w.ctl) && CopiesKnown(w)
    ensures CopiesKnown(Next(w, s))
  {
    hide Next, Sound, CopiesKnown, NothingNew;
    StepExtends(w, s);
    match s {
      case ByControl(cs) =>
        NodesStand(w, cs);
        OnlyTheStoreCounts(w, Next(w, s), w.nodes);
      case ByNode(ReadForNode(c, seen)) =>
        ReadKeepsKnown(w, c, seen);
        assert Next(w, s) == w.(nodes := DoReadForNode(w, c, seen)) by { ReadIsNext(w, c, seen); }
      case ByNode(t) =>
        BringsOwn(w, t);
        NothingNewKeepsKnown(w, Next(w, s).nodes);
        OnlyTheStoreCounts(w.(nodes := Next(w, s).nodes), Next(w, s), Next(w, s).nodes);
    }
  }

  lemma NodesStand(w: World, s: ControlStep)
    ensures Next(w, ByControl(s)).nodes == w.nodes
  {
  }

  lemma ReadIsNext(w: World, c: nat, seen: Option<Record>)
    ensures Next(w, ByNode(ReadForNode(c, seen))) == w.(nodes := DoReadForNode(w, c, seen))
  {
  }

  lemma BringsOwn(w: World, t: NodeStep)
    requires !t.ReadForNode?
    ensures NothingNew(w, Next(w, ByNode(t)).nodes)
  {
    hide NothingNew, DoConnect, DoWriteStatus;
    match t
    case Connect(c, ready, zone, dev, outcome) => ConnectBringsOwn(w, c, ready, zone, dev, outcome);
    case WriteStatus(c, seen, ip, outcome) => WriteBringsOwn(w, c, seen, ip, outcome);
    case _ => NodeBringsOwn(w, t);
  }

  lemma OnlyTheStoreCounts(w: World, w': World, n: Nodes)
    requires CopiesKnown(w) && w.nodes == n == w'.nodes && w.ctl.store.history <= w'.ctl.store.history
    ensures CopiesKnown(w')
  {
    GrowthKeepsKnown(w, w'.ctl.store);
  }

  lemma {:induction false} RunCopiesKnown(classes: Classes, steps: seq<Step>)
    ensures CopiesKnown(Run(Init(classes), steps))
  {
    hide Next, Sound;
    if steps != [] {
      var n := |steps| - 1;
      RunSound(classes, steps[..n]);
      RunCopiesKnown(classes, steps[..n]);
      NextCopiesKnown(Run(Init(classes), steps[..n]), steps[n]);
    }
  }

  /**
   In every permitted run a connected device belongs to a stored volume that is not terminating: its
   record is there, names exactly this image, and the image exists.
   */
  lemma ConnectedHasItsRecord(classes: Classes, steps: seq<Step>, l: Attachment)
    requires Permitted(classes, steps) && l in Run(Init(classes), steps).nodes.links
    ensures var k := After(classes, steps);
            && l.id in k.images && l.id.image in k.store.objects
            && IdOf(k.store.objects[l.id.image].spec) == l.id && !k.store.objects[l.id.image].deleting
  {
    hide Next, Run;
    RunOrderly(classes, steps);
    RunCopiesKnown(classes, steps);
    ConnectedHasImage(classes, steps);
    var k := After(classes, steps);
    assert LinkNamed(k.store, l);
    var o :| o in k.store.history && IdOf(o.spec) == l.id;
    assert SpecSound(k.uuids, o.name, o.spec) && RecordOrderly(k, o);
    RecordKnown(k, o.name);
  }
}
