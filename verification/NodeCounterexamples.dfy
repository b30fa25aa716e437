/**
 Why node calls on one volume must be serialised, and what a lost reply costs: runs from nothing that
 follow the rules for controllers and lose a guarantee for nodes.
 */
module NodeCounterexamples {
  import opened Records
  import opened StorageClass
  import opened Lifecycle
  import opened Ownership
  import opened Guarantees
  import opened Calls
  import opened NodeCalls
  import opened Compensation
  import opened Counterexamples

  // ---------------------------------------------------------------- runs that follow the rules

  predicate Harmless(s: Step) {
    s.ByControl? ==> !s.s.BeginCreate? && !s.s.ReadForDelete? && (s.s.PostRecord? ==> !s.s.outcome.Lost?)
  }

  /** One create begins, and nothing but harmless steps follows. */
  ghost predicate OneCreate(steps: seq<Step>) {
    && steps != [] && steps[0].ByControl? && steps[0].s.BeginCreate?
    && forall i | 0 < i < |steps| :: Harmless(steps[i])
  }

  /** A run that begins one create, with nothing retired, and no delete is permitted. */
  lemma HarmlessIsLawful(w: World, steps: seq<Step>)
    requires w.ctl.retired == {} && OneCreate(steps)
    ensures LawfulRun(w, steps)
  {
    hide Next, CreateActive;
    assert steps[..0] == [];
  }

  // ---------------------------------------------------------------- a volume that was taken over

  /** A publish in which everything goes well, on the version `r`. */
  function Tale(r: Record): PublishTale {
    PublishTale(Some(r), true, Some([]), "d", Done, Told, true, Done, Some(r), "i", Done)
  }

  function WithStatus(r: Record, node: string): Record {
    r.(status := PublishedStatus(r.status, node, "d", "i", []))
  }

  /** A node that does not hold the stored version publishes it. */
  lemma Publishes(w: World, c: nat, node: string, r: Record)
    requires ValidStore(w.ctl.store) && c !in w.nodes.calls && r.status.node != node
    requires "v" in w.ctl.store.objects && w.ctl.store.objects["v"] == r
    requires Lookup(IndexOf(w.ctl, node), "1") == Some("v")
    requires r.spec.image != "" && r.spec.pool != "" && IdOf(r.spec) in w.ctl.images
    ensures var w' := PublishRun(w, c, node, "1", Tale(r));
            && w'.ctl == w.ctl.(store := Put(w.ctl.store, WithStatus(r, node)))
            && w'.nodes.links == w.nodes.links + {AttachmentOf(node, r)}
            && w'.nodes.mounts == w.nodes.mounts + {AttachmentOf(node, r)}
            && (forall d | d in w'.nodes.calls :: d in w.nodes.calls || d == c)
            && ValidStore(w'.ctl.store)
  {
    hide PublishRun, Lookup, ValidStore, ApiUpdate, Put;
    StoredIsKnown(w.ctl.store, "v");
    PublishOutcome(w, c, node, "1", r, Tale(r));
    StatusWritesAnew(w.ctl.store, r, WithStatus(r, node).status);
    PublishRunIsRun(w, c, node, "1", Tale(r));
    OnlyCall(w, PublishSteps(c, node, "1", Tale(r)), c);
  }

  lemma StatusWritesAnew(s: Store, r: Record, status: Status)
    requires ValidStore(s) && r.name in s.objects && s.objects[r.name] == r && r.status != status
    ensures ApiUpdate(s, r.(status := status)) == Some(Put(s, r.(status := status)))
    ensures ValidStore(Put(s, r.(status := status)))
  {
    StatusWrite(s, r, status);
  }

  /** The volume's versions: as created, as published on n1, and as published on n2 after that. */
  ghost predicate TakenOver(w: World, r0: Record, r1: Record, r2: Record) {
    && ValidStore(w.ctl.store)
    && "v" in w.ctl.store.objects && w.ctl.store.objects["v"] == r2
    && {r0, r1, r2} <= w.ctl.store.history
    && r0.name == r1.name == r2.name == "v" && r0.spec == r1.spec == r2.spec
    && r0.status == EMPTY_STATUS && r1.status.node == "n1"
    && r2.status.node == "n2" && r2.status.prenode == "n1"
    && Lookup(IndexOf(w.ctl, "n1"), "1") == Some("v") && Lookup(IndexOf(w.ctl, "n2"), "1") == Some("v")
    && r0.spec.image != "" && r0.spec.pool != "" && IdOf(r0.spec) in w.ctl.images
    && AttachmentOf("n2", r2) in w.nodes.mounts && AttachmentOf("n2", r2) in w.nodes.links
    && (forall c | c in w.nodes.calls :: c < 2)
  }

  /** A create, and the record indexed by both nodes. */
  function IndexedSteps(sc: string, a: Attempt, r0: Record): seq<ControlStep> {
    CreateSteps(0, "p", "v", 1, Some(sc), CreateTale(None, true, "1", a, Done, a))
    + [Reconcile(1, "n1", "v", Some(r0)), Reconcile(1, "n2", "v", Some(r0))]
  }

  function NewRecord(sc: string, pool: string): Record {
    Record("v", 1, MadeSpec("v", 1, sc, "1", pool), EMPTY_STATUS, FINALIZERS, false)
  }

  /** What indexing the record on a node does. */
  lemma Indexes(k: Control, node: string, r: Record)
    requires 1 !in k.calls && r in k.store.history && r.name == "v" && !r.deleting && r.spec.uuid == "1"
    requires IndexOf(k, node) == map[]
    ensures DoReconcile(k, 1, node, "v", Some(r)) == WithIndex(k, node, map["1" := "v"])
  {
  }

  lemma Indexed(classes: Classes, sc: string, a: Attempt, pool: string)
    requires a.outcome.Done? && ResolvePool(classes, sc, a) == Some(pool)
    ensures var r0 := NewRecord(sc, pool);
            var k := RunControl(Init(classes).ctl, {}, IndexedSteps(sc, a, r0));
            && k.store == Put(EMPTY_STORE, r0.(version := 0)) && k.retired == {}
            && IdOf(r0.spec) in k.images
            && IndexOf(k, "n1") == map["1" := "v"] && IndexOf(k, "n2") == map["1" := "v"]
  {
    hide ResolvePool, NextControl, CreateRun, MibFor, RunControl, CreateSteps, DoReconcile;
    var k0 := Init(classes).ctl;
    var r0 := NewRecord(sc, pool);
    var t := CreateTale(None, true, "1", a, Done, a);
    CreateWorks(k0, {}, 0, "p", "v", 1, sc, t, pool);
    CreateRunIsStretch(k0, {}, 0, "p", "v", 1, Some(sc), t);
    var k1 := Provisioned(k0, 0, "p", r0.spec);
    var s1 := CreateSteps(0, "p", "v", 1, Some(sc), t);
    var s2 := [Reconcile(1, "n1", "v", Some(r0)), Reconcile(1, "n2", "v", Some(r0))];
    StretchAppend(k0, {}, s1, s2);
    Indexes(k1, "n1", r0);
    var k2 := WithIndex(k1, "n1", map["1" := "v"]);
    Indexes(k2, "n2", r0);
    TwoSteps(k1, {}, s2[0], s2[1]);
    assert NextControl(k1, {}, s2[0]) == k2 by { OneReconcile(k1, "n1", r0); }
    OneReconcile(k2, "n2", r0);
  }

  lemma TwoSteps(k: Control, links: set<Attachment>, s: ControlStep, s': ControlStep)
    ensures RunControl(k, links, [s, s']) == NextControl(NextControl(k, links, s), links, s')
  {
    hide NextControl;
    assert [s, s'][1..] == [s'] && [s'][1..] == [];
    assert RunControl(NextControl(k, links, s), links, [s']) == NextControl(NextControl(k, links, s), links, s');
  }

  lemma OneReconcile(k: Control, node: string, r: Record)
    ensures NextControl(k, {}, Reconcile(1, node, "v", Some(r))) == DoReconcile(k, 1, node, "v", Some(r))
  {
    hide DoReconcile;
  }

  lemma PoolIsNamed(classes: Classes, sc: string, a: Attempt)
    requires ResolvePool(classes, sc, a).Some?
    ensures ResolvePool(classes, sc, a).value != ""
  {
    ParsedPoolIsNamed(a.lookups, classes[sc], a.order);
  }

  lemma CreatedAndIndexed(classes: Classes, sc: string, a: Attempt, pool: string) returns (made: seq<Step>)
    requires a.outcome.Done? && ResolvePool(classes, sc, a) == Some(pool)
    ensures OneCreate(made) && forall i | 0 <= i < |made| :: made[i].ByControl?
    ensures var r0 := NewRecord(sc, pool);
            var w := Run(Init(classes), made);
            && w.nodes == Init(classes).nodes && w.ctl.store == Put(EMPTY_STORE, r0.(version := 0))
            && IdOf(r0.spec) in w.ctl.images
            && IndexOf(w.ctl, "n1") == map["1" := "v"] && IndexOf(w.ctl, "n2") == map["1" := "v"]
  {
    hide ResolvePool, RunControl, Run;
    var s := IndexedSteps(sc, a, NewRecord(sc, pool));
    Indexed(classes, sc, a, pool);
    StretchIsRun(Init(classes), s);
    made := seq(|s|, i requires 0 <= i < |s| => ByControl(s[i]));
  }

  /** The volume is created, and both nodes have it in their index. */
  ghost predicate Ready(w: World, r: Record) {
    && ValidStore(w.ctl.store)
    && "v" in w.ctl.store.objects && w.ctl.store.objects["v"] == r && r in w.ctl.store.history && r.name == "v"
    && r.spec.image != "" && r.spec.pool != "" && IdOf(r.spec) in w.ctl.images
    && Lookup(IndexOf(w.ctl, "n1"), "1") == Some("v") && Lookup(IndexOf(w.ctl, "n2"), "1") == Some("v")
  }

  /** A publish leaves a new version behind, and the old one stays readable. */
  lemma PublishedReady(w: World, c: nat, node: string, r: Record) returns (r': Record)
    requires Ready(w, r) && c !in w.nodes.calls && r.status.node != node && node in {"n1", "n2"}
    ensures var w' := PublishRun(w, c, node, "1", Tale(r));
            && Ready(w', r') && r'.spec == r.spec && r'.status == WithStatus(r, node).status
            && w.ctl.store.history <= w'.ctl.store.history
            && w'.nodes.links == w.nodes.links + {AttachmentOf(node, r)}
            && w'.nodes.mounts == w.nodes.mounts + {AttachmentOf(node, r)}
            && (forall d | d in w'.nodes.calls :: d in w.nodes.calls || d == c)
  {
    hide PublishRun, ValidStore, Lookup;
    Publishes(w, c, node, r);
    r' := PublishRun(w, c, node, "1", Tale(r)).ctl.store.objects["v"];
  }

  /** Harmless steps may follow. */
  lemma OneCreateGrows(steps: seq<Step>, c: nat, node: string, r: Record)
    ensures OneCreate(steps) ==> OneCreate(steps + PublishSteps(c, node, "1", Tale(r)))
  {
  }

  lemma RunPublishes(classes: Classes, steps: seq<Step>, c: nat, node: string, r: Record)
    ensures Run(Init(classes), steps + PublishSteps(c, node, "1", Tale(r)))
         == PublishRun(Run(Init(classes), steps), c, node, "1", Tale(r))
  {
    hide Run, PublishRun, PublishSteps;
    PublishRunIsRun(Run(Init(classes), steps), c, node, "1", Tale(r));
    RunAppend(Init(classes), steps, PublishSteps(c, node, "1", Tale(r)));
  }

  /** Two nodes publish one after the other; the second takes the volume over. */
  lemma Takeover(classes: Classes, sc: string, a: Attempt)
    returns (steps: seq<Step>, r0: Record, r1: Record, r2: Record)
    requires a.outcome.Done? && ResolvePool(classes, sc, a).Some?
    ensures OneCreate(steps) && TakenOver(Run(Init(classes), steps), r0, r1, r2)
  {
    hide ResolvePool, PublishRun, Run, OneCreate, PublishSteps, Lookup, ValidStore;
    var made;
    made, r0 := CreatedReady(classes, sc, a);
    r1 := PublishedReady(Run(Init(classes), made), 0, "n1", r0);
    OneCreateGrows(made, 0, "n1", r0);
    RunPublishes(classes, made, 0, "n1", r0);
    var next := made + PublishSteps(0, "n1", "1", Tale(r0));
    r2 := PublishedReady(Run(Init(classes), next), 1, "n2", r1);
    OneCreateGrows(next, 1, "n2", r1);
    RunPublishes(classes, next, 1, "n2", r1);
    steps := next + PublishSteps(1, "n2", "1", Tale(r1));
  }

  lemma CreatedReady(classes: Classes, sc: string, a: Attempt) returns (made: seq<Step>, r0: Record)
    requires a.outcome.Done? && ResolvePool(classes, sc, a).Some?
    ensures OneCreate(made) && (forall i | 0 <= i < |made| :: made[i].ByControl?) && Ready(Run(Init(classes), made), r0) && r0.status == EMPTY_STATUS
    ensures Run(Init(classes), made).nodes == Init(classes).nodes
  {
    hide ResolvePool, Run, OneCreate;
    PoolIsNamed(classes, sc, a);
    var pool := ResolvePool(classes, sc, a).value;
    r0 := NewRecord(sc, pool);
    made := CreatedAndIndexed(classes, sc, a, pool);
  }

  // ---------------------------------------------------------------- what goes wrong then

  /** The same run, with the steps of one more node call behind it. */
  lemma OneMoreCall(classes: Classes, steps: seq<Step>, more: seq<Step>)
    requires OneCreate(steps) && forall i | 0 <= i < |more| :: more[i].ByNode?
    ensures LawfulRun(Init(classes), steps + more)
    ensures Run(Init(classes), steps + more) == Run(Run(Init(classes), steps), more)
  {
    hide Run, Lawful;
    HarmlessIsLawful(Init(classes), steps + more);
    RunAppend(Init(classes), steps, more);
  }

  /**
   An unpublish that is let in by an old version, on a node that holds the volume no more: it
   succeeds, and the record says that nobody holds the volume, which the other node has mounted.
   */
  lemma StaleUnpublishBlanksTheHolder(classes: Classes, sc: string, a: Attempt)
    returns (steps: seq<Step>, more: seq<Step>)
    requires a.outcome.Done? && ResolvePool(classes, sc, a).Some?
    ensures LawfulRun(Init(classes), steps + more)
    ensures var w, w' := Run(Init(classes), steps), Run(Init(classes), steps + more);
            && "v" in w.ctl.store.objects && w.ctl.store.objects["v"].status.node == "n2"
            && 2 !in w.nodes.calls && 2 in w'.nodes.calls && w'.nodes.calls[2].pc == NodeDone(true)
            && "v" in w'.ctl.store.objects && w'.ctl.store.objects["v"].status.node == ""
            && AttachmentOf("n2", w'.ctl.store.objects["v"]) in w'.nodes.mounts * w'.nodes.links
  {
    hide ResolvePool, Run, Lawful, UnpublishRun, UnpublishSteps, ValidStore, ApiUpdate, Lookup;
    var r0, r1, r2;
    steps, r0, r1, r2 := Takeover(classes, sc, a);
    var w := Run(Init(classes), steps);
    var t := UnpublishTale(Some(r1), Told, Done, true, Done, Some(r2), Done);
    more := UnpublishSteps(2, "n1", "1", t);
    StepsAreNodes(2, "n1", "1", t, Tale(r0));
    OneMoreCall(classes, steps, more);
    UnpublishRunIsRun(w, 2, "n1", "1", t);
    UnpublishOutcome(w, 2, "n1", "1", r1, t);
    CurrentWrite(w.ctl.store, r2, r1.status.(node := ""));
  }

  lemma StepsAreNodes(c: nat, node: string, uuid: string, t: UnpublishTale, p: PublishTale)
    ensures forall i | 0 <= i < |UnpublishSteps(c, node, uuid, t)| :: UnpublishSteps(c, node, uuid, t)[i].ByNode?
    ensures forall i | 0 <= i < |PublishSteps(c, node, uuid, p)| :: PublishSteps(c, node, uuid, p)[i].ByNode?
  {
  }

  /** A publish that writes what it computed from an old version: it succeeds, and `Prenode` is lost. */
  lemma StalePublishLosesThePrenode(classes: Classes, sc: string, a: Attempt)
    returns (steps: seq<Step>, more: seq<Step>)
    requires a.outcome.Done? && ResolvePool(classes, sc, a).Some?
    ensures LawfulRun(Init(classes), steps + more)
    ensures var w, w' := Run(Init(classes), steps), Run(Init(classes), steps + more);
            && "v" in w.ctl.store.objects && w.ctl.store.objects["v"].status.prenode == "n1"
            && 2 !in w.nodes.calls && 2 in w'.nodes.calls && w'.nodes.calls[2].pc == NodeDone(true)
            && "v" in w'.ctl.store.objects && w'.ctl.store.objects["v"].status.prenode == ""
  {
    hide ResolvePool, Run, Lawful, PublishRun, PublishSteps, ValidStore, ApiUpdate, Lookup;
    var r0, r1, r2;
    steps, r0, r1, r2 := Takeover(classes, sc, a);
    var w := Run(Init(classes), steps);
    var t := Tale(r0).(again := Some(r2));
    more := PublishSteps(2, "n1", "1", t);
    StepsAreNodes(2, "n1", "1", UnpublishTale(None, Told, Done, true, Done, None, Done), t);
    OneMoreCall(classes, steps, more);
    PublishRunIsRun(w, 2, "n1", "1", t);
    PublishOutcome(w, 2, "n1", "1", r0, t);
    CurrentWrite(w.ctl.store, r2, WithStatus(r0, "n1").status);
  }

  /**
   The holder's unpublish whose last reply is lost: it fails although the record has been cleared, so
   the retry that the caller owes is refused.
   */
  lemma LostReplyEndsTheRetries(classes: Classes, sc: string, a: Attempt)
    returns (steps: seq<Step>, more: seq<Step>, again: seq<Step>)
    requires a.outcome.Done? && ResolvePool(classes, sc, a).Some?
    ensures LawfulRun(Init(classes), steps + more)
    ensures var w, w' := Run(Init(classes), steps), Run(Init(classes), steps + more);
            var w'' := Run(w', again);
            && "v" in w.ctl.store.objects && w.ctl.store.objects["v"].status.node == "n2"
            && 2 !in w.nodes.calls && 2 in w'.nodes.calls && w'.nodes.calls[2].pc == NodeDone(false)
            && "v" in w'.ctl.store.objects && w'.ctl.store.objects["v"].status.node == ""
            && 3 in w''.nodes.calls && w''.nodes.calls[3].pc == NodeDone(false)
            && w''.ctl == w'.ctl
  {
    hide ResolvePool, Run, Lawful, UnpublishRun, UnpublishSteps, ValidStore, ApiUpdate, Lookup;
    var r0, r1, r2;
    steps, r0, r1, r2 := Takeover(classes, sc, a);
    var w := Run(Init(classes), steps);
    var t := UnpublishTale(Some(r2), Told, Done, true, Done, Some(r2), Lost);
    more := UnpublishSteps(2, "n2", "1", t);
    StepsAreNodes(2, "n2", "1", t, Tale(r0));
    OneMoreCall(classes, steps, more);
    UnpublishRunIsRun(w, 2, "n2", "1", t);
    StoredIsKnown(w.ctl.store, "v");
    UnpublishConverges(w, 2, "n2", "1", "v", t);
    var w1 := UnpublishRun(w, 2, "n2", "1", t);
    NewUnpublishOnly(w, 2, "n2", "1", t);
    var r3 := w1.ctl.store.objects["v"];
    StoredIsKnown(w1.ctl.store, "v");
    var u := UnpublishTale(Some(r3), Told, Done, true, Done, Some(r3), Done);
    again := UnpublishSteps(3, "n2", "1", u);
    UnpublishRunIsRun(w1, 3, "n2", "1", u);
    FurtherUnpublishIsRefused(w, 2, "n2", "1", "v", t, 3, u);
  }

  lemma NewUnpublishOnly(w: World, c: nat, node: string, uuid: string, t: UnpublishTale)
    ensures forall d | d in UnpublishRun(w, c, node, uuid, t).nodes.calls :: d in w.nodes.calls || d == c
  {
    hide Run, UnpublishRun;
    UnpublishRunIsRun(w, c, node, uuid, t);
    OnlyCall(w, UnpublishSteps(c, node, uuid, t), c);
  }

  // ---------------------------------------------------------------- two publishes at once

  /** Two publishes on n1 that keep pace with each other. */
  function Both(pc: NodePc, links: set<Attachment>): Nodes {
    Nodes(links, {}, map[0 := NodeCall("n1", pc), 1 := NodeCall("n1", pc)], [])
  }

  function OverlapSteps(r: Record): seq<Step> {
    [ByNode(BeginNode(0, "n1", "1", true)), ByNode(BeginNode(1, "n1", "1", true)),
     ByNode(ReadForNode(0, Some(r))), ByNode(ReadForNode(1, Some(r))),
     ByNode(Connect(0, true, Some([]), "d", Done)), ByNode(Connect(1, true, Some([]), "d", Done)),
     ByNode(CheckTarget(0, Told)), ByNode(CheckTarget(1, Told)),
     ByNode(Mount(0, true)), ByNode(Mount(1, false)), ByNode(Undo(1, Done))]
  }

  /** Two steps, one of each call. */
  lemma Pair(w: World, steps: seq<Step>, i: nat)
    requires i + 2 <= |steps|
    ensures Run(w, steps[..i + 2]) == Next(Next(Run(w, steps[..i]), steps[i]), steps[i + 1])
  {
    hide Next, Run;
    RunPrefix(w, steps, i);
    RunPrefix(w, steps, i + 1);
  }

  lemma BothBegin(w: World, r: Record)
    requires Ready(w, r) && w.nodes == Nodes({}, {}, map[], [])
    ensures Run(w, OverlapSteps(r)[..4]) == w.(nodes := Both(PublishConnect(r), {}))
  {
    hide Run, Next, Lookup;
    var s := OverlapSteps(r);
    RunNone(w);
    assert s[..0] == [];
    Pair(w, s, 0);
    Pair(w, s, 2);
    BeginsBoth(w, r);
    ReadsBoth(w.(nodes := Both(PublishRead("v"), {})), r);
  }

  lemma BeginsBoth(w: World, r: Record)
    requires w.nodes == Nodes({}, {}, map[], []) && Lookup(IndexOf(w.ctl, "n1"), "1") == Some("v")
    ensures Next(Next(w, OverlapSteps(r)[0]), OverlapSteps(r)[1]) == w.(nodes := Both(PublishRead("v"), {}))
  {
    hide NextControl, DoReadForNode, DoConnect, DoCheckTarget, DoMount, DoUndo, DoUnmount, DoRemoveTarget,
         DoDetach, DoWriteStatus, DoNodeCrash, Lookup;
    assert Next(Next(w, OverlapSteps(r)[0]), OverlapSteps(r)[1]).nodes.calls == Both(PublishRead("v"), {}).calls;
  }

  lemma ReadsBoth(w: World, r: Record)
    requires w.nodes == Both(PublishRead("v"), {})
    requires r in w.ctl.store.history && r.name == "v" && r.spec.image != "" && r.spec.pool != ""
    ensures Next(Next(w, OverlapSteps(r)[2]), OverlapSteps(r)[3]) == w.(nodes := Both(PublishConnect(r), {}))
  {
    hide NextControl, DoBeginNode, DoConnect, DoCheckTarget, DoMount, DoUndo, DoUnmount, DoRemoveTarget, DoDetach,
         DoWriteStatus, DoNodeCrash;
    assert Next(Next(w, OverlapSteps(r)[2]), OverlapSteps(r)[3]).nodes.calls == Both(PublishConnect(r), {}).calls;
  }

  /** One connect on n1 where everything goes well. */
  lemma ConnectsOne(w: World, c: nat, r: Record)
    requires c in w.nodes.calls && w.nodes.calls[c] == NodeCall("n1", PublishConnect(r)) && IdOf(r.spec) in w.ctl.images
    ensures Next(w, ByNode(Connect(c, true, Some([]), "d", Done)))
         == w.(nodes := w.nodes.(links := w.nodes.links + {AttachmentOf("n1", r)},
                                 calls := w.nodes.calls[c := NodeCall("n1", PublishCheck(r, "d", []))]))
  {
    hide NextControl, DoBeginNode, DoReadForNode, DoCheckTarget, DoMount, DoUndo, DoUnmount, DoRemoveTarget, DoDetach,
         DoWriteStatus, DoNodeCrash;
  }

  lemma ConnectsBoth(w: World, r: Record)
    requires w.nodes == Both(PublishConnect(r), {}) && IdOf(r.spec) in w.ctl.images
    ensures Next(Next(w, OverlapSteps(r)[4]), OverlapSteps(r)[5])
         == w.(nodes := Both(PublishCheck(r, "d", []), {AttachmentOf("n1", r)}))
  {
    hide Next;
    ConnectsOne(w, 0, r);
    var w1 := Next(w, OverlapSteps(r)[4]);
    ConnectsOne(w1, 1, r);
    var n := Next(w1, OverlapSteps(r)[5]).nodes;
    assert n.calls == Both(PublishCheck(r, "d", []), {}).calls && n.links == {AttachmentOf("n1", r)};
  }

  lemma ChecksBoth(w: World, r: Record, links: set<Attachment>)
    requires w.nodes == Both(PublishCheck(r, "d", []), links)
    ensures Next(Next(w, OverlapSteps(r)[6]), OverlapSteps(r)[7]) == w.(nodes := Both(PublishMount(r, "d", []), links))
  {
    hide NextControl, DoBeginNode, DoReadForNode, DoConnect, DoMount, DoUndo, DoUnmount, DoRemoveTarget, DoDetach,
         DoWriteStatus, DoNodeCrash;
    assert Next(Next(w, OverlapSteps(r)[6]), OverlapSteps(r)[7]).nodes.calls == Both(PublishMount(r, "d", []), {}).calls;
  }

  lemma OneMounts(w: World, r: Record)
    requires w.nodes == Both(PublishMount(r, "d", []), {AttachmentOf("n1", r)})
    ensures var n := Next(Next(Next(w, OverlapSteps(r)[8]), OverlapSteps(r)[9]), OverlapSteps(r)[10]).nodes;
            n.mounts == {AttachmentOf("n1", r)} && n.links == {}
  {
    hide NextControl, DoBeginNode, DoReadForNode, DoConnect, DoCheckTarget, DoUnmount, DoRemoveTarget, DoDetach,
         DoWriteStatus, DoNodeCrash;
  }

  /**
   Two publishes of one volume at once on one node, no check failing: the one that cannot mount takes
   the device away from under the other's mount.
   */
  lemma OverlapStrandsTheMount(classes: Classes, sc: string, a: Attempt) returns (steps: seq<Step>, r: Record)
    requires a.outcome.Done? && ResolvePool(classes, sc, a).Some?
    ensures LawfulRun(Init(classes), steps)
    ensures forall i | 0 <= i < |steps| && steps[i].ByNode? && steps[i].t.CheckTarget? :: !steps[i].t.check.Failed?
    ensures var n := Run(Init(classes), steps).nodes;
            AttachmentOf("n1", r) in n.mounts && AttachmentOf("n1", r) !in n.links
  {
    hide ResolvePool, Run, Lawful, Next, OneCreate;
    var made;
    made, r := CreatedReady(classes, sc, a);
    var w, s := Run(Init(classes), made), OverlapSteps(r);
    BothBegin(w, r);
    Pair(w, s, 4);
    ConnectsBoth(w.(nodes := Both(PublishConnect(r), {})), r);
    Pair(w, s, 6);
    ChecksBoth(w.(nodes := Both(PublishCheck(r, "d", []), {AttachmentOf("n1", r)})), r, {AttachmentOf("n1", r)});
    Pair(w, s, 8);
    RunPrefix(w, s, 10);
    OneMounts(w.(nodes := Both(PublishMount(r, "d", []), {AttachmentOf("n1", r)})), r);
    assert s[..11] == s;
    OneMoreCall(classes, made, s);
    steps := made + s;
  }
}
