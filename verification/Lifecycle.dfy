/**
 The volume lifecycle as one machine. `Control` is what the controllers share and keep: the
 records, the images, every process's uuid index and the calls in flight. `World` adds the nodes:
 device connections, mounts and the node calls in flight.

 A step is one effect of one call. Whatever a step does not decide by itself (what a stale read
 returns, in which order a map is iterated, how another service answers) is in its label, so a run
 is a sequence of labels. A step that its call is not at leaves everything as it is.
 */
module Lifecycle {
  import opened Records
  import opened StorageClass

  datatype ImageId = ImageId(pool: string, image: string)

  /** An image with its size; `uuid` and `maker` remember which create call made it. */
  datatype Image = Image(mib: int, uuid: string, maker: nat)

  /** A volume's device on a node: connected (a watcher of the image) or mounted. */
  datatype Attachment = Attachment(node: string, id: ImageId)

  /** A successful answer to CreateVolume. */
  datatype Answer = Answer(name: string, required: int, uuid: string, capacity: int)

  datatype Pc =
    // CreateVolume, named by the effect that is next
    | CreateImage(name: string, capacity: int, sc: string, uuid: string)
    | CreateReserve(name: string, spec: Spec)
    | CreateRecord(name: string, spec: Spec)
    | CreateRelease(name: string, spec: Spec)
    | CreateRollback(name: string, spec: Spec)
    | Leaked(name: string, spec: Spec)           // over, but its image is left behind
    | Created(uuid: string, capacity: int)       // over, answered
    // DeleteVolume
    | DeleteRead(uuid: string, name: string)
    | DeleteImage(record: Record)
    | DeleteMark(record: Record)
    // Reconcile of a terminating record
    | Strip(record: Record)
    | Finished(ok: bool)

  datatype Call = Call(proc: string, pc: Pc)

  type Index = map<string, string>

  /**
   `uuids` (which name each generated uuid was for), `answers`, `dropped` (uuids of the records
   whose image a DeleteVolume removed) and `retired` (names that a DeleteVolume resolved) only
   remember what happened; no step's effect on the rest depends on them, except that a generated
   uuid is new.
   */
  datatype Control = Control(
    classes: map<string, map<string, string>>,
    store: Store,
    images: map<ImageId, Image>,
    index: map<string, Index>,
    calls: map<nat, Call>,
    uuids: map<string, string>,
    answers: set<Answer>,
    dropped: set<string>,
    retired: set<string>)

  /** How one attempt at a storage class goes: iteration order, lookups, and the rbd command's fate. */
  datatype Attempt = Attempt(order: seq<string>, lookups: Lookups, outcome: Outcome)

  datatype ControlStep =
    | BeginCreate(c: nat, proc: string, name: string, required: int, sc: Option<string>,
                  seen: Option<Record>, labelled: bool, uuid: string)
    | MakeImage(c: nat, attempt: Attempt)
    | Reserve(c: nat)
    | PostRecord(c: nat, outcome: Outcome)
    | Release(c: nat)
    | Rollback(c: nat, attempt: Attempt)
    | BeginDelete(c: nat, proc: string, uuid: string)
    | ReadForDelete(c: nat, seen: Option<Record>)
    | DropImage(c: nat, attempt: Attempt)
    | MarkDeleted(c: nat, seen: Option<Record>, outcome: Outcome)
    | Reconcile(c: nat, proc: string, name: string, seen: Option<Record>)
    | StripFinalizer(c: nat, outcome: Outcome)
    | Crash(proc: string)

  // ---------------------------------------------------------------- shared pieces

  function IndexOf(k: Control, proc: string): Index {
    if proc in k.index then k.index[proc] else map[]
  }

  function WithIndex(k: Control, proc: string, idx: Index): Control {
    k.(index := k.index[proc := idx])
  }

  /** A uuid is reserved for one name; reserving it again for that name is fine. */
  function ReserveUuid(idx: Index, uuid: string, name: string): Option<Index> {
    if uuid in idx then (if idx[uuid] == name then Some(idx) else None)
    else Some(idx[uuid := name])
  }

  /** The name behind a uuid; neither of the two may be empty. */
  function Lookup(idx: Index, uuid: string): Option<string> {
    if uuid != "" && uuid in idx && idx[uuid] != "" then Some(idx[uuid]) else None
  }

  function Goto(k: Control, c: nat, pc: Pc): Control
    requires c in k.calls
  {
    k.(calls := k.calls[c := k.calls[c].(pc := pc)])
  }

  predicate At(k: Control, c: nat, pc: Pc) {
    c in k.calls && k.calls[c].pc == pc
  }

  /** The pool that this attempt at the class resolves to. */
  function ResolvePool(classes: map<string, map<string, string>>, sc: string, a: Attempt): Option<string> {
    if !a.lookups.apiUp || sc !in classes || !IsOrder(a.order, classes[sc]) then None
    else
      match Parse(a.lookups, classes[sc], a.order)
      case Ok(opts) => Some(opts.pool)
      case Err(_) => None
  }

  predicate Watched(links: set<Attachment>, id: ImageId) {
    exists l :: l in links && l.id == id
  }

  datatype Removal = Removal(images: map<ImageId, Image>, ok: bool)

  /** `rbd status` then `rbd rm`: fine when the image is already gone, refused while it is watched. */
  function RemoveImage(images: map<ImageId, Image>, links: set<Attachment>, id: ImageId, outcome: Outcome): Removal {
    if outcome.Refused? then Removal(images, false)
    else if id !in images then Removal(images, outcome.Done?)
    else if Watched(links, id) then Removal(images, false)
    else Removal(images - {id}, outcome.Done?)
  }

  function IdOf(spec: Spec): ImageId {
    ImageId(spec.pool, spec.image)
  }

  predicate SameGoods(k: Control, k': Control) {
    k'.classes == k.classes && k'.store == k.store && k'.images == k.images
  }

  /** The rollback of call `c` may take `id`: it addresses it, and nobody watches it. */
  predicate RollbackTakes(k: Control, links: set<Attachment>, c: nat, a: Attempt, id: ImageId) {
    && c in k.calls && k.calls[c].pc.CreateRollback?
    && ResolvePool(k.classes, k.calls[c].pc.spec.rbdSc, a) == Some(id.pool) && id.image == k.calls[c].pc.name
    && !Watched(links, id)
  }

  /** The image step of the deleting call `c` may take `id`. */
  predicate DropTakes(k: Control, links: set<Attachment>, c: nat, a: Attempt, id: ImageId) {
    && c in k.calls && k.calls[c].pc.DeleteImage?
    && ResolvePool(k.classes, k.calls[c].pc.record.spec.rbdSc, a) == Some(id.pool)
    && id.image == k.calls[c].pc.record.spec.image
    && !Watched(links, id)
  }

  // ---------------------------------------------------------------- CreateVolume

  function DoBeginCreate(k: Control, c: nat, proc: string, name: string, required: int, sc: Option<string>,
                         seen: Option<Record>, labelled: bool, uuid: string): (k': Control)
    ensures SameGoods(k, k')
  {
    if c in k.calls || name == "" || !MayRead(k.store, name, seen) then k
    else if seen.Some? then
      var spec := seen.value.spec;
      if spec.capacity < required then k.(calls := k.calls[c := Call(proc, Finished(false))])
      else k.(calls := k.calls[c := Call(proc, Created(spec.uuid, spec.capacity))],
              answers := k.answers + {Answer(name, required, spec.uuid, spec.capacity)})
    else if !labelled then k.(calls := k.calls[c := Call(proc, Finished(false))])
    else if uuid in k.uuids || uuid == "" then k
    else
      var pc := if sc.Some? then CreateImage(name, required, sc.value, uuid) else Finished(false);
      k.(uuids := k.uuids[uuid := name], calls := k.calls[c := Call(proc, pc)])
  }

  function DoMakeImage(k: Control, c: nat, a: Attempt): (k': Control)
    ensures k' == k.(images := k'.images, calls := k'.calls) && k.images.Keys <= k'.images.Keys
  {
    if c !in k.calls || !k.calls[c].pc.CreateImage? then k
    else
      var pc := k.calls[c].pc;
      var pool := ResolvePool(k.classes, pc.sc, a);
      var mib := MibFor(pc.capacity);
      if pool.None? || mib <= 0 || a.outcome.Refused? || ImageId(pool.value, pc.name) in k.images
      then Goto(k, c, Finished(false))
      else
        var spec := Spec(pc.uuid, pc.capacity, pc.sc, pool.value, pc.name);
        var k' := k.(images := k.images[IdOf(spec) := Image(mib, pc.uuid, c)]);
        Goto(k', c, if a.outcome.Done? then CreateReserve(pc.name, spec) else Leaked(pc.name, spec))
  }

  function DoReserve(k: Control, c: nat): (k': Control)
    ensures SameGoods(k, k')
  {
    if c !in k.calls || !k.calls[c].pc.CreateReserve? then k
    else
      var Call(proc, pc) := k.calls[c];
      match ReserveUuid(IndexOf(k, proc), pc.spec.uuid, pc.name)
      case Some(idx) => WithIndex(Goto(k, c, CreateRecord(pc.name, pc.spec)), proc, idx)
      case None => Goto(k, c, CreateRollback(pc.name, pc.spec))
  }

  function DoPostRecord(k: Control, c: nat, outcome: Outcome): (k': Control)
    ensures k'.classes == k.classes && k'.images == k.images
  {
    if c !in k.calls || !k.calls[c].pc.CreateRecord? then k
    else
      var pc := k.calls[c].pc;
      var s' := ApiCreate(k.store, pc.name, pc.spec);
      if outcome.Refused? || s'.None? then Goto(k, c, CreateRelease(pc.name, pc.spec))
      else if outcome.Lost? then Goto(k.(store := s'.value), c, CreateRelease(pc.name, pc.spec))
      else
        var answer := Answer(pc.name, pc.spec.capacity, pc.spec.uuid, pc.spec.capacity);
        Goto(k.(store := s'.value, answers := k.answers + {answer}), c, Created(pc.spec.uuid, pc.spec.capacity))
  }

  function DoRelease(k: Control, c: nat): (k': Control)
    ensures SameGoods(k, k')
  {
    if c !in k.calls || !k.calls[c].pc.CreateRelease? then k
    else
      var Call(proc, pc) := k.calls[c];
      WithIndex(Goto(k, c, CreateRollback(pc.name, pc.spec)), proc, IndexOf(k, proc) - {pc.spec.uuid})
  }

  function DoRollback(k: Control, links: set<Attachment>, c: nat, a: Attempt): (k': Control)
    ensures k'.classes == k.classes && k'.store == k.store
    ensures forall id | id in k.images && id !in k'.images :: RollbackTakes(k, links, c, a, id)
  {
    if c !in k.calls || !k.calls[c].pc.CreateRollback? then k
    else
      var pc := k.calls[c].pc;
      var pool := ResolvePool(k.classes, pc.spec.rbdSc, a);
      if pool.None? then Goto(k, c, Leaked(pc.name, pc.spec))
      else
        var images := RemoveImage(k.images, links, ImageId(pool.value, pc.name), a.outcome).images;
        Goto(k.(images := images), c,
             if IdOf(pc.spec) in images then Leaked(pc.name, pc.spec) else Finished(false))
  }

  // ---------------------------------------------------------------- DeleteVolume

  function DoBeginDelete(k: Control, c: nat, proc: string, uuid: string): (k': Control)
    ensures SameGoods(k, k')
  {
    if c in k.calls then k
    else
      var idx := IndexOf(k, proc);
      var pc := if Lookup(idx, uuid).None? then Finished(true) else DeleteRead(uuid, Lookup(idx, uuid).value);
      k.(calls := k.calls[c := Call(proc, pc)])
  }

  function DoReadForDelete(k: Control, c: nat, seen: Option<Record>): (k': Control)
    ensures SameGoods(k, k')
  {
    if c !in k.calls || !k.calls[c].pc.DeleteRead? || !MayRead(k.store, k.calls[c].pc.name, seen) then k
    else if seen.None? then Goto(k, c, Finished(true))
    else Goto(k, c, DeleteImage(seen.value)).(retired := k.retired + {seen.value.name})
  }

  function DoDropImage(k: Control, links: set<Attachment>, c: nat, a: Attempt): (k': Control)
    ensures k'.classes == k.classes && k'.store == k.store
    ensures forall id | id in k.images && id !in k'.images :: DropTakes(k, links, c, a, id)
  {
    if c !in k.calls || !k.calls[c].pc.DeleteImage? then k
    else
      var r := k.calls[c].pc.record;
      var pool := ResolvePool(k.classes, r.spec.rbdSc, a);
      if pool.None? then Goto(k, c, Finished(false))
      else
        var id := ImageId(pool.value, r.spec.image);
        var removal := RemoveImage(k.images, links, id, a.outcome);
        var dropped := if id in k.images && id !in removal.images then k.dropped + {r.spec.uuid} else k.dropped;
        Goto(k.(images := removal.images, dropped := dropped), c,
             if removal.ok then DeleteMark(r) else Finished(false))
  }

  function DoMarkDeleted(k: Control, c: nat, seen: Option<Record>, outcome: Outcome): (k': Control)
    ensures k'.classes == k.classes && k'.images == k.images
  {
    if c !in k.calls || !k.calls[c].pc.DeleteMark? || !MayRead(k.store, k.calls[c].pc.record.name, seen) then k
    else
      var s' := ApiDelete(k.store, k.calls[c].pc.record.name);
      if seen.None? || outcome.Refused? || s'.None? then Goto(k, c, Finished(false))
      else Goto(k.(store := s'.value), c, Finished(outcome.Done?))
  }

  // ---------------------------------------------------------------- Reconcile, crashes

  function DoReconcile(k: Control, c: nat, proc: string, name: string, seen: Option<Record>): (k': Control)
    ensures SameGoods(k, k')
  {
    if c in k.calls || !MayRead(k.store, name, seen) || seen.None? then k
    else if seen.value.deleting then
      if seen.value.status.node == "" then k.(calls := k.calls[c := Call(proc, Strip(seen.value))]) else k
    else
      match ReserveUuid(IndexOf(k, proc), seen.value.spec.uuid, name)
      case Some(idx) => WithIndex(k, proc, idx)
      case None => k
  }

  function DoStripFinalizer(k: Control, c: nat, outcome: Outcome): (k': Control)
    ensures k'.classes == k.classes && k'.images == k.images
  {
    if c !in k.calls || !k.calls[c].pc.Strip? then k
    else
      var s' := ApiUpdate(k.store, k.calls[c].pc.record.(finalizers := []));
      if outcome.Refused? || s'.None? then Goto(k, c, Finished(false))
      else Goto(k.(store := s'.value), c, Finished(true))
  }

  /** Between its own image create and its end, a create call is answerable for its image. */
  predicate OwnsImage(pc: Pc) {
    pc.CreateReserve? || pc.CreateRecord? || pc.CreateRelease? || pc.CreateRollback? || pc.Leaked?
  }

  predicate Over(pc: Pc) {
    pc.Leaked? || pc.Created? || pc.Finished?
  }

  /** What a process's death makes of one of its calls. */
  function Abandon(pc: Pc): Pc {
    if Over(pc) then pc
    else if OwnsImage(pc) then Leaked(pc.name, pc.spec)
    else Finished(false)
  }

  function DoCrash(k: Control, proc: string): (k': Control)
    ensures SameGoods(k, k')
  {
    k.(index := k.index - {proc},
       calls := map c | c in k.calls ::
         if k.calls[c].proc == proc then k.calls[c].(pc := Abandon(k.calls[c].pc)) else k.calls[c])
  }

  function NextControl(k: Control, links: set<Attachment>, s: ControlStep): Control {
    match s
    case BeginCreate(c, proc, name, required, sc, seen, labelled, uuid) =>
      DoBeginCreate(k, c, proc, name, required, sc, seen, labelled, uuid)
    case MakeImage(c, a) => DoMakeImage(k, c, a)
    case Reserve(c) => DoReserve(k, c)
    case PostRecord(c, outcome) => DoPostRecord(k, c, outcome)
    case Release(c) => DoRelease(k, c)
    case Rollback(c, a) => DoRollback(k, links, c, a)
    case BeginDelete(c, proc, uuid) => DoBeginDelete(k, c, proc, uuid)
    case ReadForDelete(c, seen) => DoReadForDelete(k, c, seen)
    case DropImage(c, a) => DoDropImage(k, links, c, a)
    case MarkDeleted(c, seen, outcome) => DoMarkDeleted(k, c, seen, outcome)
    case Reconcile(c, proc, name, seen) => DoReconcile(k, c, proc, name, seen)
    case StripFinalizer(c, outcome) => DoStripFinalizer(k, c, outcome)
    case Crash(proc) => DoCrash(k, proc)
  }

  // ---------------------------------------------------------------- nodes

  datatype NodePc =
    | PublishRead(name: string)
    | PublishConnect(record: Record)
    | PublishCheck(record: Record, dev: string, zone: seq<string>)
    | PublishMount(record: Record, dev: string, zone: seq<string>)
    | PublishUndo(record: Record)
    | PublishCommit(record: Record, dev: string, zone: seq<string>)
    | UnpublishRead(name: string)
    | UnpublishCheck(record: Record)
    | UnpublishRemove(record: Record)
    | UnpublishDetach(record: Record)
    | UnpublishCommit(record: Record)
    | NodeDone(ok: bool)

  datatype NodeCall = NodeCall(node: string, pc: NodePc)

  /** A publish that wrote its status, with the `Node` it had found. */
  datatype Commit = Commit(uuid: string, found: string)

  datatype Nodes = Nodes(links: set<Attachment>, mounts: set<Attachment>, calls: map<nat, NodeCall>,
                         commits: seq<Commit>)

  /** What checking the target path says: the truth, that the path is missing, or an error. */
  datatype Check = Told | Missing(made: bool) | Failed

  datatype NodeStep =
    | BeginNode(c: nat, node: string, uuid: string, publish: bool)
    | ReadForNode(c: nat, seen: Option<Record>)
    | Connect(c: nat, ready: bool, zone: Option<seq<string>>, dev: string, outcome: Outcome)
    | CheckTarget(c: nat, check: Check)
    | Mount(c: nat, ok: bool)
    | Undo(c: nat, outcome: Outcome)
    | Unmount(c: nat, check: Check, outcome: Outcome)
    | RemoveTarget(c: nat, ok: bool)
    | Detach(c: nat, outcome: Outcome)
    | WriteStatus(c: nat, seen: Option<Record>, ip: string, outcome: Outcome)
    | NodeCrash(node: string)

  datatype World = World(ctl: Control, nodes: Nodes)

  datatype Step = ByControl(s: ControlStep) | ByNode(t: NodeStep)

  function AttachmentOf(node: string, r: Record): Attachment {
    Attachment(node, IdOf(r.spec))
  }

  function GotoNode(n: Nodes, c: nat, pc: NodePc): Nodes
    requires c in n.calls
  {
    n.(calls := n.calls[c := n.calls[c].(pc := pc)])
  }

  /** The call works on a volume: it has read the record and not come to its end. */
  predicate Holding(pc: NodePc) {
    !(pc.PublishRead? || pc.UnpublishRead? || pc.NodeDone?)
  }

  /** An unpublish that has been let in. */
  predicate Unpublishing(pc: NodePc) {
    pc.UnpublishCheck? || pc.UnpublishRemove? || pc.UnpublishDetach? || pc.UnpublishCommit?
  }

  /** No call takes up another record or another's work, and no commit is added. */
  predicate KeepsRecords(n: Nodes, n': Nodes) {
    && n'.commits == n.commits
    && forall c | c in n'.calls && Holding(n'.calls[c].pc) ::
         && c in n.calls && Holding(n.calls[c].pc) && n'.calls[c].pc.record == n.calls[c].pc.record
         && n'.calls[c].node == n.calls[c].node && (Unpublishing(n'.calls[c].pc) <==> Unpublishing(n.calls[c].pc))
  }

  function DoBeginNode(w: World, c: nat, node: string, uuid: string, publish: bool): (n': Nodes)
    ensures KeepsRecords(w.nodes, n')
  {
    if c in w.nodes.calls then w.nodes
    else
      var idx := IndexOf(w.ctl, node);
      var pc := if Lookup(idx, uuid).None? then NodeDone(false)
                else if publish then PublishRead(Lookup(idx, uuid).value) else UnpublishRead(Lookup(idx, uuid).value);
      w.nodes.(calls := w.nodes.calls[c := NodeCall(node, pc)])
  }

  /** The record is refused when it names no image, or for unpublish when another node holds the volume. */
  function DoReadForNode(w: World, c: nat, seen: Option<Record>): Nodes {
    var n := w.nodes;
    if c !in n.calls || !(n.calls[c].pc.PublishRead? || n.calls[c].pc.UnpublishRead?)
       || !MayRead(w.ctl.store, n.calls[c].pc.name, seen)
    then n
    else if seen.None? then GotoNode(n, c, NodeDone(false))
    else
      var r := seen.value;
      if n.calls[c].pc.PublishRead? then
        GotoNode(n, c, if r.spec.image == "" || r.spec.pool == "" then NodeDone(false) else PublishConnect(r))
      else
        GotoNode(n, c, if r.status.node != n.calls[c].node then NodeDone(false) else UnpublishCheck(r))
  }

  /** Connecting needs the image; an error may still leave the device connected. */
  function DoConnect(w: World, c: nat, ready: bool, zone: Option<seq<string>>, dev: string, outcome: Outcome): (n': Nodes)
    ensures KeepsRecords(w.nodes, n')
  {
    var n := w.nodes;
    if c !in n.calls || !n.calls[c].pc.PublishConnect? then n
    else
      var r := n.calls[c].pc.record;
      if !ready || zone.None? || outcome.Refused? || IdOf(r.spec) !in w.ctl.images
      then GotoNode(n, c, NodeDone(false))
      else
        var n' := n.(links := n.links + {AttachmentOf(n.calls[c].node, r)});
        GotoNode(n', c, if outcome.Lost? || dev == "" then NodeDone(false) else PublishCheck(r, dev, zone.value))
  }

  function DoCheckTarget(n: Nodes, c: nat, check: Check): (n': Nodes)
    ensures KeepsRecords(n, n')
  {
    if c !in n.calls || !n.calls[c].pc.PublishCheck? then n
    else
      var NodeCall(node, pc) := n.calls[c];
      var mounted := AttachmentOf(node, pc.record) in n.mounts;
      match check
      case Told =>
        GotoNode(n, c, if mounted then PublishCommit(pc.record, pc.dev, pc.zone)
                       else PublishMount(pc.record, pc.dev, pc.zone))
      case Missing(made) =>
        if mounted then n
        else GotoNode(n, c, if made then PublishMount(pc.record, pc.dev, pc.zone) else PublishUndo(pc.record))
      case Failed => GotoNode(n, c, PublishUndo(pc.record))
  }

  function DoMount(n: Nodes, c: nat, ok: bool): (n': Nodes)
    ensures KeepsRecords(n, n')
  {
    if c !in n.calls || !n.calls[c].pc.PublishMount? then n
    else
      var NodeCall(node, pc) := n.calls[c];
      if ok then GotoNode(n.(mounts := n.mounts + {AttachmentOf(node, pc.record)}), c,
                          PublishCommit(pc.record, pc.dev, pc.zone))
      else GotoNode(n, c, PublishUndo(pc.record))
  }

  /** The deferred rollback of a failed publish. */
  function DoUndo(n: Nodes, c: nat, outcome: Outcome): (n': Nodes)
    ensures KeepsRecords(n, n')
  {
    if c !in n.calls || !n.calls[c].pc.PublishUndo? then n
    else
      var a := AttachmentOf(n.calls[c].node, n.calls[c].pc.record);
      GotoNode(if outcome.Refused? then n else n.(links := n.links - {a}), c, NodeDone(false))
  }

  function DoUnmount(n: Nodes, c: nat, check: Check, outcome: Outcome): (n': Nodes)
    ensures KeepsRecords(n, n')
  {
    if c !in n.calls || !n.calls[c].pc.UnpublishCheck? then n
    else
      var r := n.calls[c].pc.record;
      var a := AttachmentOf(n.calls[c].node, r);
      if check.Failed? then GotoNode(n, c, NodeDone(false))
      else if a !in n.mounts then GotoNode(n, c, UnpublishRemove(r))
      else if check.Missing? then n
      else if outcome.Refused? then GotoNode(n, c, NodeDone(false))
      else GotoNode(n.(mounts := n.mounts - {a}), c, if outcome.Lost? then NodeDone(false) else UnpublishRemove(r))
  }

  function DoRemoveTarget(n: Nodes, c: nat, ok: bool): (n': Nodes)
    ensures KeepsRecords(n, n')
  {
    if c !in n.calls || !n.calls[c].pc.UnpublishRemove? then n
    else GotoNode(n, c, if ok then UnpublishDetach(n.calls[c].pc.record) else NodeDone(false))
  }

  function DoDetach(n: Nodes, c: nat, outcome: Outcome): (n': Nodes)
    ensures KeepsRecords(n, n')
  {
    if c !in n.calls || !n.calls[c].pc.UnpublishDetach? then n
    else
      var r := n.calls[c].pc.record;
      var n' := if outcome.Refused? then n else n.(links := n.links - {AttachmentOf(n.calls[c].node, r)});
      GotoNode(n', c, if outcome.Done? then UnpublishCommit(r) else NodeDone(false))
  }

  /** The status a publish writes, computed from the copy that the call read at its start. */
  function PublishedStatus(was: Status, node: string, dev: string, ip: string, zone: seq<string>): Status {
    var prenode := if was.node != "" && was.prenode == "" then was.node else was.prenode;
    Status(dev, ip, prenode, node, zone)
  }

  predicate Committing(pc: NodePc) {
    pc.PublishCommit? || pc.UnpublishCommit?
  }

  /** The status the call is about to write. */
  function StatusToWrite(call: NodeCall, ip: string): Status
    requires Committing(call.pc)
  {
    if call.pc.PublishCommit?
    then PublishedStatus(call.pc.record.status, call.node, call.pc.dev, ip, call.pc.zone)
    else call.pc.record.status.(node := "")
  }

  /** The store after the call's compare-and-swap, if that succeeded. */
  function StatusUpdate(w: World, c: nat, seen: Option<Record>, ip: string, outcome: Outcome): Option<Store>
    requires c in w.nodes.calls && Committing(w.nodes.calls[c].pc)
  {
    if seen.None? || outcome.Refused? then None
    else ApiUpdate(w.ctl.store, seen.value.(status := StatusToWrite(w.nodes.calls[c], ip)))
  }

  predicate CanWrite(w: World, c: nat, seen: Option<Record>) {
    c in w.nodes.calls && Committing(w.nodes.calls[c].pc)
    && MayRead(w.ctl.store, w.nodes.calls[c].pc.record.name, seen)
  }

  function DoWriteStatus(w: World, c: nat, seen: Option<Record>, ip: string, outcome: Outcome): World {
    if !CanWrite(w, c, seen) then w
    else
      match StatusUpdate(w, c, seen, ip, outcome)
      case None => w.(nodes := GotoNode(w.nodes, c, NodeDone(false)))
      case Some(s') =>
        var pc := w.nodes.calls[c].pc;
        var commits := if pc.PublishCommit?
                       then w.nodes.commits + [Commit(pc.record.spec.uuid, pc.record.status.node)]
                       else w.nodes.commits;
        World(w.ctl.(store := s'), GotoNode(w.nodes.(commits := commits), c, NodeDone(outcome.Done?)))
  }

  function DoNodeCrash(w: World, node: string): World {
    World(
      DoCrash(w.ctl, node),
      w.nodes.(calls := map c | c in w.nodes.calls ::
        if w.nodes.calls[c].node == node && !w.nodes.calls[c].pc.NodeDone?
        then w.nodes.calls[c].(pc := NodeDone(false)) else w.nodes.calls[c]))
  }

  function NextNode(w: World, t: NodeStep): World {
    match t
    case BeginNode(c, node, uuid, publish) => w.(nodes := DoBeginNode(w, c, node, uuid, publish))
    case ReadForNode(c, seen) => w.(nodes := DoReadForNode(w, c, seen))
    case Connect(c, ready, zone, dev, outcome) => w.(nodes := DoConnect(w, c, ready, zone, dev, outcome))
    case CheckTarget(c, check) => w.(nodes := DoCheckTarget(w.nodes, c, check))
    case Mount(c, ok) => w.(nodes := DoMount(w.nodes, c, ok))
    case Undo(c, outcome) => w.(nodes := DoUndo(w.nodes, c, outcome))
    case Unmount(c, check, outcome) => w.(nodes := DoUnmount(w.nodes, c, check, outcome))
    case RemoveTarget(c, ok) => w.(nodes := DoRemoveTarget(w.nodes, c, ok))
    case Detach(c, outcome) => w.(nodes := DoDetach(w.nodes, c, outcome))
    case WriteStatus(c, seen, ip, outcome) => DoWriteStatus(w, c, seen, ip, outcome)
    case NodeCrash(node) => DoNodeCrash(w, node)
  }

  function Next(w: World, s: Step): World {
    match s
    case ByControl(cs) => w.(ctl := NextControl(w.ctl, w.nodes.links, cs))
    case ByNode(t) => NextNode(w, t)
  }

  // ---------------------------------------------------------------- runs

  function Init(classes: map<string, map<string, string>>): World {
    World(Control(classes, EMPTY_STORE, map[], map[], map[], map[], {}, {}, {}), Nodes({}, {}, map[], []))
  }

  function Run(w: World, steps: seq<Step>): World {
    if steps == [] then w else Next(Run(w, steps[..|steps| - 1]), steps[|steps| - 1])
  }
}
