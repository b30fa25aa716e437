/**
 Exactly when `Prenode` tells the truth, without asking that node calls be serialised or that they read
 what is stored: it comes down to the copies from which statuses are computed.
 */
module PrenodeHistory {
  import opened Records
  import opened Lifecycle
  import opened Soundness
  import opened Ownership
  import opened Guarantees
  import opened Copies
  import opened HolderStatus

  /** The step writes the status of `name`, and the write takes effect. */
  predicate WritesStatus(w: World, s: Step, name: string) {
    && s.ByNode? && s.t.WriteStatus? && CanWrite(w, s.t.c, s.t.seen)
    && w.nodes.calls[s.t.c].pc.record.name == name
    && StatusUpdate(w, s.t.c, s.t.seen, s.t.ip, s.t.outcome).Some?
  }

  /** The call's copy has this `Prenode`, or the call is a publish whose copy makes it that. */
  predicate CarriesPrenode(call: NodeCall, p: string)
    requires Committing(call.pc)
  {
    var copy := call.pc.record.status;
    copy.prenode == p || (call.pc.PublishCommit? && copy.prenode == "" && copy.node == p)
  }

  lemma WriteIsNext(w: World, s: Step)
    requires s.ByNode? && s.t.WriteStatus?
    ensures Next(w, s) == DoWriteStatus(w, s.t.c, s.t.seen, s.t.ip, s.t.outcome)
  {
  }

  /** An effective write puts what the call computed in the place of the stored status. */
  lemma EffectiveWrite(w: World, s: Step, name: string)
    requires ValidStore(w.ctl.store) && WritesStatus(w, s, name)
    ensures var call := w.nodes.calls[s.t.c];
            var o, o' := w.ctl.store.objects, Next(w, s).ctl.store.objects;
            && o'.Keys == o.Keys && name in o && o'[name].status == StatusToWrite(call, s.t.ip) && o'[name].spec == o[name].spec
            && (forall n | n in o && n != name :: o'[n] == o[n])
            && Next(w, s).nodes.commits ==
               (if call.pc.PublishCommit? then w.nodes.commits + [Commit(call.pc.record.spec.uuid, call.pc.record.status.node)]
                else w.nodes.commits)
  {
    WriteIsNext(w, s);
    hide Next, ApiUpdate, StatusToWrite, MayRead;
    WriteStatusShape(w, s.t.c, s.t.seen, s.t.ip, s.t.outcome);
  }

  lemma WrittenPrenode(call: NodeCall, ip: string, p: string)
    requires Committing(call.pc) && p != ""
    ensures StatusToWrite(call, ip).prenode == p <==> CarriesPrenode(call, p)
  {
  }

  /** Any step but an effective write of some status keeps statuses and commits. */
  lemma OtherStep(w: World, s: Step)
    requires Sound(w.ctl) && forall n :: !WritesStatus(w, s, n)
    ensures StatusesKept(w.ctl, Next(w, s).ctl) && Next(w, s).nodes.commits == w.nodes.commits
    ensures !s.ByControl? ==> Next(w, s).ctl.store == w.ctl.store
  {
    hide Sound, NextControl, StatusUpdate, MayRead, DoCrash, DoBeginNode, DoConnect, DoCheckTarget,
         DoMount, DoUndo, DoUnmount, DoRemoveTarget, DoDetach;
    match s {
      case ByControl(cs) => ControlKeepsStatuses(w.ctl, w.nodes.links, cs);
      case ByNode(WriteStatus(c, seen, ip, outcome)) =>
        if CanWrite(w, c, seen) {
          assert !WritesStatus(w, s, w.nodes.calls[c].pc.record.name);
        }
      case _ =>
    }
  }

  /**
   Exactly when a step of the machine, whatever came before it, keeps a `Prenode` that is set: unless it
   is a status write that takes effect and was computed from a copy that knows nothing of it.
   */
  lemma PrenodeKeptIff(w: World, s: Step, name: string)
    requires Sound(w.ctl)
    requires name in w.ctl.store.objects && name in Next(w, s).ctl.store.objects
    requires w.ctl.store.objects[name].status.prenode != ""
    ensures var p := w.ctl.store.objects[name].status.prenode;
            Next(w, s).ctl.store.objects[name].status.prenode == p <==>
            (WritesStatus(w, s, name) ==> CarriesPrenode(w.nodes.calls[s.t.c], p))
  {
    hide Next, Sound, CarriesPrenode, StatusToWrite, WritesStatus;
    SoundStore(w.ctl);
    if n: string :| WritesStatus(w, s, n) {
      WriterIsOne(w, s, n, name);
      EffectiveWrite(w, s, n);
      WrittenPrenode(w.nodes.calls[s.t.c], s.t.ip, w.ctl.store.objects[name].status.prenode);
    } else {
      OtherStep(w, s);
    }
  }

  lemma WriterIsOne(w: World, s: Step, n: string, name: string)
    requires WritesStatus(w, s, n)
    ensures s.ByNode? && s.t.WriteStatus? && s.t.c in w.nodes.calls && Committing(w.nodes.calls[s.t.c].pc)
    ensures WritesStatus(w, s, name) <==> n == name
  {
  }

  // ---------------------------------------------------------------- over whole runs

  ghost predicate StoredThroughout(w: World, steps: seq<Step>, name: string) {
    forall i | 0 <= i <= |steps| :: name in Run(w, steps[..i]).ctl.store.objects
  }

  ghost predicate PrenodeAt(w: World, steps: seq<Step>, i: nat, name: string, p: string)
    requires i <= |steps| && StoredThroughout(w, steps, name)
  {
    Run(w, steps[..i]).ctl.store.objects[name].status.prenode == p
  }

  predicate StepCarries(w: World, s: Step, name: string, p: string) {
    WritesStatus(w, s, name) ==> CarriesPrenode(w.nodes.calls[s.t.c], p)
  }

  /**
   While a record is stored, its `Prenode`, once set, is the same at every moment of a run if and only if
   every status write that takes effect on it was computed from a copy that carries that `Prenode`.
   */
  lemma {:induction false} PrenodeKeptThroughoutIff(w: World, steps: seq<Step>, name: string, p: string)
    requires Sound(w.ctl) && StoredThroughout(w, steps, name) && p != "" && PrenodeAt(w, steps, 0, name, p)
    ensures (forall i | 0 <= i <= |steps| :: PrenodeAt(w, steps, i, name, p)) <==>
            (forall i | 0 <= i < |steps| :: StepCarries(Run(w, steps[..i]), steps[i], name, p))
  {
    hide Next, Run, Sound, PrenodeAt, StepCarries;
    if forall i | 0 <= i <= |steps| :: PrenodeAt(w, steps, i, name, p) {
      forall i | 0 <= i < |steps| ensures StepCarries(Run(w, steps[..i]), steps[i], name, p) {
        PrenodeMoves(w, steps, i, name, p);
      }
    } else if forall i | 0 <= i < |steps| :: StepCarries(Run(w, steps[..i]), steps[i], name, p) {
      forall i | 0 <= i <= |steps| ensures PrenodeAt(w, steps, i, name, p) {
        PrenodeReaches(w, steps, i, name, p);
      }
    }
  }

  lemma PrenodeMoves(w: World, steps: seq<Step>, i: nat, name: string, p: string)
    requires Sound(w.ctl) && StoredThroughout(w, steps, name) && p != ""
    requires i < |steps| && PrenodeAt(w, steps, i, name, p)
    ensures PrenodeAt(w, steps, i + 1, name, p) <==> StepCarries(Run(w, steps[..i]), steps[i], name, p)
  {
    hide Next, Sound, WritesStatus, CarriesPrenode;
    RunExtends(w, steps[..i]);
    assert steps[..i + 1][..i] == steps[..i];
    assert Run(w, steps[..i + 1]) == Next(Run(w, steps[..i]), steps[i]);
    PrenodeKeptIff(Run(w, steps[..i]), steps[i], name);
  }

  lemma {:induction false} PrenodeReaches(w: World, steps: seq<Step>, i: nat, name: string, p: string)
    requires Sound(w.ctl) && StoredThroughout(w, steps, name) && p != "" && i <= |steps|
    requires PrenodeAt(w, steps, 0, name, p)
    requires forall j | 0 <= j < |steps| :: StepCarries(Run(w, steps[..j]), steps[j], name, p)
    ensures PrenodeAt(w, steps, i, name, p)
  {
    hide Next, Run, Sound, PrenodeAt, StepCarries;
    if i > 0 {
      PrenodeReaches(w, steps, i - 1, name, p);
      PrenodeMoves(w, steps, i - 1, name, p);
    }
  }

  // ---------------------------------------------------------------- the first holder

  /** The copy of an effective write agrees with what publishes have found so far. */
  predicate CopyTells(w: World, s: Step, name: string) {
    WritesStatus(w, s, name) && name in w.ctl.store.objects ==>
      var call := w.nodes.calls[s.t.c];
      var copy := call.pc.record.status;
      var found := FirstFound(w.nodes.commits, w.ctl.store.objects[name].spec.uuid);
      if call.pc.PublishCommit? && found == "" then copy.prenode == "" || copy.prenode == copy.node
      else if found == "" then copy.prenode == ""
      else CarriesPrenode(call, found)
  }

  ghost predicate Truthful(w: World, name: string) {
    name in w.ctl.store.objects ==> PrenodeRecorded(w, name)
  }

  /** An effective write through a copy of this very volume. */
  lemma WriteIsTrueIff(w: World, s: Step, name: string)
    requires ValidStore(w.ctl.store) && WritesStatus(w, s, name)
    requires name in w.ctl.store.objects && PrenodeRecorded(w, name)
    requires w.nodes.calls[s.t.c].pc.record.spec.uuid == w.ctl.store.objects[name].spec.uuid
    ensures Truthful(Next(w, s), name) <==> CopyTells(w, s, name)
  {
    hide Next, ValidStore, StatusUpdate, MayRead;
    EffectiveWrite(w, s, name);
    var call := w.nodes.calls[s.t.c];
    FirstFoundSnoc(w.nodes.commits, Commit(call.pc.record.spec.uuid, call.pc.record.status.node),
                   w.ctl.store.objects[name].spec.uuid);
  }

  /** An effective write on another volume. */
  lemma WriteElsewhere(w: World, s: Step, n: string, name: string)
    requires ValidStore(w.ctl.store) && WritesStatus(w, s, n) && n != name
    requires name in w.ctl.store.objects && PrenodeRecorded(w, name)
    requires w.nodes.calls[s.t.c].pc.record.spec.uuid != w.ctl.store.objects[name].spec.uuid
    ensures Truthful(Next(w, s), name)
  {
    hide Next, ValidStore, StatusUpdate, MayRead;
    EffectiveWrite(w, s, n);
    var call := w.nodes.calls[s.t.c];
    FirstFoundSnoc(w.nodes.commits, Commit(call.pc.record.spec.uuid, call.pc.record.status.node),
                   w.ctl.store.objects[name].spec.uuid);
  }

  /** The copy is of the volume that has its name, and no other volume has its id. */
  lemma CopyOfItsName(w: World, c: nat, name: string)
    requires Sound(w.ctl) && Orderly(w.ctl) && CopiesKnown(w) && name in w.ctl.store.objects
    requires c in w.nodes.calls && Holding(w.nodes.calls[c].pc)
    ensures w.nodes.calls[c].pc.record.spec.uuid == w.ctl.store.objects[name].spec.uuid <==>
            w.nodes.calls[c].pc.record.name == name
  {
    var r, o := w.nodes.calls[c].pc.record, w.ctl.store.objects[name];
    assert r in w.ctl.store.history && o in w.ctl.store.history;
    assert SpecSound(w.ctl.uuids, r.name, r.spec) && SpecSound(w.ctl.uuids, o.name, o.spec);
  }

  /** A step that stores a record anew tells the truth about it. */
  lemma TrueAtBirth(w: World, s: Step, name: string)
    requires Sound(w.ctl) && Orderly(w.ctl) && CopiesKnown(w) && name !in w.ctl.store.objects
    ensures Truthful(Next(w, s), name)
  {
    hide Next, Sound, Orderly, WritesStatus, StatusesKept;
    SoundStore(w.ctl);
    if n: string :| WritesStatus(w, s, n) {
      EffectiveWrite(w, s, n);
    } else {
      OtherStep(w, s);
      if name in Next(w, s).ctl.store.objects {
        NewRecordIsBlank(w, Next(w, s).ctl, name);
      }
    }
  }

  lemma OtherStepIsTrue(w: World, s: Step, name: string)
    requires Sound(w.ctl) && name in w.ctl.store.objects && PrenodeRecorded(w, name)
    requires forall n :: !WritesStatus(w, s, n)
    ensures Truthful(Next(w, s), name)
  {
    hide Next, Sound, WritesStatus;
    OtherStep(w, s);
  }

  /** Exactly when a permitted step leaves `Prenode` true to the first holder that was found. */
  lemma TruthKeptIff(w: World, s: Step, name: string)
    requires Sound(w.ctl) && Orderly(w.ctl) && CopiesKnown(w) && Truthful(w, name)
    requires name in Next(w, s).ctl.store.objects
    ensures Truthful(Next(w, s), name) <==> CopyTells(w, s, name)
  {
    hide Next, Sound, Orderly, CopiesKnown, FirstFound, CarriesPrenode, StatusUpdate, MayRead;
    SoundStore(w.ctl);
    if name !in w.ctl.store.objects {
      TrueAtBirth(w, s, name);
    } else if n: string :| WritesStatus(w, s, n) {
      CopyOfItsName(w, s.t.c, name);
      if n == name {
        WriteIsTrueIff(w, s, name);
      } else {
        WriteElsewhere(w, s, n, name);
      }
    } else {
      OtherStepIsTrue(w, s, name);
    }
  }

  ghost predicate TrueAt(classes: Classes, steps: seq<Step>, i: nat, name: string)
    requires i <= |steps|
  {
    Truthful(Run(Init(classes), steps[..i]), name)
  }

  /** Unless the record goes, the step is one whose copy tells. */
  ghost predicate TellsAt(classes: Classes, steps: seq<Step>, i: nat, name: string)
    requires i < |steps|
  {
    name in Next(Run(Init(classes), steps[..i]), steps[i]).ctl.store.objects ==>
      CopyTells(Run(Init(classes), steps[..i]), steps[i], name)
  }

  lemma TruthMoves(classes: Classes, steps: seq<Step>, i: nat, name: string)
    requires Permitted(classes, steps) && i < |steps| && TrueAt(classes, steps, i, name)
    ensures TrueAt(classes, steps, i + 1, name) <==> TellsAt(classes, steps, i, name)
  {
    hide Next, Sound, Orderly, CopiesKnown, CopyTells, PrenodeRecorded;
    LawfulPrefix(Init(classes), steps, i);
    RunOrderly(classes, steps[..i]);
    RunCopiesKnown(classes, steps[..i]);
    assert steps[..i + 1][..i] == steps[..i];
    assert Run(Init(classes), steps[..i + 1]) == Next(Run(Init(classes), steps[..i]), steps[i]);
    if name in Next(Run(Init(classes), steps[..i]), steps[i]).ctl.store.objects {
      TruthKeptIff(Run(Init(classes), steps[..i]), steps[i], name);
    }
  }

  lemma {:induction false} TruthReaches(classes: Classes, steps: seq<Step>, i: nat, name: string)
    requires Permitted(classes, steps) && i <= |steps|
    requires forall j | 0 <= j < |steps| :: TellsAt(classes, steps, j, name)
    ensures TrueAt(classes, steps, i, name)
  {
    hide Next, TellsAt, Permitted;
    if i == 0 {
      assert steps[..0] == [];
    } else {
      TruthReaches(classes, steps, i - 1, name);
      TruthMoves(classes, steps, i - 1, name);
    }
  }

  /**
   In every permitted run, with overlapping calls and reads as stale as they may be: `Prenode` is at every
   moment the first holder that a status-writing publish found if and only if every status write that
   takes effect was computed from a copy that agrees with what had been found by then.
   */
  lemma PrenodeIsFirstHolderIff(classes: Classes, steps: seq<Step>, name: string)
    requires Permitted(classes, steps)
    ensures (forall i | 0 <= i <= |steps| :: TrueAt(classes, steps, i, name)) <==>
            (forall i | 0 <= i < |steps| :: TellsAt(classes, steps, i, name))
  {
    hide Next, Run, Permitted, TrueAt, TellsAt;
    if forall i | 0 <= i <= |steps| :: TrueAt(classes, steps, i, name) {
      forall i | 0 <= i < |steps| ensures TellsAt(classes, steps, i, name) {
        TruthMoves(classes, steps, i, name);
      }
    } else if forall i | 0 <= i < |steps| :: TellsAt(classes, steps, i, name) {
      forall i | 0 <= i <= |steps| ensures TrueAt(classes, steps, i, name) {
        TruthReaches(classes, steps, i, name);
      }
    }
  }
}
