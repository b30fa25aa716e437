/**
 The CsiAlcub records and the API server that stores them: exclusive create, compare-and-swap
 update on the version that was read, deletion held back by finalizers, and reads that may
 return any version that was ever stored.
 */
module Records {

  datatype Option<+T> = None | Some(value: T)

  datatype Spec = Spec(uuid: string, capacity: int, rbdSc: string, pool: string, image: string)

  datatype Status = Status(devpath: string, storageIp: string, prenode: string, node: string,
                           allNodes: seq<string>)

  const EMPTY_STATUS := Status("", "", "", "", [])

  /** `deleting` stands for a deletion timestamp that is set. */
  datatype Record = Record(name: string, version: nat, spec: Spec, status: Status,
                           finalizers: seq<string>, deleting: bool)

  const FINALIZERS := ["controller/csi-alcub"]

  /** `history` holds every version ever stored; it is what a cached read may return. */
  datatype Store = Store(objects: map<string, Record>, history: set<Record>, revision: nat)

  /**
   How a call to another service ends: it took effect and says so, it had no effect and
   fails, or it took effect but the caller is told that it failed (a timeout, say).
   */
  datatype Outcome = Done | Refused | Lost

  const EMPTY_STORE := Store(map[], {}, 0)

  ghost predicate ValidStore(s: Store) {
    && (forall n | n in s.objects :: s.objects[n].name == n && s.objects[n] in s.history)
    && (forall o | o in s.history :: o.version <= s.revision && o.finalizers == FINALIZERS)
    && (forall o, o' | o in s.history && o' in s.history && o.version == o'.version :: o == o')
  }

  /** A cached read answers with some stored version of that name, or not at all. */
  predicate MayRead(s: Store, name: string, seen: Option<Record>) {
    seen.Some? ==> seen.value in s.history && seen.value.name == name
  }

  /** Stores `o` as a new version. */
  function Put(s: Store, o: Record): Store {
    var o' := o.(version := s.revision + 1);
    Store(s.objects[o.name := o'], s.history + {o'}, s.revision + 1)
  }

  function Remove(s: Store, name: string): Store {
    Store(s.objects - {name}, s.history, s.revision + 1)
  }

  function ApiCreate(s: Store, name: string, spec: Spec): Option<Store> {
    if name in s.objects then None
    else Some(Put(s, Record(name, 0, spec, EMPTY_STATUS, FINALIZERS, false)))
  }

  /** The deletion timestamp is the server's own; an update that changes nothing is not stored anew. */
  function ApiUpdate(s: Store, o: Record): Option<Store> {
    if o.name !in s.objects || s.objects[o.name].version != o.version then None
    else
      var cur := s.objects[o.name];
      var next := o.(deleting := cur.deleting);
      if cur.deleting && o.finalizers == [] then Some(Remove(s, o.name))
      else if next == cur then Some(s)
      else Some(Put(s, next))
  }

  function ApiDelete(s: Store, name: string): Option<Store> {
    if name !in s.objects then None
    else
      var cur := s.objects[name];
      if cur.finalizers == [] then Some(Remove(s, name))
      else if cur.deleting then Some(s)
      else Some(Put(s, cur.(deleting := true)))
  }

  lemma PutKeepsValid(s: Store, o: Record)
    requires ValidStore(s) && o.finalizers == FINALIZERS
    ensures ValidStore(Put(s, o))
  {
  }

  /** A successful update can only have been based on the record as it is stored now. */
  lemma UpdateReadTheCurrentVersion(s: Store, base: Record, o: Record)
    requires ValidStore(s) && base in s.history
    requires o.name == base.name && o.version == base.version && ApiUpdate(s, o).Some?
    ensures s.objects[base.name] == base
  {
    assert s.objects[base.name] in s.history;
  }

  /** What writing a status through a possibly stale base does to the store. */
  lemma StatusWrite(s: Store, base: Record, status: Status)
    requires ValidStore(s) && base in s.history
    requires ApiUpdate(s, base.(status := status)).Some?
    ensures var s' := ApiUpdate(s, base.(status := status)).value;
            && ValidStore(s')
            && base.name in s.objects && s.objects[base.name] == base
            && ((s' == s && base.status == status) || s' == Put(s, base.(status := status)))
  {
    UpdateReadTheCurrentVersion(s, base, base.(status := status));
    var cur := s.objects[base.name];
    assert cur.finalizers == FINALIZERS;
    PutKeepsValid(s, base.(status := status));
  }

  /** What stripping the finalizers through a possibly stale base does to the store. */
  lemma FinalizerStrip(s: Store, base: Record)
    requires ValidStore(s) && base in s.history && base.deleting
    requires ApiUpdate(s, base.(finalizers := [])).Some?
    ensures base.name in s.objects && s.objects[base.name] == base
    ensures ApiUpdate(s, base.(finalizers := [])).value == Remove(s, base.name)
    ensures ValidStore(Remove(s, base.name))
  {
    UpdateReadTheCurrentVersion(s, base, base.(finalizers := []));
  }

  /** A strip of the stored terminating version removes it. */
  lemma StripOfStored(s: Store, r: Record)
    requires r.name in s.objects && s.objects[r.name] == r && r.deleting
    ensures ApiUpdate(s, r.(finalizers := [])) == Some(Remove(s, r.name))
  {
  }

  lemma DeletionMark(s: Store, name: string)
    requires ValidStore(s) && ApiDelete(s, name).Some?
    ensures var s' := ApiDelete(s, name).value;
            && name in s.objects
            && ValidStore(s')
            && ((s' == s && s.objects[name].deleting) || s' == Put(s, s.objects[name].(deleting := true)))
  {
    var cur := s.objects[name];
    assert cur in s.history;
    PutKeepsValid(s, cur.(deleting := true));
  }
}
