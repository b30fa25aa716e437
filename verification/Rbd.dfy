/** Storage-class parsing with its loops, and image creation and deletion. */
module Rbd {
  import opened Records
  import opened StorageClass
  import opened Lifecycle
  import opened Cluster

  datatype Volume = Volume(pool: string, image: string)

  /** A parse that has failed on a prefix of the keys has failed. */
  lemma {:induction false} FoldErrorStays(r: Resolved, params: map<string, string>, order: seq<string>, i: nat)
    requires i <= |order| && forall k | k in order :: k in params
    requires Fold(r, params, order[..i]).Err?
    ensures Fold(r, params, order) == Fold(r, params, order[..i])
    decreases |order| - i
  {
    if i == |order| {
      assert order[..i] == order;
    } else {
      assert order[..i + 1][..i] == order[..i];
      FoldErrorStays(r, params, order, i + 1);
    }
  }

  lemma FoldAdvances(r: Resolved, params: map<string, string>, order: seq<string>, i: nat)
    requires i < |order| && forall k | k in order :: k in params
    requires Fold(r, params, order[..i]).Ok?
    ensures Fold(r, params, order[..i + 1])
         == Apply(r, Fold(r, params, order[..i]).value, TagOf(order[i]), params[order[i]])
  {
    assert order[..i + 1][..i] == order[..i];
  }

  /** Appends the addresses of every listed monitor. */
  method ResolveMonitors(r: Resolved, v: string, have: seq<string>) returns (monitors: seq<string>)
    ensures monitors == have + ResolveAll(r, Split(v))
  {
    monitors := have;
    var arr := Split(v);
    for i := 0 to |arr|
      invariant monitors == have + ResolveAll(r, arr[..i])
    {
      var m := arr[i];
      assert arr[..i + 1][..i] == arr[..i];
      if m in r {
        monitors := monitors + r[m];
      } else {
        monitors := monitors + [m];
      }
    }
    assert arr[..|arr|] == arr;
  }

  /** Appends the listed features, or stops at the first one that is not supported. */
  method CheckFeatures(v: string, have: seq<string>) returns (features: Option<seq<string>>)
    ensures features == if AllSupported(Split(v)) then Some(have + Split(v)) else None
  {
    var arr := Split(v);
    var got := have;
    for i := 0 to |arr|
      invariant got == have + arr[..i] && AllSupported(arr[..i])
    {
      if arr[i] !in SUPPORTED_FEATURES {
        return None;
      }
      got := got + [arr[i]];
      assert arr[..i + 1] == arr[..i] + [arr[i]];
    }
    assert arr[..|arr|] == arr;
    return Some(got);
  }

  /** One iteration of the parameter loop, branch by branch. */
  method ParseParameter(r: Resolved, st: Progress, k: string, v: string) returns (next: Parsed<Progress>)
    ensures next == Apply(r, st, TagOf(k), v)
  {
    hide ResolveAll, Split, AllSupported, Lower;
    var opts, secretName, secretNamespace := st.opts, st.secretName, st.secretNamespace;
    match TagOf(k) {
      case Monitors =>
        var monitors := ResolveMonitors(r, v, opts.monitors);
        if |monitors| < 1 {
          return Err(MissingMonitors);
        }
        opts := opts.(monitors := monitors);
      case AdminId =>
        if v == "" {
          return Err(MissingAdminId);
        }
        opts := opts.(adminId := v);
      case AdminSecretName => secretName := v;
      case AdminSecretNamespace => secretNamespace := v;
      case UserId => opts := opts.(userId := v);
      case Pool =>
        if v == "" {
          return Err(MissingPool);
        }
        opts := opts.(pool := v);
      case DataPool => opts := opts.(dataPool := v);
      case UserSecretName =>
        if v == "" {
          return Err(MissingUserSecretName);
        }
        opts := opts.(userSecretName := v);
      case UserSecretNamespace => opts := opts.(userSecretNamespace := v);
      case ImageFormat =>
        if v != IMAGE_FORMAT_1 && v != IMAGE_FORMAT_2 {
          return Err(BadImageFormat);
        }
        opts := opts.(imageFormat := v);
      case ImageFeatures =>
        var features := CheckFeatures(v, opts.imageFeatures);
        if features.None? {
          return Err(BadFeature);
        }
        opts := opts.(imageFeatures := features.value);
      case FsType => opts := opts.(fsType := v);
      case Unknown => return Err(UnknownOption);
    }
    return Ok(Progress(opts, secretName, secretNamespace));
  }

  /** The secret's `key` entry, or else the entry that iteration met last. */
  method ParsePVSecret(data: SecretData) returns (secret: string)
    ensures secret == SecretValue(data, "")
  {
    secret := "";
    var i := 0;
    while i < |data|
      invariant 0 <= i <= |data|
      invariant SecretValue(data, "") == SecretValue(data[i..], secret)
    {
      if data[i].0 == SECRET_KEY_NAME {
        return data[i].1;
      }
      secret := data[i].1;
      assert data[i..][1..] == data[i + 1..];
      i := i + 1;
    }
  }

  method ParseParameters(l: Lookups, params: map<string, string>, order: seq<string>) returns (opts: Parsed<Options>)
    requires forall k | k in order :: k in params
    ensures opts == Parse(l, params, order)
  {
    hide Apply, Lower, Split, SecretValue, ResolveAll;
    var st := START;
    var i := 0;
    while i < |order|
      invariant 0 <= i <= |order|
      invariant Fold(l.resolved, params, order[..i]) == Ok(st)
    {
      var next := ParseParameter(l.resolved, st, order[i], params[order[i]]);
      FoldAdvances(l.resolved, params, order, i);
      if next.Err? {
        FoldErrorStays(l.resolved, params, order, i + 1);
        return Err(next.error);
      }
      st := next.value;
      i := i + 1;
    }
    assert order[..i] == order;
    if st.secretName == "" {
      return Err(MissingSecretName);
    }
    var at := (st.secretNamespace, st.secretName);
    if !l.apiUp || at !in l.secrets {
      return Err(NoSecret);
    }
    var secret := ParsePVSecret(l.secrets[at]);
    var o := st.opts.(adminSecret := secret);
    if o.userId == "" {
      o := o.(userId := o.adminId);
    }
    return Ok(o);
  }

  class RbdClient {
    const services: Services
    const classes: map<string, map<string, string>>

    constructor (services: Services, classes: map<string, map<string, string>>)
      ensures this.services == services && this.classes == classes
    {
      this.services, this.classes := services, classes;
    }

    /** The pool that the class resolves to at this attempt. */
    method PoolOf(scname: string, a: Attempt) returns (pool: Option<string>)
      requires scname in classes ==> IsOrder(a.order, classes[scname])
      ensures pool == ResolvePool(classes, scname, a)
      ensures pool.Some? <==>
                a.lookups.apiUp && scname in classes && Parse(a.lookups, classes[scname], a.order).Ok?
      ensures pool.Some? ==> pool.value == Parse(a.lookups, classes[scname], a.order).value.pool
    {
      hide Parse;
      if !a.lookups.apiUp || scname !in classes {
        return None;
      }
      var opts := ParseParameters(a.lookups, classes[scname], a.order);
      match opts
      case Ok(o) => return Some(o.pool);
      case Err(_) => return None;
    }

    /** Creates the image exclusively; `uuid` and `maker` only mark whose image it is. */
    method CreateImage(scname: string, image: string, bytes: int, a: Attempt, uuid: string, maker: nat)
      returns (volume: Option<Volume>)
      requires scname in classes ==> IsOrder(a.order, classes[scname])
      modifies services`images
      ensures var pool := ResolvePool(classes, scname, a);
              var made := pool.Some? && MibFor(bytes) > 0 && !a.outcome.Refused?
                          && ImageId(pool.value, image) !in old(services.images);
              && services.images == (if made
                   then old(services.images)[ImageId(pool.value, image) := Image(MibFor(bytes), uuid, maker)]
                   else old(services.images))
              && volume == (if made && a.outcome.Done? then Some(Volume(pool.value, image)) else None)
      ensures volume.Some? ==>
                var id := ImageId(volume.value.pool, image);
                && id !in old(services.images) && id in services.images
                && 0 < bytes <= services.images[id].mib * 1048576 < bytes + 1048576
    {
      MibCovers(bytes);
      hide Parse;
      var pool := PoolOf(scname, a);
      if pool.None? {
        return None;
      }
      var size := MibFor(bytes);
      if size <= 0 {
        return None;
      }
      var id := ImageId(pool.value, image);
      if a.outcome.Refused? || id in services.images {
        return None;
      }
      services.images := services.images[id := Image(size, uuid, maker)];
      if a.outcome.Lost? {
        return None;
      }
      return Some(Volume(pool.value, image));
    }

    /** Deletes the image unless it is watched; an image that is not there counts as deleted. */
    method DeleteImage(scname: string, image: string, a: Attempt) returns (ok: bool)
      requires scname in classes ==> IsOrder(a.order, classes[scname])
      modifies services`images
      ensures var pool := ResolvePool(classes, scname, a);
              if pool.None? then !ok && services.images == old(services.images)
              else
                var removal := RemoveImage(old(services.images), services.links, ImageId(pool.value, image), a.outcome);
                ok == removal.ok && services.images == removal.images
      ensures var pool := ResolvePool(classes, scname, a);
              var gone := pool.Some? && !a.outcome.Refused?
                          && !(exists l :: l in services.links && l.id == ImageId(pool.value, image)
                                           && l.id in old(services.images));
              && services.images == (if gone then old(services.images) - {ImageId(pool.value, image)}
                                     else old(services.images))
              && (ok <==> gone && a.outcome.Done?)
    {
      hide Parse;
      var pool := PoolOf(scname, a);
      if pool.None? {
        return false;
      }
      var id := ImageId(pool.value, image);
      if a.outcome.Refused? {
        return false;
      }
      if id !in services.images {
        return a.outcome.Done?;
      }
      if Watched(services.links, id) {
        return false;
      }
      services.images := services.images - {id};
      return a.outcome.Done?;
    }
  }
}
