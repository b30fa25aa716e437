/**
 Storage-class parameters: the fold of `parseParameters` over a map whose iteration order is
 unspecified, the secret lookup, and the size rounding of image creation.
 */
module StorageClass {
  datatype Options = Options(monitors: seq<string>, pool: string, dataPool: string, adminId: string,
                             adminSecret: string, userId: string, userSecretName: string,
                             userSecretNamespace: string, fsType: string, imageFormat: string,
                             imageFeatures: seq<string>)

  datatype ParseError = MissingMonitors | MissingAdminId | MissingPool | MissingUserSecretName
                      | BadImageFormat | BadFeature | UnknownOption | MissingSecretName | NoSecret

  datatype Parsed<+T> = Ok(value: T) | Err(error: ParseError)

  /**
   What the code asks of the outside while parsing: whether the API server answers, the addresses
   each monitor entry resolves to (an entry that is not listed stands for itself), and the secrets
   with the order in which their data is iterated.
   */
  datatype Lookups = Lookups(apiUp: bool, resolved: Resolved,
                             secrets: map<(string, string), SecretData>)

  type Resolved = map<string, seq<string>>

  /** A secret's entries in iteration order. */
  type SecretData = seq<(string, string)>

  const IMAGE_FORMAT_1 := "1"
  const IMAGE_FORMAT_2 := "2"
  const SUPPORTED_FEATURES := {"layering"}
  const SECRET_KEY_NAME := "key"

  /** The only characters whose lower case is ASCII are the ASCII ones, U+0130 and U+212A. */
  function LowerChar(c: char): char {
    if 'A' <= c <= 'Z' then (c as int + 32) as char
    else if c == '\U{0130}' then 'i'
    else if c == '\U{212A}' then 'k'
    else c
  }

  function Lower(s: string): string {
    seq(|s|, i requires 0 <= i < |s| => LowerChar(s[i]))
  }

  function Split(s: string): (parts: seq<string>)
    ensures |parts| >= 1
  {
    if s == "" then [""]
    else if s[0] == ',' then [""] + Split(s[1..])
    else var rest := Split(s[1..]); [[s[0]] + rest[0]] + rest[1..]
  }

  function ResolveAll(r: Resolved, entries: seq<string>): seq<string> {
    if entries == [] then []
    else
      ResolveAll(r, entries[..|entries| - 1]) +
      (var m := entries[|entries| - 1]; if m in r then r[m] else [m])
  }

  // ---------------------------------------------------------------- the parameter fold

  /** The parameters the code knows; any other key is an invalid option. */
  datatype Tag = Monitors | AdminId | AdminSecretName | AdminSecretNamespace | UserId | Pool | DataPool
               | UserSecretName | UserSecretNamespace | ImageFormat | ImageFeatures | FsType | Unknown

  function TagOf(k: string): Tag {
    match Lower(k)
    case "monitors" => Monitors
    case "adminid" => AdminId
    case "adminsecretname" => AdminSecretName
    case "adminsecretnamespace" => AdminSecretNamespace
    case "userid" => UserId
    case "pool" => Pool
    case "datapool" => DataPool
    case "usersecretname" => UserSecretName
    case "usersecretnamespace" => UserSecretNamespace
    case "imageformat" => ImageFormat
    case "imagefeatures" => ImageFeatures
    case "fstype" => FsType
    case _ => Unknown
  }

  /** The loop's variables: the options so far and the admin secret's coordinates. */
  datatype Progress = Progress(opts: Options, secretName: string, secretNamespace: string)

  const START := Progress(Options([], "rbd", "", "admin", "", "", "", "", "", IMAGE_FORMAT_2, []), "", "default")

  /** One iteration of the parameter loop. */
  function Apply(r: Resolved, st: Progress, tag: Tag, v: string): Parsed<Progress> {
    var o := st.opts;
    match tag
    case Monitors =>
      var ms := o.monitors + ResolveAll(r, Split(v));
      if ms == [] then Err(MissingMonitors) else Ok(st.(opts := o.(monitors := ms)))
    case AdminId => if v == "" then Err(MissingAdminId) else Ok(st.(opts := o.(adminId := v)))
    case AdminSecretName => Ok(st.(secretName := v))
    case AdminSecretNamespace => Ok(st.(secretNamespace := v))
    case UserId => Ok(st.(opts := o.(userId := v)))
    case Pool => if v == "" then Err(MissingPool) else Ok(st.(opts := o.(pool := v)))
    case DataPool => Ok(st.(opts := o.(dataPool := v)))
    case UserSecretName =>
      if v == "" then Err(MissingUserSecretName) else Ok(st.(opts := o.(userSecretName := v)))
    case UserSecretNamespace => Ok(st.(opts := o.(userSecretNamespace := v)))
    case ImageFormat =>
      if v != IMAGE_FORMAT_1 && v != IMAGE_FORMAT_2 then Err(BadImageFormat)
      else Ok(st.(opts := o.(imageFormat := v)))
    case ImageFeatures =>
      if AllSupported(Split(v)) then Ok(st.(opts := o.(imageFeatures := o.imageFeatures + Split(v))))
      else Err(BadFeature)
    case FsType => Ok(st.(opts := o.(fsType := v)))
    case Unknown => Err(UnknownOption)
  }

  predicate AllSupported(features: seq<string>) {
    forall f | f in features :: f in SUPPORTED_FEATURES
  }

  /** An order in which the keys of `m` may be iterated. */
  predicate IsOrder<V>(order: seq<string>, m: map<string, V>) {
    && (forall i, j | 0 <= i < j < |order| :: order[i] != order[j])
    && (forall k | k in order :: k in m)
    && (forall k | k in m :: k in order)
  }

  function Fold(r: Resolved, params: map<string, string>, order: seq<string>): Parsed<Progress>
    requires forall k | k in order :: k in params
  {
    if order == [] then Ok(START)
    else
      var last := order[|order| - 1];
      match Fold(r, params, order[..|order| - 1])
      case Err(e) => Err(e)
      case Ok(st) => Apply(r, st, TagOf(last), params[last])
  }

  /** The secret's value: its `key` entry, or else whatever entry came last. */
  function SecretValue(data: SecretData, lastSeen: string): string {
    if data == [] then lastSeen
    else if data[0].0 == SECRET_KEY_NAME then data[0].1
    else SecretValue(data[1..], data[0].1)
  }

  /** What follows the loop: the admin secret, and the user id that defaults to the admin id. */
  function Finish(l: Lookups, st: Progress): Parsed<Options> {
    if st.secretName == "" then Err(MissingSecretName)
    else if !l.apiUp || (st.secretNamespace, st.secretName) !in l.secrets then Err(NoSecret)
    else
      var o := st.opts.(adminSecret := SecretValue(l.secrets[(st.secretNamespace, st.secretName)], ""));
      Ok(if o.userId == "" then o.(userId := o.adminId) else o)
  }

  function Parse(l: Lookups, params: map<string, string>, order: seq<string>): Parsed<Options>
    requires forall k | k in order :: k in params
  {
    match Fold(l.resolved, params, order)
    case Err(e) => Err(e)
    case Ok(st) => Finish(l, st)
  }

  // ---------------------------------------------------------------- order independence

  /** No two keys of `m` coincide after lower-casing. */
  ghost predicate DistinctTags(m: map<string, string>) {
    forall k, k' | k in m && k' in m && Lower(k) == Lower(k') :: k == k'
  }

  /** Parameters by tag, read without any order. */
  type Settings = map<Tag, string>

  function Get(m: Settings, tag: Tag, otherwise: string): string {
    if tag in m then m[tag] else otherwise
  }

  function Assemble(r: Resolved, m: Settings): Progress {
    Progress(
      Options(
        if Monitors in m then ResolveAll(r, Split(m[Monitors])) else [],
        Get(m, Pool, "rbd"), Get(m, DataPool, ""), Get(m, AdminId, "admin"), "",
        Get(m, UserId, ""), Get(m, UserSecretName, ""), Get(m, UserSecretNamespace, ""),
        Get(m, FsType, ""), Get(m, ImageFormat, IMAGE_FORMAT_2),
        if ImageFeatures in m then Split(m[ImageFeatures]) else []),
      Get(m, AdminSecretName, ""), Get(m, AdminSecretNamespace, "default"))
  }

  /** A parameter that the loop accepts when no other key has its tag. */
  predicate Acceptable(r: Resolved, tag: Tag, v: string) {
    match tag
    case Monitors => ResolveAll(r, Split(v)) != []
    case AdminId | Pool | UserSecretName => v != ""
    case ImageFormat => v == IMAGE_FORMAT_1 || v == IMAGE_FORMAT_2
    case ImageFeatures => AllSupported(Split(v))
    case Unknown => false
    case _ => true
  }

  /** The settings among the keys of an order; a later key overrides. */
  function Tagged(params: map<string, string>, order: seq<string>): Settings
    requires forall k | k in order :: k in params
  {
    if order == [] then map[]
    else
      var last := order[|order| - 1];
      Tagged(params, order[..|order| - 1])[TagOf(last) := params[last]]
  }

  lemma ApplyAssembles(r: Resolved, m: Settings, tag: Tag, v: string)
    requires tag !in m
    ensures Acceptable(r, tag, v) ==> Apply(r, Assemble(r, m), tag, v) == Ok(Assemble(r, m[tag := v]))
    ensures !Acceptable(r, tag, v) ==> Apply(r, Assemble(r, m), tag, v).Err?
  {
    if tag in {Monitors, ImageFeatures} {
      ApplyAssemblesList(r, m, tag, v);
    } else if tag in {AdminId, Pool, UserSecretName, ImageFormat, Unknown} {
      ApplyAssemblesChecked(r, m, tag, v);
    } else {
      ApplyAssemblesPlain(r, m, tag, v);
    }
  }

  lemma ApplyAssemblesList(r: Resolved, m: Settings, tag: Tag, v: string)
    requires tag !in m && tag in {Monitors, ImageFeatures}
    ensures Acceptable(r, tag, v) ==> Apply(r, Assemble(r, m), tag, v) == Ok(Assemble(r, m[tag := v]))
    ensures !Acceptable(r, tag, v) ==> Apply(r, Assemble(r, m), tag, v).Err?
  {
    hide ResolveAll, Split, AllSupported;
    if tag == Monitors {
      assert Assemble(r, m).opts.monitors == [];
      assert [] + ResolveAll(r, Split(v)) == ResolveAll(r, Split(v));
    } else {
      assert Assemble(r, m).opts.imageFeatures == [];
      assert [] + Split(v) == Split(v);
    }
  }

  lemma ApplyAssemblesChecked(r: Resolved, m: Settings, tag: Tag, v: string)
    requires tag !in m && tag in {AdminId, Pool, UserSecretName, ImageFormat, Unknown}
    ensures Acceptable(r, tag, v) ==> Apply(r, Assemble(r, m), tag, v) == Ok(Assemble(r, m[tag := v]))
    ensures !Acceptable(r, tag, v) ==> Apply(r, Assemble(r, m), tag, v).Err?
  {
  }

  lemma ApplyAssemblesPlain(r: Resolved, m: Settings, tag: Tag, v: string)
    requires tag !in m && tag !in {Monitors, ImageFeatures, AdminId, Pool, UserSecretName, ImageFormat, Unknown}
    ensures Apply(r, Assemble(r, m), tag, v) == Ok(Assemble(r, m[tag := v]))
  {
  }

  lemma SameTagSameKey(params: map<string, string>, k: string, k': string)
    requires DistinctTags(params) && k in params && k' in params
    requires TagOf(k) == TagOf(k') != Unknown
    ensures k == k'
  {
    assert Lower(k) == Lower(k');
  }

  lemma {:induction false} TaggedLooksUp(params: map<string, string>, order: seq<string>)
    requires DistinctTags(params) && forall k | k in order :: k in params
    ensures forall k | k in order && TagOf(k) != Unknown ::
              TagOf(k) in Tagged(params, order) && Tagged(params, order)[TagOf(k)] == params[k]
    ensures forall t | t in Tagged(params, order) :: exists k :: k in order && TagOf(k) == t
  {
    if order != [] {
      var n := |order| - 1;
      var prefix, last := order[..n], order[n];
      TaggedLooksUp(params, prefix);
      assert order == prefix + [last];
      forall k | k in prefix && TagOf(k) == TagOf(last) != Unknown ensures k == last {
        SameTagSameKey(params, k, last);
      }
    }
  }

  /** The loop computes the order-free reading, or fails exactly when some parameter is unacceptable. */
  lemma {:induction false} FoldAssembles(r: Resolved, params: map<string, string>, order: seq<string>)
    requires DistinctTags(params) && forall k | k in order :: k in params
    requires forall i, j | 0 <= i < j < |order| :: order[i] != order[j]
    ensures AllAcceptable(r, params, order) ==>
              Fold(r, params, order) == Ok(Assemble(r, Tagged(params, order)))
    ensures !AllAcceptable(r, params, order) ==> Fold(r, params, order).Err?
  {
    if order != [] {
      var n := |order| - 1;
      var prefix, last := order[..n], order[n];
      FoldAssembles(r, params, prefix);
      assert order == prefix + [last];
      assert AllAcceptable(r, params, order) <==>
             AllAcceptable(r, params, prefix) && Acceptable(r, TagOf(last), params[last]);
      if AllAcceptable(r, params, prefix) && TagOf(last) != Unknown {
        FreshTag(params, prefix, last);
        ApplyAssembles(r, Tagged(params, prefix), TagOf(last), params[last]);
      }
    }
  }

  ghost predicate AllAcceptable(r: Resolved, params: map<string, string>, order: seq<string>)
    requires forall k | k in order :: k in params
  {
    forall k | k in order :: Acceptable(r, TagOf(k), params[k])
  }

  lemma FreshTag(params: map<string, string>, prefix: seq<string>, last: string)
    requires DistinctTags(params) && last in params && forall k | k in prefix :: k in params
    requires last !in prefix && TagOf(last) != Unknown
    ensures TagOf(last) !in Tagged(params, prefix)
  {
    TaggedLooksUp(params, prefix);
    if TagOf(last) in Tagged(params, prefix) {
      var k :| k in prefix && TagOf(k) == TagOf(last);
      SameTagSameKey(params, k, last);
    }
  }

  /** Every order of the parameters gives the same settings. */
  lemma SettingsAgree(params: map<string, string>, order: seq<string>, order': seq<string>)
    requires DistinctTags(params) && IsOrder(order, params) && IsOrder(order', params)
    requires forall k | k in order :: TagOf(k) != Unknown
    ensures Tagged(params, order) == Tagged(params, order')
  {
    TaggedLooksUp(params, order);
    TaggedLooksUp(params, order');
  }

  // ---------------------------------------------------------------- the secret

  predicate NamesDistinct(data: SecretData) {
    forall i, j | 0 <= i < j < |data| :: data[i].0 != data[j].0
  }

  /** With a `key` entry the value is that entry's, wherever iteration meets it. */
  lemma {:induction false} SecretIsKeyEntry(data: SecretData, lastSeen: string, i: nat)
    requires NamesDistinct(data) && i < |data| && data[i].0 == "key"
    ensures SecretValue(data, lastSeen) == data[i].1
  {
    if i > 0 {
      assert data[0].0 != data[i].0;
      SecretIsKeyEntry(data[1..], data[0].1, i - 1);
    }
  }

  /** Without a `key` entry the last entry wins. */
  lemma {:induction false} SecretIsLastEntry(data: SecretData, lastSeen: string)
    requires data != [] && forall i | 0 <= i < |data| :: data[i].0 != "key"
    ensures SecretValue(data, lastSeen) == data[|data| - 1].1
  {
    if |data| > 1 {
      SecretIsLastEntry(data[1..], data[0].1);
    }
  }

  predicate HasKeyEntry(data: SecretData) {
    exists i :: 0 <= i < |data| && data[i].0 == SECRET_KEY_NAME
  }

  predicate OneValue(data: SecretData) {
    forall i, j | 0 <= i < |data| && 0 <= j < |data| :: data[i].1 == data[j].1
  }

  /** The same entries in another order, one of them being `key` or all of them having one value. */
  ghost predicate SameSecret(a: SecretData, b: SecretData) {
    && NamesDistinct(a) && NamesDistinct(b)
    && (forall e :: e in a <==> e in b)
    && (HasKeyEntry(a) || OneValue(a))
  }

  lemma SameSecretSameValue(a: SecretData, b: SecretData)
    requires SameSecret(a, b)
    ensures SecretValue(a, "") == SecretValue(b, "")
  {
    if HasKeyEntry(a) {
      var i :| 0 <= i < |a| && a[i].0 == SECRET_KEY_NAME;
      assert a[i] in b;
      var j :| 0 <= j < |b| && b[j] == a[i];
      SecretIsKeyEntry(a, "", i);
      SecretIsKeyEntry(b, "", j);
    } else if a == [] {
      EmptyAlike(a, b);
    } else {
      KeylessSame(a, b);
    }
  }

  lemma EmptyAlike(a: SecretData, b: SecretData)
    requires forall e :: e in a <==> e in b
    ensures a == [] ==> b == []
  {
    if b != [] {
      assert b[0] in b;
    }
  }

  lemma KeylessSame(a: SecretData, b: SecretData)
    requires a != [] && !HasKeyEntry(a) && OneValue(a) && forall e :: e in a <==> e in b
    ensures SecretValue(a, "") == SecretValue(b, "")
  {
    assert a[0] in b;
    forall j | 0 <= j < |b| ensures b[j].0 != SECRET_KEY_NAME && b[j].1 == a[0].1 {
      assert b[j] in a;
    }
    SecretIsLastEntry(a, "");
    SecretIsLastEntry(b, "");
  }

  /** Two sets of answers alike in all that a parse asks, but for the order of the secret at `at`. */
  ghost predicate SameAnswers(l: Lookups, l': Lookups, at: (string, string)) {
    && l.apiUp == l'.apiUp && l.resolved == l'.resolved
    && (at in l.secrets <==> at in l'.secrets)
    && (at in l.secrets ==> SameSecret(l.secrets[at], l'.secrets[at]))
  }

  /** Namespace and name of the admin secret that the parameters ask for. */
  function AdminSecretAt(m: Settings): (string, string) {
    (Get(m, AdminSecretNamespace, "default"), Get(m, AdminSecretName, ""))
  }

  /**
   Whatever the iteration orders of the class and of the secret, `parseParameters` either fails
   both times or yields the same options, when keys stay distinct after lower-casing. Of the
   secrets only the one that is read matters.
   */
  lemma ParseIgnoresOrder(l: Lookups, l': Lookups, params: map<string, string>,
                          order: seq<string>, order': seq<string>)
    requires DistinctTags(params) && IsOrder(order, params) && IsOrder(order', params)
    requires SameAnswers(l, l', AdminSecretAt(Tagged(params, order)))
    ensures (Parse(l, params, order).Err? && Parse(l', params, order').Err?)
         || Parse(l, params, order) == Parse(l', params, order')
  {
    hide Lower, Apply, Fold, Assemble, Tagged, Acceptable, Finish, SameSecret;
    FoldAssembles(l.resolved, params, order);
    FoldAssembles(l.resolved, params, order');
    assert AllAcceptable(l.resolved, params, order) <==> AllAcceptable(l.resolved, params, order');
    if AllAcceptable(l.resolved, params, order) {
      KnownTags(l.resolved, params, order);
      SettingsAgree(params, order, order');
      AssembledSecret(l.resolved, Tagged(params, order));
      FinishAgrees(l, l', Assemble(l.resolved, Tagged(params, order)));
    }
  }

  lemma KnownTags(r: Resolved, params: map<string, string>, order: seq<string>)
    requires (forall k | k in order :: k in params) && AllAcceptable(r, params, order)
    ensures forall k | k in order :: TagOf(k) != Unknown
  {
    hide TagOf;
    forall k | k in order ensures TagOf(k) != Unknown {
      assert Acceptable(r, TagOf(k), params[k]);
    }
  }

  lemma AssembledSecret(r: Resolved, m: Settings)
    ensures (Assemble(r, m).secretNamespace, Assemble(r, m).secretName) == AdminSecretAt(m)
  {
  }

  lemma FinishAgrees(l: Lookups, l': Lookups, st: Progress)
    requires SameAnswers(l, l', (st.secretNamespace, st.secretName))
    ensures Finish(l, st) == Finish(l', st)
  {
    var at := (st.secretNamespace, st.secretName);
    if at in l.secrets {
      SameSecretSameValue(l.secrets[at], l'.secrets[at]);
    }
  }

  // ---------------------------------------------------------------- the pool

  /** All keys that mean the pool carry one value. */
  ghost predicate PoolAgrees(params: map<string, string>) {
    forall k, k' | k in params && k' in params && TagOf(k) == Pool && TagOf(k') == Pool ::
      params[k] == params[k']
  }

  /** Keys that stay distinct after lower-casing leave no two that mean the pool. */
  lemma DistinctTagsAgree(params: map<string, string>)
    requires DistinctTags(params)
    ensures PoolAgrees(params)
  {
    hide TagOf;
    forall k, k' | k in params && k' in params && TagOf(k) == Pool && TagOf(k') == Pool
      ensures params[k] == params[k']
    {
      SameTagSameKey(params, k, k');
    }
  }

  ghost function DeclaredPool(params: map<string, string>): string {
    if k :| k in params && TagOf(k) == Pool then params[k] else "rbd"
  }

  /** The pool of a successful parse is the last pool key's value. */
  lemma {:induction false} FoldPool(r: Resolved, params: map<string, string>, order: seq<string>)
    requires forall k | k in order :: k in params
    requires Fold(r, params, order).Ok?
    ensures Fold(r, params, order).value.opts.pool == Get(Tagged(params, order), Pool, "rbd")
  {
    if order != [] {
      FoldPool(r, params, order[..|order| - 1]);
    }
  }

  lemma {:induction false} TaggedPool(params: map<string, string>, order: seq<string>)
    requires forall k | k in order :: k in params
    ensures Pool in Tagged(params, order) ==>
              exists k :: k in order && TagOf(k) == Pool && Tagged(params, order)[Pool] == params[k]
    ensures forall k | k in order :: TagOf(k) == Pool ==> Pool in Tagged(params, order)
  {
    if order != [] {
      var n := |order| - 1;
      TaggedPool(params, order[..n]);
      assert order == order[..n] + [order[n]];
      if TagOf(order[n]) != Pool && Pool in Tagged(params, order) {
        var k :| k in order[..n] && TagOf(k) == Pool && Tagged(params, order[..n])[Pool] == params[k];
        assert k in order;
      }
    }
  }

  /**
   Every successful parse of one class addresses the declared pool, in any order and whatever the
   lookups answer: this is what makes separate parses of create, rollback and delete meet.
   */
  lemma ParsedPoolIsDeclared(l: Lookups, params: map<string, string>, order: seq<string>)
    requires PoolAgrees(params) && IsOrder(order, params) && Parse(l, params, order).Ok?
    ensures Parse(l, params, order).value.pool == DeclaredPool(params)
  {
    FoldPool(l.resolved, params, order);
    TaggedPool(params, order);
  }

  lemma ParsedPoolIsNamed(l: Lookups, params: map<string, string>, order: seq<string>)
    requires (forall k | k in order :: k in params) && Parse(l, params, order).Ok?
    ensures Parse(l, params, order).value.pool != ""
  {
    FoldPool(l.resolved, params, order);
    TaggedPool(params, order);
    if Pool in Tagged(params, order) {
      var i :| 0 <= i < |order| && TagOf(order[i]) == Pool && Tagged(params, order)[Pool] == params[order[i]];
      PoolValueNonEmpty(l.resolved, params, order, i);
    }
  }

  // ------------------------------------------------- when the pool does depend on the order

  ghost predicate DifferInPool(a: Parsed<Progress>, b: Parsed<Progress>) {
    a.Ok? && b.Ok? && b.value == a.value.(opts := a.value.opts.(pool := b.value.opts.pool))
  }

  lemma PoolApplied(r: Resolved, st: Progress, v: string)
    ensures Apply(r, st, Pool, v).Ok? <==> v != ""
    ensures v != "" ==> Apply(r, st, Pool, v) == Ok(st.(opts := st.opts.(pool := v)))
  {
  }

  /** The fold over one more key. */
  lemma FoldSnoc(r: Resolved, params: map<string, string>, order: seq<string>, k: string)
    requires k in params && forall x | x in order :: x in params
    ensures forall x | x in order + [k] :: x in params
    ensures Fold(r, params, order + [k]) ==
            if Fold(r, params, order).Ok? then Apply(r, Fold(r, params, order).value, TagOf(k), params[k])
            else Fold(r, params, order)
  {
    hide Apply, TagOf;
    assert (order + [k])[..|order|] == order;
  }

  lemma ApplyIgnoresPool(r: Resolved, a: Progress, b: Progress, tag: Tag, v: string)
    requires DifferInPool(Ok(a), Ok(b)) && Apply(r, a, tag, v).Ok?
    ensures DifferInPool(Apply(r, a, tag, v), Apply(r, b, tag, v))
  {
  }

  /** Leaving out a key that means the pool leaves every other option as it was. */
  lemma {:induction false} FoldWithout(r: Resolved, params: map<string, string>,
                                       before: seq<string>, k: string, after: seq<string>)
    requires forall x | x in before + [k] + after :: x in params
    requires TagOf(k) == Pool && Fold(r, params, before + [k] + after).Ok?
    ensures forall x | x in before + after :: x in params
    ensures DifferInPool(Fold(r, params, before + [k] + after), Fold(r, params, before + after))
  {
    hide Apply, TagOf, Fold;
    assert forall x | x in before + after :: x in before + [k] + after;
    if after == [] {
      assert before + [k] + after == before + [k] && before + after == before;
      FoldSnoc(r, params, before, k);
      PoolApplied(r, Fold(r, params, before).value, params[k]);
    } else {
      var n := |after| - 1;
      var rest, last := after[..n], after[n];
      assert before + [k] + after == (before + [k] + rest) + [last];
      assert before + after == (before + rest) + [last];
      FoldSnoc(r, params, before + [k] + rest, last);
      FoldSnoc(r, params, before + rest, last);
      FoldWithout(r, params, before, k, rest);
      ApplyIgnoresPool(r, Fold(r, params, before + [k] + rest).value, Fold(r, params, before + rest).value,
                       TagOf(last), params[last]);
    }
  }

  lemma MovedLastIsOrder(params: map<string, string>, before: seq<string>, k: string, after: seq<string>)
    requires IsOrder(before + [k] + after, params)
    ensures IsOrder(before + after + [k], params)
  {
    var order, order' := before + [k] + after, before + after + [k];
    forall x ensures x in order' <==> x in params {
      assert x in order' <==> x in order;
    }
    forall i, j | 0 <= i < j < |order'| ensures order'[i] != order'[j] {
      var b := |before|;
      assert order'[i] == order[if i < b then i else i + 1];
      assert order'[j] == order[if j < b then j else if j < |order'| - 1 then j + 1 else b];
    }
  }

  /** Iterating a pool key last makes its value the pool, and a class that parsed still parses. */
  lemma PoolKeyLast(l: Lookups, params: map<string, string>, order: seq<string>, k: string)
    returns (order': seq<string>)
    requires IsOrder(order, params) && Parse(l, params, order).Ok?
    requires k in params && TagOf(k) == Pool
    ensures IsOrder(order', params) && Parse(l, params, order').Ok?
    ensures Parse(l, params, order').value.pool == params[k]
  {
    hide Apply, TagOf, Fold;
    var i :| 0 <= i < |order| && order[i] == k;
    var before, after := order[..i], order[i + 1..];
    assert order == before + [k] + after;
    MovedLastIsOrder(params, before, k, after);
    FoldWithout(l.resolved, params, before, k, after);
    PoolValueNonEmpty(l.resolved, params, order, i);
    order' := before + after + [k];
    FoldSnoc(l.resolved, params, before + after, k);
    PoolApplied(l.resolved, Fold(l.resolved, params, before + after).value, params[k]);
    FinishKeepsPool(l, Fold(l.resolved, params, order).value, Fold(l.resolved, params, order').value);
  }

  /** What follows the loop does not look at the pool. */
  lemma FinishKeepsPool(l: Lookups, a: Progress, b: Progress)
    requires DifferInPool(Ok(a), Ok(b)) && Finish(l, a).Ok?
    ensures Finish(l, b).Ok? && Finish(l, b).value.pool == b.opts.pool
  {
    hide SecretValue;
  }

  lemma {:induction false} PoolValueNonEmpty(r: Resolved, params: map<string, string>, order: seq<string>, i: nat)
    requires forall x | x in order :: x in params
    requires i < |order| && TagOf(order[i]) == Pool && Fold(r, params, order).Ok?
    ensures params[order[i]] != ""
  {
    if i < |order| - 1 {
      PoolValueNonEmpty(r, params, order[..|order| - 1], i);
    }
  }

  /**
   Exactly when separate parses of one class always meet in one pool: the keys that mean the pool
   must carry one value. Checking this needs the class alone, before any call.
   */
  lemma PoolIgnoresOrderIff(l: Lookups, params: map<string, string>, order: seq<string>)
    requires IsOrder(order, params) && Parse(l, params, order).Ok?
    ensures PoolAgrees(params) <==>
            forall o | IsOrder(o, params) && Parse(l, params, o).Ok? ::
              Parse(l, params, o).value.pool == Parse(l, params, order).value.pool
  {
    if PoolAgrees(params) {
      ParsedPoolIsDeclared(l, params, order);
      forall o | IsOrder(o, params) && Parse(l, params, o).Ok?
        ensures Parse(l, params, o).value.pool == Parse(l, params, order).value.pool
      {
        ParsedPoolIsDeclared(l, params, o);
      }
    } else {
      var k, k' :| k in params && k' in params && TagOf(k) == Pool && TagOf(k') == Pool && params[k] != params[k'];
      var o := PoolKeyLast(l, params, order, k);
      var o' := PoolKeyLast(l, params, order, k');
    }
  }

  // ------------------------------------------------- when the secret does depend on the order

  function Entries(m: map<string, string>, order: seq<string>): SecretData
    requires forall k | k in order :: k in m
  {
    seq(|order|, i requires 0 <= i < |order| => (order[i], m[order[i]]))
  }

  lemma {:induction false} OrderExists(m: map<string, string>) returns (order: seq<string>)
    ensures IsOrder(order, m)
    decreases |m|
  {
    if m == map[] {
      order := [];
    } else {
      var k :| k in m;
      assert (m - {k}).Keys == m.Keys - {k};
      order := OrderExists(m - {k});
      OrderGrows(m, order, k);
      order := order + [k];
    }
  }

  lemma OrderEndingWith(m: map<string, string>, k: string) returns (order: seq<string>)
    requires k in m
    ensures IsOrder(order, m) && order[|order| - 1] == k
  {
    var rest := OrderExists(m - {k});
    OrderGrows(m, rest, k);
    order := rest + [k];
  }

  lemma OrderGrows(m: map<string, string>, rest: seq<string>, k: string)
    requires k in m && IsOrder(rest, m - {k})
    ensures IsOrder(rest + [k], m)
  {
    var order := rest + [k];
    forall x ensures x in order <==> x in m {
      assert x in m - {k} <==> x in m && x != k;
      assert x in order <==> x in rest || x == k;
    }
    forall i, j | 0 <= i < j < |order| ensures order[i] != order[j] {
      assert order[i] == rest[i] && rest[i] in rest;
    }
  }

  /** Exactly when the secret read does not depend on iteration: a `key` entry, or one value only. */
  lemma SecretIgnoresOrderIff(m: map<string, string>)
    ensures ("key" in m || forall k, k' | k in m && k' in m :: m[k] == m[k']) <==>
            forall o, o' | IsOrder(o, m) && IsOrder(o', m) ::
              SecretValue(Entries(m, o), "") == SecretValue(Entries(m, o'), "")
  {
    forall o | IsOrder(o, m)
      ensures SECRET_KEY_NAME in m ==> SecretValue(Entries(m, o), "") == m[SECRET_KEY_NAME]
      ensures SECRET_KEY_NAME !in m && m != map[] ==>
                |o| > 0 && o[|o| - 1] in m && SecretValue(Entries(m, o), "") == m[o[|o| - 1]]
      ensures m == map[] ==> forall i | 0 <= i < |o| :: o[i] in m
    {
      if SECRET_KEY_NAME in m {
        var i :| 0 <= i < |o| && o[i] == SECRET_KEY_NAME;
        SecretIsKeyEntry(Entries(m, o), "", i);
      } else if m != map[] {
        var k :| k in m;
        assert k in o;
        SecretIsLastEntry(Entries(m, o), "");
      }
    }
    if SECRET_KEY_NAME !in m && exists k, k' :: k in m && k' in m && m[k] != m[k'] {
      var k, k' :| k in m && k' in m && m[k] != m[k'];
      var o := OrderEndingWith(m, k);
      var o' := OrderEndingWith(m, k');
    }
  }

  // ---------------------------------------------------------------- sizes

  const MIB := 1048576

  /** The image size in MiB for a request in bytes: the ceiling of the quotient. */
  function MibFor(bytes: int): int {
    if bytes <= 0 then 0 - (-bytes) / MIB else (bytes - 1) / MIB + 1
  }

  /** A size is refused exactly when the request is not positive; otherwise it covers the request tightly. */
  lemma MibCovers(bytes: int)
    ensures MibFor(bytes) <= 0 <==> bytes <= 0
    ensures bytes <= MibFor(bytes) * 1048576 < bytes + 1048576
  {
  }
}
