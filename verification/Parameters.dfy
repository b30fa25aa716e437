/**
 What a storage class means, key by key, in the words that its author writes: which key sets which
 option, what an absent key stands for, and exactly which classes are accepted.
 */
module Parameters {
  import opened StorageClass

  // ---------------------------------------------------------------- text

  /** Each capital becomes its small letter, two foreign letters a plain one, and the rest stays. */
  lemma LowerExamples(c: char)
    ensures 'A' <= c <= 'Z' ==> LowerChar(c) as int - 'a' as int == c as int - 'A' as int
    ensures LowerChar('\U{130}') == 'i' && LowerChar('\U{212A}') == 'k'
    ensures !('A' <= c <= 'Z') && c != '\U{130}' && c != '\U{212A}' ==> LowerChar(c) == c
    ensures Lower("Pool") == Lower("POOL") == "pool" && Lower("adminSecretName") == "adminsecretname"
  {
  }

  /** Lower-casing goes letter by letter, and a second time changes nothing. */
  lemma LowerLetters(a: string, b: string)
    ensures Lower(a + b) == Lower(a) + Lower(b)
    ensures Lower(Lower(a)) == Lower(a)
  {
  }

  /** The texts with a comma between each two. */
  function Joined(parts: seq<string>): string {
    if parts == [] then ""
    else if |parts| == 1 then parts[0]
    else parts[0] + "," + Joined(parts[1..])
  }

  /** Splitting is undone by joining, and leaves no comma in any part. */
  lemma {:induction false} SplitJoins(s: string)
    ensures Joined(Split(s)) == s
    ensures forall p | p in Split(s) :: ',' !in p
  {
    if s != "" {
      SplitJoins(s[1..]);
      var rest := Split(s[1..]);
      if s[0] == ',' {
        assert Split(s) == [""] + rest && Split(s)[1..] == rest;
        assert s == "," + s[1..];
      } else {
        assert Split(s)[0] == [s[0]] + rest[0] && Split(s)[1..] == rest[1..];
        assert s == [s[0]] + s[1..];
      }
    }
  }

  /** Monitors are resolved one by one and in order; one that does not resolve stands for itself. */
  lemma {:induction false} ResolvesEach(r: Resolved, a: seq<string>, b: seq<string>, m: string)
    ensures ResolveAll(r, a + b) == ResolveAll(r, a) + ResolveAll(r, b)
    ensures m in r ==> ResolveAll(r, [m]) == r[m]
    ensures m !in r ==> ResolveAll(r, [m]) == [m]
    decreases |b|
  {
    assert [m][..0] == [];
    if b == [] {
      assert a + b == a;
    } else {
      var n := |b| - 1;
      assert (a + b)[..|a| + n] == a + b[..n] && (a + b)[|a| + n] == b[n];
      ResolvesEach(r, a, b[..n], m);
    }
  }

  // ---------------------------------------------------------------- options by key

  /** Some key of the class reads `name` in lower case. */
  predicate Given(params: map<string, string>, name: string) {
    exists k :: k in params && Lower(k) == name
  }

  /** The value of such a key, or what its absence stands for. */
  ghost function Asked(params: map<string, string>, name: string, otherwise: string): string {
    if k :| k in params && Lower(k) == name then params[k] else otherwise
  }

  /** With distinct keys there is one value to ask for. */
  lemma AskedIs(params: map<string, string>, k: string, otherwise: string)
    requires DistinctTags(params) && k in params
    ensures Asked(params, Lower(k), otherwise) == params[k]
  {
    hide Lower;
  }

  /** The settings hold, under the tag that goes with a name, what was asked for by that name. */
  lemma TagIsName(params: map<string, string>, order: seq<string>, tag: Tag, name: string)
    requires DistinctTags(params) && IsOrder(order, params) && tag != Unknown
    requires forall k | k in params :: TagOf(k) == tag <==> Lower(k) == name
    ensures tag in Tagged(params, order) <==> Given(params, name)
    ensures forall otherwise :: Get(Tagged(params, order), tag, otherwise) == Asked(params, name, otherwise)
  {
    hide TagOf, Lower, DistinctTags;
    TaggedLooksUp(params, order);
  }

  lemma TagsAreNames(k: string)
    ensures TagOf(k) == Monitors <==> Lower(k) == "monitors"
    ensures TagOf(k) == AdminId <==> Lower(k) == "adminid"
    ensures TagOf(k) == AdminSecretName <==> Lower(k) == "adminsecretname"
    ensures TagOf(k) == AdminSecretNamespace <==> Lower(k) == "adminsecretnamespace"
    ensures TagOf(k) == UserId <==> Lower(k) == "userid"
    ensures TagOf(k) == Pool <==> Lower(k) == "pool"
    ensures TagOf(k) == DataPool <==> Lower(k) == "datapool"
    ensures TagOf(k) == UserSecretName <==> Lower(k) == "usersecretname"
    ensures TagOf(k) == UserSecretNamespace <==> Lower(k) == "usersecretnamespace"
    ensures TagOf(k) == ImageFormat <==> Lower(k) == "imageformat"
    ensures TagOf(k) == ImageFeatures <==> Lower(k) == "imagefeatures"
    ensures TagOf(k) == FsType <==> Lower(k) == "fstype"
    ensures TagOf(k) == Unknown <==> Lower(k) !in KNOWN
  {
    hide Lower;
  }

  const KNOWN := {"monitors", "adminid", "adminsecretname", "adminsecretnamespace", "userid", "pool", "datapool",
                  "usersecretname", "usersecretnamespace", "imageformat", "imagefeatures", "fstype"}

  /** Namespace and name of the admin secret. */
  ghost function SecretAsked(params: map<string, string>): (string, string) {
    (Asked(params, "adminsecretnamespace", "default"), Asked(params, "adminsecretname", ""))
  }

  /** What the options of a class must be, key by key. */
  ghost predicate Means(l: Lookups, params: map<string, string>, o: Options) {
    && o.pool == Asked(params, "pool", "rbd")
    && o.dataPool == Asked(params, "datapool", "")
    && o.adminId == Asked(params, "adminid", "admin")
    && (Asked(params, "userid", "") != "" ==> o.userId == Asked(params, "userid", ""))
    && (Asked(params, "userid", "") == "" ==> o.userId == o.adminId)
    && o.userSecretName == Asked(params, "usersecretname", "")
    && o.userSecretNamespace == Asked(params, "usersecretnamespace", "")
    && o.fsType == Asked(params, "fstype", "")
    && o.imageFormat == Asked(params, "imageformat", "2")
    && (Given(params, "monitors") ==> o.monitors == ResolveAll(l.resolved, Split(Asked(params, "monitors", ""))))
    && (!Given(params, "monitors") ==> o.monitors == [])
    && (Given(params, "imagefeatures") ==> o.imageFeatures == Split(Asked(params, "imagefeatures", "")))
    && (!Given(params, "imagefeatures") ==> o.imageFeatures == [])
    && SecretAsked(params) in l.secrets && o.adminSecret == SecretValue(l.secrets[SecretAsked(params)], "")
  }

  predicate OnlyLayering(features: seq<string>) {
    forall f | f in features :: f == "layering"
  }

  /** Every parameter is one that the code takes. */
  ghost predicate Accepted(l: Lookups, params: map<string, string>) {
    && (forall k | k in params :: Lower(k) in KNOWN)
    && (forall k | k in params && Lower(k) in {"pool", "adminid", "usersecretname"} :: params[k] != "")
    && (forall k | k in params && Lower(k) == "imageformat" :: params[k] in {"1", "2"})
    && (forall k | k in params && Lower(k) == "imagefeatures" :: OnlyLayering(Split(params[k])))
    && (forall k | k in params && Lower(k) == "monitors" :: ResolveAll(l.resolved, Split(params[k])) != [])
  }

  /** The admin secret is named, and there to be read. */
  ghost predicate SecretThere(l: Lookups, params: map<string, string>) {
    Asked(params, "adminsecretname", "") != "" && l.apiUp && SecretAsked(params) in l.secrets
  }

  /** The settings that the loop gathers, read by name. */
  ghost predicate NamedAlike(m: Settings, params: map<string, string>) {
    && Get(m, Pool, "rbd") == Asked(params, "pool", "rbd")
    && Get(m, DataPool, "") == Asked(params, "datapool", "")
    && Get(m, AdminId, "admin") == Asked(params, "adminid", "admin")
    && Get(m, UserId, "") == Asked(params, "userid", "")
    && Get(m, UserSecretName, "") == Asked(params, "usersecretname", "")
    && Get(m, UserSecretNamespace, "") == Asked(params, "usersecretnamespace", "")
    && Get(m, FsType, "") == Asked(params, "fstype", "")
    && Get(m, ImageFormat, "2") == Asked(params, "imageformat", "2")
    && Get(m, Monitors, "") == Asked(params, "monitors", "") && (Monitors in m <==> Given(params, "monitors"))
    && Get(m, ImageFeatures, "") == Asked(params, "imagefeatures", "")
    && (ImageFeatures in m <==> Given(params, "imagefeatures"))
    && AdminSecretAt(m) == SecretAsked(params)
  }

  lemma TaggedAlike(params: map<string, string>, order: seq<string>)
    requires DistinctTags(params) && IsOrder(order, params)
    ensures NamedAlike(Tagged(params, order), params)
  {
    hide Lower, TagOf, Tagged, Asked, Given, DistinctTags, IsOrder, Get;
    forall k { TagsAreNames(k); }
    TagIsName(params, order, Monitors, "monitors");
    TagIsName(params, order, AdminId, "adminid");
    TagIsName(params, order, AdminSecretName, "adminsecretname");
    TagIsName(params, order, AdminSecretNamespace, "adminsecretnamespace");
    TagIsName(params, order, UserId, "userid");
    TagIsName(params, order, Pool, "pool");
    TagIsName(params, order, DataPool, "datapool");
    TagIsName(params, order, UserSecretName, "usersecretname");
    TagIsName(params, order, UserSecretNamespace, "usersecretnamespace");
    TagIsName(params, order, ImageFormat, "imageformat");
    TagIsName(params, order, ImageFeatures, "imagefeatures");
    TagIsName(params, order, FsType, "fstype");
  }

  lemma AssembledMeans(l: Lookups, params: map<string, string>, m: Settings)
    requires NamedAlike(m, params)
    ensures var st := Assemble(l.resolved, m);
            && (Finish(l, st).Ok? <==> SecretThere(l, params))
            && (Finish(l, st).Ok? ==> Means(l, params, Finish(l, st).value))
  {
    hide Lower, ResolveAll, Split, SecretValue, Asked, Given;
  }

  lemma OneAcceptable(r: Resolved, k: string, v: string)
    ensures Acceptable(r, TagOf(k), v) <==>
            && Lower(k) in KNOWN
            && (Lower(k) in {"pool", "adminid", "usersecretname"} ==> v != "")
            && (Lower(k) == "imageformat" ==> v in {"1", "2"})
            && (Lower(k) == "imagefeatures" ==> OnlyLayering(Split(v)))
            && (Lower(k) == "monitors" ==> ResolveAll(r, Split(v)) != [])
  {
    hide Lower, TagOf, ResolveAll, Split, AllSupported, OnlyLayering;
    TagsAreNames(k);
    SupportedIsLayering(Split(v));
  }

  lemma SupportedIsLayering(features: seq<string>)
    ensures AllSupported(features) <==> OnlyLayering(features)
  {
  }

  lemma AcceptedIff(l: Lookups, params: map<string, string>, order: seq<string>)
    requires IsOrder(order, params)
    ensures AllAcceptable(l.resolved, params, order) <==> Accepted(l, params)
  {
    hide Lower, TagOf, ResolveAll, Split, Acceptable, OnlyLayering;
    forall k | k in params { OneAcceptable(l.resolved, k, params[k]); }
  }

  /**
   Exactly which classes parse, and to what, when keys stay distinct after lower-casing: every key is
   known, its value is allowed, and the admin secret can be read; then each option is the value of the
   key that names it, or its default.
   */
  lemma ParsedOptions(l: Lookups, params: map<string, string>, order: seq<string>)
    requires DistinctTags(params) && IsOrder(order, params)
    ensures Parse(l, params, order).Ok? <==> Accepted(l, params) && SecretThere(l, params)
    ensures Parse(l, params, order).Ok? ==> Means(l, params, Parse(l, params, order).value)
  {
    hide Lower, Tagged, Assemble, Fold, Finish, Accepted, SecretThere, Means, AllAcceptable, DistinctTags,
         NamedAlike;
    FoldAssembles(l.resolved, params, order);
    AcceptedIff(l, params, order);
    TaggedAlike(params, order);
    AssembledMeans(l, params, Tagged(params, order));
  }

  /** A class that names its pool in any capitals is parsed to that pool, and one that does not to "rbd". */
  lemma PoolByKey(l: Lookups, params: map<string, string>, order: seq<string>, k: string)
    requires DistinctTags(params) && IsOrder(order, params) && Parse(l, params, order).Ok?
    ensures k in params && Lower(k) == "pool" ==> Parse(l, params, order).value.pool == params[k]
    ensures (forall x | x in params :: Lower(x) != "pool") ==> Parse(l, params, order).value.pool == "rbd"
  {
    hide Lower, DistinctTags, Parse;
    ParsedOptions(l, params, order);
    if k in params && Lower(k) == "pool" {
      AskedIs(params, k, "rbd");
    }
  }

  /** The pool that separate parses meet in is the one that the class names. */
  lemma DeclaredPoolIsAsked(params: map<string, string>)
    requires DistinctTags(params)
    ensures DeclaredPool(params) == Asked(params, "pool", "rbd")
  {
    hide Lower, TagOf;
    forall k { TagsAreNames(k); }
  }
}
