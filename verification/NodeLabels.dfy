/**
 The node label reconciler: a node whose filter label is there gets the csi labels, any other node
 loses them, and CreateVolume counts the nodes that have them.
 */
module NodeLabels {
  import opened Records
  import opened StorageClass

  type Labels = map<string, string>

  const TEMP_NODE_KEY := "%N"

  // ---------------------------------------------------------------- templates

  /** Replaces every occurrence from left to right, none overlapping. */
  function ReplaceAll(s: string, pattern: string, value: string): string
    requires pattern != ""
  {
    if |s| < |pattern| then s
    else if pattern <= s then value + ReplaceAll(s[|pattern|..], pattern, value)
    else [s[0]] + ReplaceAll(s[1..], pattern, value)
  }

  predicate Occurs(s: string, pattern: string)
    requires pattern != ""
  {
    |s| >= |pattern| && (pattern <= s || Occurs(s[1..], pattern))
  }

  /** The name's template value. */
  function Expand(template: string, nodename: string): string {
    ReplaceAll(template, TEMP_NODE_KEY, nodename)
  }

  function ReplaceEach(s: string, pairs: seq<(string, string)>): string
    requires forall r | r in pairs :: r.0 != ""
  {
    if pairs == [] then s
    else
      var n := |pairs| - 1;
      ReplaceAll(ReplaceEach(s, pairs[..n]), pairs[n].0, pairs[n].1)
  }

  /** The replacements in iteration order. */
  method TempReplace(src: string, pairs: seq<(string, string)>) returns (tmp: string)
    requires forall r | r in pairs :: r.0 != ""
    ensures tmp == ReplaceEach(src, pairs)
  {
    tmp := src;
    for i := 0 to |pairs|
      invariant tmp == ReplaceEach(src, pairs[..i])
    {
      assert pairs[..i + 1][..i] == pairs[..i];
      tmp := ReplaceAll(tmp, pairs[i].0, pairs[i].1);
    }
    assert pairs[..|pairs|] == pairs;
  }

  lemma ExpandIsReplaceEach(template: string, nodename: string)
    ensures ReplaceEach(template, [("%N", nodename)]) == Expand(template, nodename)
  {
    assert [(TEMP_NODE_KEY, nodename)][..0] == [];
    assert ReplaceEach(template, []) == template;
  }

  lemma {:induction false} ReplaceLengths(s: string, p: string, a: string, b: string)
    requires p != ""
    ensures |a| == |b| ==> |ReplaceAll(s, p, a)| == |ReplaceAll(s, p, b)|
    ensures |a| < |b| ==> |ReplaceAll(s, p, a)| <= |ReplaceAll(s, p, b)|
    ensures |a| < |b| && Occurs(s, p) ==> |ReplaceAll(s, p, a)| < |ReplaceAll(s, p, b)|
    decreases |s|
  {
    if |s| >= |p| {
      if p <= s {
        ReplaceLengths(s[|p|..], p, a, b);
      } else {
        ReplaceLengths(s[1..], p, a, b);
      }
    }
  }

  lemma {:induction false} ReplaceInjective(s: string, p: string, a: string, b: string)
    requires p != "" && Occurs(s, p) && |a| == |b| && ReplaceAll(s, p, a) == ReplaceAll(s, p, b)
    ensures a == b
    decreases |s|
  {
    if p <= s {
      assert a == ReplaceAll(s, p, a)[..|a|];
      assert b == ReplaceAll(s, p, b)[..|b|];
    } else {
      assert ReplaceAll(s, p, a)[1..] == ReplaceAll(s[1..], p, a);
      assert ReplaceAll(s, p, b)[1..] == ReplaceAll(s[1..], p, b);
      ReplaceInjective(s[1..], p, a, b);
    }
  }

  lemma {:induction false} ReplaceNothing(s: string, p: string, a: string)
    requires p != "" && !Occurs(s, p)
    ensures ReplaceAll(s, p, a) == s
    decreases |s|
  {
    if |s| >= |p| {
      ReplaceNothing(s[1..], p, a);
    }
  }

  /** A marker between any two texts is replaced, and so is every marker in either of them. */
  lemma {:induction false} ExpandReplacesEach(a: string, nodename: string, b: string)
    ensures Expand(a + "%N" + b, nodename) == Expand(a, nodename) + nodename + Expand(b, nodename)
    decreases |a|
  {
    var s := a + "%N" + b;
    if a == [] {
      assert s == "%N" + b && s[2..] == b;
    } else if "%N" <= a {
      assert "%N" <= s && s[2..] == a[2..] + "%N" + b;
      ExpandReplacesEach(a[2..], nodename, b);
    } else {
      assert s[0] == a[0] && s[1] == (if |a| > 1 then a[1] else '%');
      assert s[1..] == a[1..] + "%N" + b;
      ExpandReplacesEach(a[1..], nodename, b);
      assert Expand(a, nodename) == [a[0]] + Expand(a[1..], nodename);
    }
  }

  /** Text without a marker is kept. */
  lemma ExpandKeepsOtherText(s: string, nodename: string)
    requires forall a, b :: s != a + "%N" + b
    ensures Expand(s, nodename) == s
  {
    if Occurs(s, TEMP_NODE_KEY) {
      var a, b := OccursWhere(s);
    } else {
      ReplaceNothing(s, TEMP_NODE_KEY, nodename);
    }
  }

  lemma {:induction false} OccursWhere(s: string) returns (a: string, b: string)
    requires Occurs(s, "%N")
    ensures s == a + "%N" + b
    decreases |s|
  {
    if "%N" <= s {
      a, b := "", s[2..];
    } else {
      a, b := OccursWhere(s[1..]);
      a := [s[0]] + a;
    }
  }

  lemma {:induction false} OccursAt(a: string, b: string)
    ensures Occurs(a + "%N" + b, "%N")
    decreases |a|
  {
    var s := a + "%N" + b;
    if a == [] {
      assert "%N" <= s;
    } else {
      assert s[1..] == a[1..] + "%N" + b;
      OccursAt(a[1..], b);
    }
  }

  /** A text has a marker exactly when it is two texts with a marker between them. */
  lemma OccursIff(s: string)
    ensures Occurs(s, "%N") <==> exists a, b :: s == a + "%N" + b
  {
    if Occurs(s, "%N") {
      var a, b := OccursWhere(s);
    }
    if a, b :| s == a + "%N" + b {
      OccursAt(a, b);
    }
  }

  /** Distinct node names always expand a template differently if, and only if, it mentions the name. */
  lemma ExpandInjectiveIff(template: string)
    ensures Occurs(template, "%N") <==>
            forall a, b | a != b :: Expand(template, a) != Expand(template, b)
  {
    if Occurs(template, TEMP_NODE_KEY) {
      forall a, b | a != b ensures Expand(template, a) != Expand(template, b) {
        ReplaceLengths(template, TEMP_NODE_KEY, a, b);
        ReplaceLengths(template, TEMP_NODE_KEY, b, a);
        if Expand(template, a) == Expand(template, b) {
          ReplaceInjective(template, TEMP_NODE_KEY, a, b);
        }
      }
    } else {
      ReplaceNothing(template, TEMP_NODE_KEY, "a");
      ReplaceNothing(template, TEMP_NODE_KEY, "b");
      assert Expand(template, "a") == Expand(template, "b");
    }
  }

  // ---------------------------------------------------------------- the reconciler

  datatype Config = Config(filterKey: string, filterValue: string, csilabel: Labels)

  /** The update that reconciliation asks for, instead of the closure that performs it. */
  datatype Update = NoUpdate | RemoveCsi | AddCsi

  predicate Qualifies(g: Config, labels: Labels, nodename: string) {
    var key := Expand(g.filterKey, nodename);
    key in labels && labels[key] == Expand(g.filterValue, nodename)
  }

  predicate HasCsiKey(g: Config, labels: Labels) {
    exists k :: k in labels && k in g.csilabel
  }

  /** Every pair of `kv` is in `src`. */
  predicate Includes(src: Labels, kv: Labels) {
    forall k | k in kv :: k in src && src[k] == kv[k]
  }

  function Decide(g: Config, labels: Labels, nodename: string): Update {
    if !Qualifies(g, labels, nodename) then (if HasCsiKey(g, labels) then RemoveCsi else NoUpdate)
    else if HasCsiKey(g, labels) then NoUpdate
    else AddCsi
  }

  function Performed(g: Config, update: Update, labels: Labels): Labels {
    match update
    case NoUpdate => labels
    case RemoveCsi => labels - g.csilabel.Keys
    case AddCsi => labels + g.csilabel
  }

  /** The labels after one reconciliation of a node that does not change under it. */
  function Settled(g: Config, labels: Labels, nodename: string): Labels {
    Performed(g, Decide(g, labels, nodename), labels)
  }

  /** One try of an update: reading the node anew (its labels may be nil), and writing it back. */
  datatype Try = Unread | Read(labels: Option<Labels>, written: Written)

  datatype Written = Stored | Conflict | Failed

  /** How an update ends; adding to nil labels panics. */
  datatype UpdateEnd = Updated(labels: Option<Labels>) | GivenUp | Panicked

  predicate Panics(g: Config, update: Update, t: Try) {
    t.Read? && t.labels.None? && update.AddCsi? && g.csilabel != map[]
  }

  /** The try ends in a conflict, so that another one may follow. */
  predicate Conflicts(g: Config, update: Update, t: Try) {
    t.Read? && t.written.Conflict? && !Panics(g, update, t)
  }

  /** How the update ends with a try that does not conflict. */
  function EndOf(g: Config, update: Update, t: Try): UpdateEnd {
    if Panics(g, update, t) then Panicked
    else if t.Unread? || !t.written.Stored? then GivenUp
    else if t.labels.None? then Updated(None)
    else Updated(Some(Performed(g, update, t.labels.value)))
  }

  /** The first try that does not conflict decides; too many conflicts and the update is given up. */
  ghost predicate EndsAs(g: Config, update: Update, tries: seq<Try>, end: UpdateEnd) {
    && (forall i | 0 <= i < |tries| && !Conflicts(g, update, tries[i])
                   && (forall j | 0 <= j < i :: Conflicts(g, update, tries[j])) ::
          end == EndOf(g, update, tries[i]))
    && ((forall i | 0 <= i < |tries| :: Conflicts(g, update, tries[i])) ==> end == GivenUp)
  }

  /** The tries before the `i`th read labels and could not write them back for a conflict. */
  predicate ConflictsBefore(tries: seq<Try>, i: nat)
    requires i <= |tries|
  {
    forall j | 0 <= j < i :: tries[j].Read? && tries[j].labels.Some? && tries[j].written.Conflict?
  }

  class LabelController {
    const g: Config

    constructor (g: Config)
      ensures this.g == g
    {
      this.g := g;
    }

    /** A nil label map asks for nothing; otherwise the labels are gone through in iteration order. */
    method LabelUpdate(labels: Option<Labels>, order: seq<string>, nodename: string) returns (update: Update)
      requires labels.Some? ==> IsOrder(order, labels.value)
      ensures update == if labels.None? then NoUpdate else Decide(g, labels.value, nodename)
      ensures labels.Some? ==>
                var key, val := Expand(g.filterKey, nodename), Expand(g.filterValue, nodename);
                var qualifies := key in labels.value && labels.value[key] == val;
                var csi := exists k :: k in labels.value && k in g.csilabel;
                && (update.AddCsi? <==> qualifies && !csi)
                && (update.RemoveCsi? <==> !qualifies && csi)
    {
      if labels.None? {
        return NoUpdate;
      }
      var key := TempReplace(g.filterKey, [(TEMP_NODE_KEY, nodename)]);
      var val := TempReplace(g.filterValue, [(TEMP_NODE_KEY, nodename)]);
      ExpandIsReplaceEach(g.filterKey, nodename);
      ExpandIsReplaceEach(g.filterValue, nodename);
      var alcubExist, nodeLabelExist := false, false;
      for i := 0 to |order|
        invariant alcubExist <==> key in order[..i] && labels.value[key] == val
        invariant nodeLabelExist <==> exists k :: k in order[..i] && k in g.csilabel
      {
        var k := order[i];
        assert order[..i + 1] == order[..i] + [k];
        if key == k && val == labels.value[k] {
          alcubExist := true;
        }
        if k in g.csilabel {
          nodeLabelExist := true;
        }
      }
      assert order[..|order|] == order;
      if !alcubExist {
        return if nodeLabelExist then RemoveCsi else NoUpdate;
      }
      return if nodeLabelExist then NoUpdate else AddCsi;
    }

    /** Performs the update on a node's labels, one csi label at a time. */
    method Perform(update: Update, labels: Labels, order: seq<string>) returns (updated: Labels)
      requires IsOrder(order, g.csilabel)
      ensures updated == match update
                         case NoUpdate => labels
                         case RemoveCsi => labels - g.csilabel.Keys
                         case AddCsi => labels + g.csilabel
    {
      updated := labels;
      if update.RemoveCsi? {
        for i := 0 to |order|
          invariant forall k :: k in updated <==> k in labels && k !in order[..i]
          invariant forall k | k in updated :: updated[k] == labels[k]
        {
          assert order[..i + 1] == order[..i] + [order[i]];
          updated := updated - {order[i]};
        }
        assert order[..|order|] == order;
      } else if update.AddCsi? {
        for i := 0 to |order|
          invariant forall k :: k in updated <==> k in labels || k in order[..i]
          invariant forall k | k in updated ::
                      updated[k] == if k in order[..i] then g.csilabel[k] else labels[k]
        {
          assert order[..i + 1] == order[..i] + [order[i]];
          updated := updated[order[i] := g.csilabel[order[i]]];
        }
        assert order[..|order|] == order;
      }
    }

    /** Reads the node anew, performs the update and writes it back; a conflict starts this over. */
    method UpdateNode(update: Update, tries: seq<Try>, csiOrder: seq<string>) returns (end: UpdateEnd)
      requires IsOrder(csiOrder, g.csilabel) && |tries| == 5
      ensures EndsAs(g, update, tries, end)
      ensures forall i, l | 0 <= i < |tries| && tries[i] == Read(Some(l), Stored) && ConflictsBefore(tries, i) ::
                end == Updated(Some(match update
                                    case NoUpdate => l
                                    case RemoveCsi => l - g.csilabel.Keys
                                    case AddCsi => l + g.csilabel))
      ensures ConflictsBefore(tries, 5) ==> end == GivenUp
    {
      for n := 0 to |tries|
        invariant forall i | 0 <= i < n :: Conflicts(g, update, tries[i])
      {
        var t := tries[n];
        if t.Unread? {
          return GivenUp;
        }
        var labels := t.labels;
        if labels.Some? {
          var updated := Perform(update, labels.value, csiOrder);
          labels := Some(updated);
        } else if update.AddCsi? && g.csilabel != map[] {
          return Panicked;
        }
        if t.written.Stored? {
          return Updated(labels);
        }
        if t.written.Failed? {
          return GivenUp;
        }
      }
      return GivenUp;
    }

    /**
     One reconciliation: `seen` is what the first read gives, nothing for a node that is gone or
     terminating. What the update is performed on is read again.
     */
    method Reconcile(seen: Option<Option<Labels>>, order: seq<string>, csiOrder: seq<string>, nodename: string,
                     tries: seq<Try>)
      returns (end: UpdateEnd)
      requires seen.Some? && seen.value.Some? ==> IsOrder(order, seen.value.value)
      requires IsOrder(csiOrder, g.csilabel) && |tries| == 5
      ensures EndsAs(g, if seen.Some? && seen.value.Some? then Decide(g, seen.value.value, nodename) else NoUpdate,
                     tries, end)
      ensures forall i, l | 0 <= i < |tries| && tries[i] == Read(Some(l), Stored) && ConflictsBefore(tries, i) ::
                && (seen == Some(Some(l)) ==> end == Updated(Some(Settled(g, l, nodename))))
                && (seen.None? || seen.value.None? ==> end == Updated(Some(l)))
    {
      hide EndsAs, Decide;
      var update := NoUpdate;
      if seen.Some? {
        update := LabelUpdate(seen.value, order, nodename);
      }
      end := UpdateNode(update, tries, csiOrder);
    }

    /** The nodes that carry the csi labels; a node without a label map carries none. */
    method LabledNodes(nodes: seq<(string, Option<Labels>)>, csiOrder: seq<string>) returns (names: seq<string>)
      requires IsOrder(csiOrder, g.csilabel)
      ensures names == Labelled(g, nodes)
    {
      names := [];
      for i := 0 to |nodes|
        invariant names == Labelled(g, nodes[..i])
      {
        assert nodes[..i + 1][..i] == nodes[..i];
        var there := InMaps(nodes[i].1, Some(g.csilabel), csiOrder);
        if there {
          names := names + [nodes[i].0];
        }
      }
      assert nodes[..|nodes|] == nodes;
    }
  }

  function Labelled(g: Config, nodes: seq<(string, Option<Labels>)>): seq<string> {
    if nodes == [] then []
    else
      var n := |nodes| - 1;
      Labelled(g, nodes[..n]) +
      (if nodes[n].1.Some? && Includes(nodes[n].1.value, g.csilabel) then [nodes[n].0] else [])
  }

  /** Nodes are counted one by one and in order, each by its own labels. */
  lemma {:induction false} LabelledAppends(g: Config, a: seq<(string, Option<Labels>)>, b: seq<(string, Option<Labels>)>)
    ensures Labelled(g, a + b) == Labelled(g, a) + Labelled(g, b)
    decreases |b|
  {
    if b == [] {
      assert a + b == a;
    } else {
      var n := |b| - 1;
      assert (a + b)[..|a| + n] == a + b[..n] && (a + b)[|a| + n] == b[n];
      LabelledAppends(g, a, b[..n]);
    }
  }

  /** A name is returned exactly for a node that carries every csi pair. */
  lemma LabelledIff(g: Config, nodes: seq<(string, Option<Labels>)>, name: string)
    ensures name in Labelled(g, nodes) <==>
            exists i :: 0 <= i < |nodes| && nodes[i].0 == name && nodes[i].1.Some?
                        && forall k | k in g.csilabel :: k in nodes[i].1.value && nodes[i].1.value[k] == g.csilabel[k]
  {
    LabelledCarry(g, nodes, name);
    assert forall i | 0 <= i < |nodes| && nodes[i].1.Some? :: Includes(nodes[i].1.value, g.csilabel) <==>
             forall k | k in g.csilabel :: k in nodes[i].1.value && nodes[i].1.value[k] == g.csilabel[k];
  }

  lemma {:induction false} LabelledCarry(g: Config, nodes: seq<(string, Option<Labels>)>, name: string)
    ensures name in Labelled(g, nodes) <==>
            exists i :: 0 <= i < |nodes| && nodes[i].0 == name && nodes[i].1.Some? && Includes(nodes[i].1.value, g.csilabel)
  {
    hide Includes;
    if nodes != [] {
      var n := |nodes| - 1;
      LabelledCarry(g, nodes[..n], name);
      forall i | 0 <= i < n ensures nodes[..n][i] == nodes[i] {
      }
      if name in Labelled(g, nodes[..n]) {
        var i :| 0 <= i < n && nodes[..n][i].0 == name && nodes[..n][i].1.Some? && Includes(nodes[..n][i].1.value, g.csilabel);
        assert nodes[i] == nodes[..n][i];
      }
    }
  }

  method InMaps(src: Option<Labels>, kv: Option<Labels>, order: seq<string>) returns (there: bool)
    requires kv.Some? ==> IsOrder(order, kv.value)
    ensures there <==> kv.None? || (src.Some? && Includes(src.value, kv.value))
  {
    if kv.None? {
      return true;
    }
    if src.None? {
      return false;
    }
    for i := 0 to |order|
      invariant forall k | k in order[..i] :: k in src.value && src.value[k] == kv.value[k]
    {
      var k := order[i];
      assert order[..i + 1] == order[..i] + [k];
      if k !in src.value || src.value[k] != kv.value[k] {
        return false;
      }
    }
    assert order[..|order|] == order;
    return true;
  }

  // ---------------------------------------------------------------- what reconciliation achieves

  /** One reconciliation reaches a fixed point, and every label outside the csi keys is kept. */
  lemma ReconcileSettles(g: Config, labels: Labels, nodename: string)
    ensures Settled(g, Settled(g, labels, nodename), nodename) == Settled(g, labels, nodename)
    ensures forall k | k !in g.csilabel ::
              (k in Settled(g, labels, nodename) <==> k in labels)
              && (k in labels ==> Settled(g, labels, nodename)[k] == labels[k])
    ensures Qualifies(g, Settled(g, labels, nodename), nodename) <==> Qualifies(g, labels, nodename)
  {
    hide Expand;
    var after := Settled(g, labels, nodename);
    if Decide(g, labels, nodename).AddCsi? {
      if g.csilabel == map[] {
        assert labels + g.csilabel == labels;
      } else {
        var k :| k in g.csilabel;
        assert k in after;
      }
    }
  }

  /**
   Exactly when a reconciled node carries the csi labels just if its own filter label is there: a
   node that has the filter label must not already hold a csi key with another value, and with no
   csi labels at all, which every node carries, the node must have the filter label.
   */
  lemma LabelledExactlyWhenQualified(g: Config, labels: Labels, nodename: string)
    ensures (Includes(Settled(g, labels, nodename), g.csilabel) <==> Qualifies(g, labels, nodename))
       <==> (if g.csilabel == map[] then Qualifies(g, labels, nodename)
             else Qualifies(g, labels, nodename) && HasCsiKey(g, labels) ==> Includes(labels, g.csilabel))
  {
    hide Qualifies;
    if g.csilabel != map[] {
      var k :| k in g.csilabel;
      assert Decide(g, labels, nodename).RemoveCsi? ==> k !in Settled(g, labels, nodename);
      if !HasCsiKey(g, labels) {
        assert k !in labels;
      }
    }
  }

  /** With no csi labels configured every node that has a label map counts as labelled. */
  lemma {:induction false} NoCsiLabelsLabelAll(g: Config, nodes: seq<(string, Option<Labels>)>)
    requires g.csilabel == map[] && forall n | n in nodes :: n.1.Some?
    ensures Labelled(g, nodes) == seq(|nodes|, i requires 0 <= i < |nodes| => nodes[i].0)
  {
    if nodes != [] {
      NoCsiLabelsLabelAll(g, nodes[..|nodes| - 1]);
    }
  }

  /**
   A reconciliation that decided on labels the node no longer has still keeps every label outside
   the csi keys, and it settles the node exactly when the decision it took has the same effect on
   the labels that are there now. The next quiet reconciliation settles the node in any case.
   */
  lemma RacedReconcileIff(g: Config, was: Labels, now: Labels, nodename: string)
    ensures var raced := Performed(g, Decide(g, was, nodename), now);
            && (forall k | k !in g.csilabel :: (k in raced <==> k in now) && (k in now ==> raced[k] == now[k]))
            && (raced == Settled(g, now, nodename) <==> SettlesAnyway(g, Decide(g, was, nodename), now, nodename))
  {
    hide Qualifies;
    var raced := Performed(g, Decide(g, was, nodename), now);
    if g.csilabel == map[] {
      assert now + g.csilabel == now && now - g.csilabel.Keys == now;
    } else {
      var k :| k in g.csilabel;
      if HasCsiKey(g, now) {
        var x :| x in now && x in g.csilabel;
        assert x !in now - g.csilabel.Keys && x in now + g.csilabel;
      } else {
        assert k !in now && k in now + g.csilabel && k !in now - g.csilabel.Keys;
        assert now - g.csilabel.Keys == now;
      }
      if Includes(now, g.csilabel) {
        assert now + g.csilabel == now;
      } else {
        var x :| x in g.csilabel && !(x in now && now[x] == g.csilabel[x]);
        assert (now + g.csilabel)[x] == g.csilabel[x];
      }
    }
  }

  /** The update has on these labels the effect of the one they call for. */
  predicate SettlesAnyway(g: Config, update: Update, now: Labels, nodename: string) {
    || g.csilabel == map[]
    || (match Decide(g, now, nodename)
        case NoUpdate =>
          update.NoUpdate? || (if update.RemoveCsi? then !HasCsiKey(g, now) else Includes(now, g.csilabel))
        case RemoveCsi => update.RemoveCsi?
        case AddCsi => update.AddCsi?)
  }

  /** The filter label of one node, alone, never qualifies another, if and only if the filter mentions the name. */
  lemma FilterIsPersonalIff(g: Config)
    ensures (Occurs(g.filterKey, "%N") || Occurs(g.filterValue, "%N")) <==>
            forall a, b | a != b ::
              !Qualifies(g, map[Expand(g.filterKey, a) := Expand(g.filterValue, a)], b)
  {
    ExpandInjectiveIff(g.filterKey);
    ExpandInjectiveIff(g.filterValue);
    if !Occurs(g.filterKey, TEMP_NODE_KEY) && !Occurs(g.filterValue, TEMP_NODE_KEY) {
      forall n ensures Expand(g.filterKey, n) == g.filterKey && Expand(g.filterValue, n) == g.filterValue {
        ReplaceNothing(g.filterKey, TEMP_NODE_KEY, n);
        ReplaceNothing(g.filterValue, TEMP_NODE_KEY, n);
      }
      assert Qualifies(g, map[Expand(g.filterKey, "a") := Expand(g.filterValue, "a")], "b");
    }
  }
}
