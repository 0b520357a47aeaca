/**
  The record path: rows are sealed under a plan and opened again, through an engine that is
  any pair of functions whose decryption inverts its encryption.
 */
module Records {
  import opened Prelude

  type Bytes = seq<Byte>

  datatype Value = Text(s: string) | Other(n: int)

  /** A field of the plan: an EQL target, or outputs with or without a ciphertext. */
  datatype Field = Field(name: string, target: bool, sealed: bool)
  {
    predicate HasCiphertext() { target || sealed }
  }

  datatype Plan = Plan(contextField: string, fields: seq<Field>)

  type Row = map<string, Value>

  datatype Entry = Entry(key: string, value: Value)

  predicate HasContext(p: Plan) { p.contextField != [] }

  function FieldNames(fields: seq<Field>): (r: set<string>) {
    set i | 0 <= i < |fields| :: fields[i].name
  }

  function Names(p: Plan): (r: set<string>) {
    FieldNames(p.fields) + if HasContext(p) then {p.contextField} else {}
  }

  /** What validation grants: a plan names each field once, and none with the context's name. */
  ghost predicate IsPlan(p: Plan) {
    && (forall i, j :: 0 <= i < j < |p.fields| ==> p.fields[i].name != p.fields[j].name)
    && p.contextField !in FieldNames(p.fields)
  }

  // ----- a row for the engine -----

  /** The names a row may have: with no context field, its empty name passes for one. */
  function KnownNames(p: Plan): (r: set<string>) { FieldNames(p.fields) + {p.contextField} }

  predicate IsRow(p: Plan, row: Row) {
    Names(p) <= row.Keys <= KnownNames(p) && (HasContext(p) ==> row[p.contextField].Text?)
  }

  /** The part of a row that its plan names, which is all that is sent. */
  function Named(p: Plan, row: Row): (r: Row) { map n | n in row && n in Names(p) :: row[n] }

  /** A row has exactly the plan's names, unless the plan has no context field and the row a value under the empty name. */
  lemma RowsBesideTheNames(p: Plan, row: Row)
    ensures IsRow(p, row) <==>
            && (row.Keys == Names(p) || (p.contextField == [] && row.Keys == Names(p) + {[]}))
            && (p.contextField != [] ==> p.contextField in row && row[p.contextField].Text?)
    ensures IsRow(p, row) ==> (row == Named(p, row) <==> row.Keys == Names(p))
  {
    if IsRow(p, row) {
      assert row.Keys == Names(p) || row.Keys == Names(p) + {p.contextField};
      assert Named(p, row).Keys <= Names(p);
    }
  }

  /** Such a row is taken, and its value under the empty name is dropped. */
  lemma EmptyNameIsTaken(v: Value, w: Value)
    ensures var p, row := Plan([], [Field("a", false, true)]), map["a" := v, [] := w];
            && IsPlan(p) && IsRow(p, row) && row.Keys != Names(p) && Rendered(p, row) == [Entry("a", v)]
  {
    var p, row := Plan([], [Field("a", false, true)]), map["a" := v, [] := w];
    assert FieldNames(p.fields) == {"a"} by { assert p.fields[0].name == "a"; }
    assert [] !in Names(p) && [] in row;
  }

  function Entries(fields: seq<Field>, row: Row): (r: seq<Entry>)
    requires FieldNames(fields) <= row.Keys
  {
    seq(|fields|, i requires 0 <= i < |fields| => assert fields[i].name in FieldNames(fields); Entry(fields[i].name, row[fields[i].name]))
  }

  /** The context first, then the fields, in plan order. */
  function Rendered(p: Plan, row: Row): (r: seq<Entry>)
    requires IsRow(p, row)
  {
    (if HasContext(p) then [Entry(p.contextField, row[p.contextField])] else []) + Entries(p.fields, row)
  }

  lemma {:induction false} NamesCount(fields: seq<Field>)
    requires forall i, j :: 0 <= i < j < |fields| ==> fields[i].name != fields[j].name
    ensures |FieldNames(fields)| == |fields|
  {
    if fields == [] {
      assert FieldNames(fields) == {};
    } else {
      var rest, last := fields[..|fields| - 1], fields[|fields| - 1];
      NamesCount(rest);
      assert FieldNames(fields) == FieldNames(rest) + {last.name} by {
        assert forall i :: 0 <= i < |rest| ==> fields[i] == rest[i];
      }
      assert last.name !in FieldNames(rest);
    }
  }

  lemma PlanNamesCount(p: Plan)
    requires IsPlan(p)
    ensures |Names(p)| == |p.fields| + if HasContext(p) then 1 else 0
  {
    NamesCount(p.fields);
  }

  lemma AllThere(a: set<string>, b: set<string>)
    requires a <= b && |a| == |b|
    ensures a == b
  {
    assert |b| == |a| + |b - a|;
  }

  /** The loop over the plan's fields. */
  method FieldEntries(fields: seq<Field>, row: Row) returns (r: Option<seq<Entry>>)
    ensures r.Some? <==> FieldNames(fields) <= row.Keys
    ensures r.Some? ==> r.value == Entries(fields, row)
  {
    var out := [];
    for i := 0 to |fields|
      invariant |out| == i && forall j :: 0 <= j < i ==> fields[j].name in row
      invariant forall j :: 0 <= j < i ==> out[j] == Entry(fields[j].name, row[fields[j].name])
    {
      if fields[i].name !in row {
        assert fields[i].name in FieldNames(fields);
        return None;
      }
      out := out + [Entry(fields[i].name, row[fields[i].name])];
    }
    return Some(out);
  }

  /** A row is taken exactly when it has every name of the plan and no unknown one, and a string for its context. */
  method SourceRow(p: Plan, row: Row) returns (r: Option<seq<Entry>>)
    requires IsPlan(p)
    ensures r.Some? <==> IsRow(p, row)
    ensures r.Some? ==> r.value == Rendered(p, row)
  {
    var expected := |p.fields| + if HasContext(p) then 1 else 0;
    PlanNamesCount(p);
    if |row.Keys| != expected && !(row.Keys <= KnownNames(p)) {
      return None;
    }
    var out := [];
    if HasContext(p) {
      if p.contextField !in row || !row[p.contextField].Text? {
        return None;
      }
      out := [Entry(p.contextField, row[p.contextField])];
    }
    var rest := FieldEntries(p.fields, row);
    if rest.None? {
      return None;
    }
    if |row.Keys| == expected { AllThere(Names(p), row.Keys); }
    return Some(out + rest.value);
  }

  // ----- what the engine returns, and what is stored -----

  datatype OutKey = CiphertextKey | EqlKey | PassthroughKey | TermKey(term: string)

  datatype Out = Leaf(bytes: Bytes) | PlainBytes(bytes: Bytes) | PlainText(s: string) | Unreadable

  /** One field's outputs as they cross. */
  type Node = map<OutKey, Out>

  /** One record as it crosses; `None` where a field is no node. */
  datatype Decoded = Record(fields: map<string, Option<Node>>) | NotARecord

  datatype Outputs = Outputs(ciphertext: Option<Bytes>, terms: map<OutKey, Bytes>, eql: Option<Bytes>, context: string)

  type Stored = map<string, Outputs>

  predicate Fits(k: OutKey, o: Out) { if k.CiphertextKey? then o.Leaf? else o.PlainBytes? }

  /** A field's outputs lift when each has its form: a leaf for the ciphertext, bytes for the rest. */
  function LiftField(node: Node): (r: Option<Outputs>) {
    if exists k | k in node :: !Fits(k, node[k]) then None
    else Some(Outputs(
      if CiphertextKey in node then Some(node[CiphertextKey].bytes) else None,
      map k | k in node && !k.CiphertextKey? && !k.EqlKey? :: node[k].bytes,
      if EqlKey in node then Some(node[EqlKey].bytes) else None,
      []))
  }

  /** A lifted field has the node's ciphertext, its EQL value, and every other output as a term under its own key. */
  lemma LiftedFieldHolds(node: Node)
    ensures LiftField(node).Some? <==> forall k :: k in node ==> if k == CiphertextKey then node[k].Leaf? else node[k].PlainBytes?
    ensures LiftField(node).Some? ==>
              var o := LiftField(node).value;
              && (forall k :: k in o.terms <==> k in node && k != CiphertextKey && k != EqlKey)
              && (forall k :: k in o.terms ==> node[k] == PlainBytes(o.terms[k]))
              && (o.ciphertext.Some? <==> CiphertextKey in node) && (o.eql.Some? <==> EqlKey in node)
              && (o.ciphertext.Some? ==> node[CiphertextKey] == Leaf(o.ciphertext.value))
              && (o.eql.Some? ==> node[EqlKey] == PlainBytes(o.eql.value))
  {
  }

  /** The outputs of a field as they crossed. */
  function NodeOf(o: Outputs): (node: Node) {
    (map k | k in o.terms :: PlainBytes(o.terms[k]))
    + (if o.ciphertext.Some? then map[CiphertextKey := Leaf(o.ciphertext.value)] else map[])
    + (if o.eql.Some? then map[EqlKey := PlainBytes(o.eql.value)] else map[])
  }

  /** Lifting loses nothing: the node can be rebuilt from what is stored. */
  lemma LiftLosesNothing(node: Node)
    requires LiftField(node).Some?
    ensures NodeOf(LiftField(node).value) == node
  {
    LiftedFieldHolds(node);
    var back := NodeOf(LiftField(node).value);
    assert forall k :: k in back <==> k in node;
  }

  function LiftContext(node: Node): (r: Option<Outputs>) {
    if |node| == 1 && PassthroughKey in node && node[PassthroughKey].PlainText?
    then Some(Outputs(None, map[], None, node[PassthroughKey].s)) else None
  }

  function Lift(p: Plan, name: string, node: Option<Node>): (r: Option<Outputs>) {
    if node.None? then None
    else if name == p.contextField then LiftContext(node.value)
    else LiftField(node.value)
  }

  predicate IsLiftable(p: Plan, d: Decoded) {
    && d.Record?
    && Names(p) <= d.fields.Keys <= KnownNames(p)
    && forall n | n in d.fields :: Lift(p, n, d.fields[n]).Some?
  }

  function Lifted(p: Plan, d: Decoded): (r: Stored)
    requires IsLiftable(p, d)
  {
    map n | n in d.fields :: Lift(p, n, d.fields[n]).value
  }

  /** A record is refused that lacks a field of the plan, has one the plan does not name, or one that is not readable. */
  lemma LiftableExactly(p: Plan, fields: map<string, Option<Node>>)
    ensures IsLiftable(p, Record(fields)) <==>
            && (forall i :: 0 <= i < |p.fields| ==> p.fields[i].name in fields)
            && (p.contextField != [] ==> p.contextField in fields)
            && (forall n :: n in fields ==> n == p.contextField || exists i :: 0 <= i < |p.fields| && p.fields[i].name == n)
            && (forall n :: n in fields ==> fields[n].Some? && HasForm(n == p.contextField, fields[n].value))
  {
    forall n | n in fields && fields[n].Some? ensures Lift(p, n, fields[n]).Some? <==> HasForm(n == p.contextField, fields[n].value) {
      LiftedFieldHolds(fields[n].value);
    }
    NamesByIndex(p);
  }

  lemma NamesByIndex(p: Plan)
    ensures forall n :: n in Names(p) <==>
              (exists i :: 0 <= i < |p.fields| && p.fields[i].name == n) || (p.contextField != [] && n == p.contextField)
    ensures forall n :: n in KnownNames(p) <==> (exists i :: 0 <= i < |p.fields| && p.fields[i].name == n) || n == p.contextField
  {
  }

  /** A context's one output is its label, passed through; a field's are a leaf for the ciphertext and bytes for the rest. */
  predicate HasForm(isContext: bool, node: Node) {
    if isContext then |node| == 1 && PassthroughKey in node && node[PassthroughKey].PlainText?
    else forall k :: k in node ==> if k == CiphertextKey then node[k].Leaf? else node[k].PlainBytes?
  }

  /** The loop over one field's outputs. */
  method LiftOutputs(node: Node) returns (r: Option<Outputs>)
    ensures r == LiftField(node)
  {
    var o := Outputs(None, map[], None, []);
    var left := node.Keys;
    while left != {}
      invariant left <= node.Keys
      invariant forall k :: k in node.Keys - left ==> Fits(k, node[k])
      invariant o.context == []
      invariant o.ciphertext == if CiphertextKey in node.Keys - left then Some(node[CiphertextKey].bytes) else None
      invariant o.eql == if EqlKey in node.Keys - left then Some(node[EqlKey].bytes) else None
      invariant o.terms == map k | k in node.Keys - left && !k.CiphertextKey? && !k.EqlKey? :: node[k].bytes
      decreases |left|
    {
      var k :| k in left;
      if !Fits(k, node[k]) {
        return None;
      }
      left := left - {k};
      o := match k
        case CiphertextKey => o.(ciphertext := Some(node[k].bytes))
        case EqlKey => o.(eql := Some(node[k].bytes))
        case _ => o.(terms := o.terms[k := node[k].bytes]);
    }
    assert node.Keys - left == node.Keys;
    assert o.terms == LiftField(node).value.terms;
    return Some(o);
  }

  type Lifter = (string, Option<Node>) -> Option<Outputs>

  /** The loop over the fields that came back: a name not known is refused, as is a node that does not lift. */
  method LiftFields(known: set<string>, lift: Lifter, fields: map<string, Option<Node>>) returns (r: Option<Stored>)
    ensures r.Some? <==> fields.Keys <= known && forall n :: n in fields ==> lift(n, fields[n]).Some?
    ensures r.Some? ==> r.value.Keys == fields.Keys && forall n :: n in fields ==> lift(n, fields[n]) == Some(r.value[n])
  {
    var stored: Stored := map[];
    var left := fields.Keys;
    while left != {}
      invariant left <= fields.Keys && stored.Keys == fields.Keys - left && stored.Keys <= known
      invariant forall n :: n in stored ==> lift(n, fields[n]) == Some(stored[n])
      decreases |left|
    {
      var n :| n in left;
      if n !in known {
        return None;
      }
      var one := lift(n, fields[n]);
      if one.None? {
        return None;
      }
      left := left - {n};
      stored := stored[n := one.value];
    }
    assert fields.Keys - left == fields.Keys;
    return Some(stored);
  }

  /** One record lifted, and the check that no field is missing. */
  method SealedOf(p: Plan, d: Decoded) returns (r: Option<Stored>)
    ensures r == if IsLiftable(p, d) then Some(Lifted(p, d)) else None
  {
    if d.NotARecord? {
      return None;
    }
    var stored := LiftFields(KnownNames(p), (n, node) => Lift(p, n, node), d.fields);
    if stored.None? || !(Names(p) <= stored.value.Keys) {
      return None;
    }
    assert stored.value == Lifted(p, d);
    return stored;
  }

  // ----- what is opened -----

  function OpenedFields(p: Plan): (r: set<string>) {
    set i | 0 <= i < |p.fields| && p.fields[i].HasCiphertext() :: p.fields[i].name
  }

  function Targets(p: Plan): (r: set<string>) {
    set i | 0 <= i < |p.fields| && p.fields[i].target :: p.fields[i].name
  }

  /** The names a record opens to: the fields with a ciphertext, and the context. */
  function OpenedNames(p: Plan): (r: set<string>) {
    OpenedFields(p) + if HasContext(p) then {p.contextField} else {}
  }

  /** A record opens to its EQL values, its fields with a ciphertext, and its context; an index alone opens to nothing. */
  lemma OpenedExactly(p: Plan, n: string)
    ensures n in OpenedNames(p) <==>
            || (exists i :: 0 <= i < |p.fields| && p.fields[i].name == n && (p.fields[i].target || p.fields[i].sealed))
            || (p.contextField != [] && n == p.contextField)
  {
  }

  predicate CanOpen(p: Plan, rec: Stored) {
    && (HasContext(p) ==> p.contextField in rec && rec[p.contextField].context != [])
    && forall n | n in OpenedFields(p) :: n in rec && if n in Targets(p) then rec[n].eql.Some? else rec[n].ciphertext.Some?
  }

  function OpenedNode(p: Plan, rec: Stored, n: string): (r: Node)
    requires CanOpen(p, rec) && n in OpenedNames(p)
  {
    if HasContext(p) && n == p.contextField then map[PassthroughKey := PlainText(rec[n].context)]
    else if n in Targets(p) then map[EqlKey := PlainBytes(rec[n].eql.value)]
    else map[CiphertextKey := Leaf(rec[n].ciphertext.value)]
  }

  function TreeOf(p: Plan, rec: Stored): (r: map<string, Node>)
    requires CanOpen(p, rec)
  {
    map n | n in OpenedNames(p) :: OpenedNode(p, rec, n)
  }

  lemma OpenedIsField(p: Plan, i: nat)
    requires IsPlan(p) && i < |p.fields|
    ensures p.fields[i].name in Targets(p) <==> p.fields[i].target
    ensures p.fields[i].name in OpenedFields(p) <==> p.fields[i].HasCiphertext()
    ensures p.fields[i].name != p.contextField
  {
    assert p.fields[i].name in FieldNames(p.fields);
  }

  /** The field can be laid out: it has no ciphertext, or its stored one is there. */
  predicate IsThere(f: Field, rec: Stored) {
    f.HasCiphertext() ==> f.name in rec && if f.target then rec[f.name].eql.Some? else rec[f.name].ciphertext.Some?
  }

  lemma CanOpenByField(p: Plan, rec: Stored)
    requires IsPlan(p)
    ensures CanOpen(p, rec) <==>
            && (HasContext(p) ==> p.contextField in rec && rec[p.contextField].context != [])
            && forall i :: 0 <= i < |p.fields| ==> IsThere(p.fields[i], rec)
  {
    forall i | 0 <= i < |p.fields|
      ensures p.fields[i].name in Targets(p) <==> p.fields[i].target
      ensures p.fields[i].name in OpenedFields(p) <==> p.fields[i].HasCiphertext()
    {
      OpenedIsField(p, i);
    }
  }

  /** What is laid out of the fields read so far. */
  ghost predicate IsLaidOut(p: Plan, rec: Stored, tree: map<string, Node>, i: nat)
    requires i <= |p.fields| && CanOpen(p, rec)
  {
    && (forall n :: n in tree ==> n in OpenedNames(p) && tree[n] == OpenedNode(p, rec, n))
    && (HasContext(p) ==> p.contextField in tree)
    && forall j :: 0 <= j < i && p.fields[j].HasCiphertext() ==> p.fields[j].name in tree
  }

  lemma AllLaidOut(p: Plan, rec: Stored, tree: map<string, Node>)
    requires CanOpen(p, rec) && IsLaidOut(p, rec, tree, |p.fields|)
    ensures tree == TreeOf(p, rec)
  {
  }

  /** The loop that lays one stored record out for the engine. */
  method OpenTree(p: Plan, rec: Stored) returns (r: Option<map<string, Node>>)
    requires IsPlan(p)
    ensures r == if CanOpen(p, rec) then Some(TreeOf(p, rec)) else None
  {
    var tree: map<string, Node> := map[];
    CanOpenByField(p, rec);
    if HasContext(p) {
      if p.contextField !in rec || rec[p.contextField].context == [] {
        return None;
      }
      tree := tree[p.contextField := map[PassthroughKey := PlainText(rec[p.contextField].context)]];
    }
    for i := 0 to |p.fields|
      invariant CanOpen(p, rec) ==> IsLaidOut(p, rec, tree, i)
      invariant forall j :: 0 <= j < i ==> IsThere(p.fields[j], rec)
    {
      var f := p.fields[i];
      OpenedIsField(p, i);
      if f.HasCiphertext() {
        if !IsThere(f, rec) {
          return None;
        }
        tree := tree[f.name := if f.target then map[EqlKey := PlainBytes(rec[f.name].eql.value)]
                               else map[CiphertextKey := Leaf(rec[f.name].ciphertext.value)]];
      }
    }
    AllLaidOut(p, rec, tree);
    return Some(tree);
  }
}
