/** Sealing rows and opening them again, over any engine that decrypts what it encrypts. */
module RecordRoundTrip {
  import opened Prelude
  import opened Records

  /** An object read into a map; a later entry replaces an earlier one. */
  function AsRow(entries: seq<Entry>): (r: Row) {
    if entries == [] then map[]
    else var last := entries[|entries| - 1]; AsRow(entries[..|entries| - 1])[last.key := last.value]
  }

  type Encrypter = seq<seq<Entry>> -> Option<seq<Decoded>>

  /** Decryption also takes the context the cipher names, or none. */
  type Decrypter = (string, seq<map<string, Node>>) -> Option<seq<seq<Entry>>>

  // ----- sealing -----

  predicate ContextAgrees(p: Plan, context: string, row: Row)
    requires IsRow(p, row) && (context != [] ==> HasContext(p))
  {
    context == [] || row[p.contextField] == Text(context)
  }

  ghost predicate IsSealable(p: Plan, context: string, rows: seq<Row>) {
    && (context != [] ==> HasContext(p))
    && forall i :: 0 <= i < |rows| ==> IsRow(p, rows[i]) && ContextAgrees(p, context, rows[i])
  }

  ghost function Objects(p: Plan, rows: seq<Row>): (r: seq<seq<Entry>>)
    requires forall i :: 0 <= i < |rows| ==> IsRow(p, rows[i])
    ensures |r| == |rows| && forall i :: 0 <= i < |rows| ==> r[i] == Rendered(p, rows[i])
  {
    seq(|rows|, i requires 0 <= i < |rows| => Rendered(p, rows[i]))
  }

  /** The rows sealed as these records. */
  ghost predicate Seals(p: Plan, context: string, rows: seq<Row>, enc: Encrypter, records: seq<Stored>) {
    && IsSealable(p, context, rows)
    && var nodes := enc(Objects(p, rows));
       nodes.Some? && |nodes.value| == |rows| == |records|
       && forall i :: 0 <= i < |rows| ==> IsLiftable(p, nodes.value[i]) && records[i] == Lifted(p, nodes.value[i])
  }

  method Seal(p: Plan, context: string, rows: seq<Row>, enc: Encrypter) returns (r: Option<seq<Stored>>)
    requires IsPlan(p)
    ensures r.Some? ==> Seals(p, context, rows, enc, r.value)
    ensures r.None? ==> forall records :: !Seals(p, context, rows, enc, records)
  {
    if context != [] && !HasContext(p) {
      return None;
    }
    var objects := RenderAll(p, context, rows);
    if objects.None? {
      return None;
    }
    var nodes := enc(objects.value);
    if nodes.None? || |nodes.value| != |rows| {
      return None;
    }
    r := LiftAll(p, nodes.value);
  }

  /** The loop over the rows before anything is sent. */
  method RenderAll(p: Plan, context: string, rows: seq<Row>) returns (r: Option<seq<seq<Entry>>>)
    requires IsPlan(p) && (context != [] ==> HasContext(p))
    ensures r.Some? <==> IsSealable(p, context, rows)
    ensures r.Some? ==> r.value == Objects(p, rows)
  {
    var objects := [];
    for i := 0 to |rows|
      invariant |objects| == i && IsSealable(p, context, rows[..i])
      invariant objects == Objects(p, rows[..i])
    {
      var one := SourceRow(p, rows[i]);
      assert rows[..i + 1] == rows[..i] + [rows[i]];
      if one.None? || !ContextAgrees(p, context, rows[i]) {
        return None;
      }
      objects := objects + [one.value];
    }
    assert rows[..|rows|] == rows;
    return Some(objects);
  }

  /** The loop over the records that came back. */
  method LiftAll(p: Plan, nodes: seq<Decoded>) returns (r: Option<seq<Stored>>)
    ensures r.Some? <==> forall i :: 0 <= i < |nodes| ==> IsLiftable(p, nodes[i])
    ensures r.Some? ==> |r.value| == |nodes| && forall i :: 0 <= i < |nodes| ==> r.value[i] == Lifted(p, nodes[i])
  {
    var records := [];
    for i := 0 to |nodes|
      invariant |records| == i
      invariant forall j :: 0 <= j < i ==> IsLiftable(p, nodes[j]) && records[j] == Lifted(p, nodes[j])
    {
      var one := SealedOf(p, nodes[i]);
      if one.None? {
        return None;
      }
      records := records + [one.value];
    }
    return Some(records);
  }

  // ----- opening -----

  ghost function Trees(p: Plan, records: seq<Stored>): (r: seq<map<string, Node>>)
    requires forall i :: 0 <= i < |records| ==> CanOpen(p, records[i])
    ensures |r| == |records| && forall i :: 0 <= i < |records| ==> r[i] == TreeOf(p, records[i])
  {
    seq(|records|, i requires 0 <= i < |records| => TreeOf(p, records[i]))
  }

  /** The records open as these rows. */
  ghost predicate Opens(p: Plan, context: string, records: seq<Stored>, dec: Decrypter, rows: seq<Row>) {
    && (context != [] ==> HasContext(p))
    && (forall i :: 0 <= i < |records| ==> CanOpen(p, records[i]))
    && var objects := dec(context, Trees(p, records));
       objects.Some? && |objects.value| == |records| == |rows|
       && forall i :: 0 <= i < |rows| ==> rows[i] == AsRow(objects.value[i]) && OpenedFields(p) <= rows[i].Keys
  }

  method Open(p: Plan, context: string, records: seq<Stored>, dec: Decrypter) returns (r: Option<seq<Row>>)
    requires IsPlan(p)
    ensures r.Some? ==> Opens(p, context, records, dec, r.value)
    ensures r.None? ==> forall rows :: !Opens(p, context, records, dec, rows)
  {
    if context != [] && !HasContext(p) {
      return None;
    }
    var trees := LayOutAll(p, records);
    if trees.None? {
      return None;
    }
    var objects := dec(context, trees.value);
    if objects.None? || |objects.value| != |records| {
      return None;
    }
    r := ReadAll(p, objects.value);
  }

  method LayOutAll(p: Plan, records: seq<Stored>) returns (r: Option<seq<map<string, Node>>>)
    requires IsPlan(p)
    ensures r.Some? <==> forall i :: 0 <= i < |records| ==> CanOpen(p, records[i])
    ensures r.Some? ==> r.value == Trees(p, records)
  {
    var trees := [];
    for i := 0 to |records|
      invariant |trees| == i
      invariant forall j :: 0 <= j < i ==> CanOpen(p, records[j]) && trees[j] == TreeOf(p, records[j])
    {
      var one := OpenTree(p, records[i]);
      if one.None? {
        return None;
      }
      trees := trees + [one.value];
    }
    return Some(trees);
  }

  method ReadAll(p: Plan, objects: seq<seq<Entry>>) returns (r: Option<seq<Row>>)
    ensures r.Some? <==> forall i :: 0 <= i < |objects| ==> OpenedFields(p) <= AsRow(objects[i]).Keys
    ensures r.Some? ==> |r.value| == |objects| && forall i :: 0 <= i < |objects| ==> r.value[i] == AsRow(objects[i])
  {
    var rows := [];
    for i := 0 to |objects|
      invariant |rows| == i
      invariant forall j :: 0 <= j < i ==> rows[j] == AsRow(objects[j]) && OpenedFields(p) <= rows[j].Keys
    {
      var row := ReadObject(objects[i]);
      if !(OpenedFields(p) <= row.Keys) {
        return None;
      }
      rows := rows + [row];
    }
    return Some(rows);
  }

  method ReadObject(entries: seq<Entry>) returns (row: Row)
    ensures row == AsRow(entries)
  {
    row := map[];
    for i := 0 to |entries|
      invariant row == AsRow(entries[..i])
    {
      assert entries[..i + 1][..i] == entries[..i];
      row := row[entries[i].key := entries[i].value];
    }
    assert entries[..|entries|] == entries;
  }

  /** A cipher that names a context serves only plans with a context field. */
  lemma NamedContextNeedsAField(p: Plan, context: string, rows: seq<Row>, enc: Encrypter, dec: Decrypter, records: seq<Stored>)
    requires context != [] && p.contextField == []
    ensures !Seals(p, context, rows, enc, records) && !Opens(p, context, records, dec, rows)
  {
  }

  // ----- the engine, and the round trip -----

  /** What an encryption returns for one row: every name of the plan, each with its outputs in form. */
  ghost predicate IsOutput(p: Plan, row: Row, d: Decoded) {
    && d.Record? && d.fields.Keys == Names(p)
    && (HasContext(p) ==> IsContextOutput(p.contextField, row, d))
    && forall i :: 0 <= i < |p.fields| ==> IsFieldOutput(p.fields[i], d)
  }

  ghost predicate IsContextOutput(name: string, row: Row, d: Decoded)
    requires d.Record?
  {
    && name in row && row[name].Text? && name in d.fields
    && d.fields[name] == Some(map[PassthroughKey := PlainText(row[name].s)])
  }

  ghost predicate IsFieldOutput(f: Field, d: Decoded)
    requires d.Record?
  {
    && f.name in d.fields && d.fields[f.name].Some?
    && (forall k :: k in d.fields[f.name].value ==> Fits(k, d.fields[f.name].value[k]))
    && (f.target ==> EqlKey in d.fields[f.name].value)
    && (f.sealed && !f.target ==> CiphertextKey in d.fields[f.name].value)
  }

  /** The part of an output that decryption reads: the context, and one node for each ciphertext. */
  ghost predicate IsOpenedPart(p: Plan, d: Decoded, tree: map<string, Node>)
    requires d.Record?
  {
    && tree.Keys == OpenedNames(p)
    && forall n :: n in tree ==> n in d.fields && d.fields[n].Some? && tree[n] == OnlyNode(p, n, d.fields[n].value)
  }

  ghost function OnlyNode(p: Plan, n: string, node: Node): (r: Node) {
    var key := if HasContext(p) && n == p.contextField then PassthroughKey else if n in Targets(p) then EqlKey else CiphertextKey;
    map k | k in node && k == key :: node[k]
  }

  function Kept(p: Plan, row: Row): (r: Row) { map n | n in row && n in OpenedNames(p) :: row[n] }

  /** The row stands under the context named, if one is. */
  ghost predicate Under(p: Plan, context: string, row: Row) {
    context == [] || (p.contextField in row && row[p.contextField] == Text(context))
  }

  ghost predicate Decrypts(p: Plan, objects: seq<seq<Entry>>, nodes: seq<Decoded>, dec: Decrypter)
    requires |nodes| == |objects| && forall i :: 0 <= i < |nodes| ==> nodes[i].Record?
  {
    forall context, trees :: IsReadable(p, context, objects, nodes, trees) ==>
      && var back := dec(context, trees);
         back.Some? && |back.value| == |objects|
         && forall i :: 0 <= i < |objects| ==> AsRow(back.value[i]) == Kept(p, AsRow(objects[i]))
  }

  ghost predicate IsReadable(p: Plan, context: string, objects: seq<seq<Entry>>, nodes: seq<Decoded>, trees: seq<map<string, Node>>)
    requires |nodes| == |objects| && forall i :: 0 <= i < |nodes| ==> nodes[i].Record?
  {
    && |trees| == |objects|
    && forall i :: 0 <= i < |objects| ==> IsOpenedPart(p, nodes[i], trees[i]) && Under(p, context, AsRow(objects[i]))
  }

  /** An engine whose record decryption inverts its encryption. */
  ghost predicate IsEngine(p: Plan, enc: Encrypter, dec: Decrypter) {
    forall objects :: enc(objects).Some? ==>
      && var nodes := enc(objects).value;
         |nodes| == |objects|
         && (forall i :: 0 <= i < |objects| ==> IsOutput(p, AsRow(objects[i]), nodes[i]))
         && Decrypts(p, objects, nodes, dec)
  }

  lemma {:induction false} EntriesRead(entries: seq<Entry>, k: string)
    requires forall i, j :: 0 <= i < j < |entries| ==> entries[i].key != entries[j].key
    ensures k in AsRow(entries) <==> exists i :: 0 <= i < |entries| && entries[i].key == k
    ensures forall i :: 0 <= i < |entries| && entries[i].key == k ==> k in AsRow(entries) && AsRow(entries)[k] == entries[i].value
  {
    if entries != [] {
      var rest := entries[..|entries| - 1];
      EntriesRead(rest, k);
      assert forall i :: 0 <= i < |rest| ==> entries[i] == rest[i];
    }
  }

  lemma RenderedAt(p: Plan, row: Row)
    requires IsPlan(p) && IsRow(p, row)
    ensures var es, c := Rendered(p, row), if HasContext(p) then 1 else 0;
            && |es| == c + |p.fields|
            && (c == 1 ==> es[0] == Entry(p.contextField, row[p.contextField]))
            && forall i :: c <= i < |es| ==> p.fields[i - c].name in row && es[i] == Entry(p.fields[i - c].name, row[p.fields[i - c].name])
  {
    assert forall i :: 0 <= i < |p.fields| ==> p.fields[i].name in FieldNames(p.fields);
  }

  lemma RenderedOnce(p: Plan, row: Row)
    requires IsPlan(p) && IsRow(p, row)
    ensures var es := Rendered(p, row);
            && (forall i, j :: 0 <= i < j < |es| ==> es[i].key != es[j].key)
            && (forall i :: 0 <= i < |es| ==> es[i].key in Names(p) && es[i].value == row[es[i].key])
  {
    RenderedAt(p, row);
    assert forall i :: 0 <= i < |p.fields| ==> p.fields[i].name in FieldNames(p.fields);
  }

  lemma RenderedAll(p: Plan, row: Row, k: string)
    requires IsPlan(p) && IsRow(p, row) && k in Names(p)
    ensures exists i :: 0 <= i < |Rendered(p, row)| && Rendered(p, row)[i].key == k
  {
    RenderedAt(p, row);
    var es, c := Rendered(p, row), if HasContext(p) then 1 else 0;
    if k in FieldNames(p.fields) {
      var i :| 0 <= i < |p.fields| && p.fields[i].name == k;
      assert es[c + i].key == k;
    } else {
      assert es[0].key == k;
    }
  }

  /** A row rendered for the engine reads back as the part of it that the plan names. */
  lemma RowSurvives(p: Plan, row: Row)
    requires IsPlan(p) && IsRow(p, row)
    ensures AsRow(Rendered(p, row)) == Named(p, row)
  {
    var back := AsRow(Rendered(p, row));
    RenderedOnce(p, row);
    forall k ensures k in back <==> k in Names(p) ensures k in Names(p) ==> k in back && back[k] == row[k] {
      EntriesRead(Rendered(p, row), k);
      if k in Names(p) { RenderedAll(p, row, k); }
    }
  }

  // Lifting what the engine returned and laying it out again is taking the opened part of it.

  lemma OutputsLift(p: Plan, row: Row, d: Decoded)
    requires IsPlan(p) && IsOutput(p, row, d)
    ensures IsLiftable(p, d)
  {
    forall n | n in d.fields ensures Lift(p, n, d.fields[n]).Some? {
      if n in FieldNames(p.fields) {
        var i :| 0 <= i < |p.fields| && p.fields[i].name == n;
        assert IsFieldOutput(p.fields[i], d);
      }
    }
  }

  lemma StoredField(p: Plan, row: Row, d: Decoded, i: nat)
    requires IsPlan(p) && IsOutput(p, row, d) && IsLiftable(p, d) && i < |p.fields|
    ensures p.fields[i].name in Lifted(p, d) && IsThere(p.fields[i], Lifted(p, d))
  {
    var f := p.fields[i];
    assert IsFieldOutput(f, d);
    assert f.name in FieldNames(p.fields);
    assert Lift(p, f.name, d.fields[f.name]) == LiftField(d.fields[f.name].value);
  }

  /** A record just sealed can be opened exactly when its context label, if it has one, is not empty. */
  lemma OpensUnlessBlank(p: Plan, row: Row, d: Decoded)
    requires IsPlan(p) && IsOutput(p, row, d) && IsLiftable(p, d)
    ensures CanOpen(p, Lifted(p, d)) <==> (HasContext(p) ==> row[p.contextField] != Text([]))
  {
    forall i | 0 <= i < |p.fields| ensures IsThere(p.fields[i], Lifted(p, d)) {
      StoredField(p, row, d, i);
    }
    CanOpenByField(p, Lifted(p, d));
  }

  lemma LaidOutNode(p: Plan, row: Row, d: Decoded, n: string)
    requires IsPlan(p) && IsOutput(p, row, d) && IsLiftable(p, d) && CanOpen(p, Lifted(p, d)) && n in OpenedNames(p)
    ensures n in d.fields && d.fields[n].Some? && OpenedNode(p, Lifted(p, d), n) == OnlyNode(p, n, d.fields[n].value)
  {
    if n in OpenedFields(p) {
      var i :| 0 <= i < |p.fields| && p.fields[i].HasCiphertext() && p.fields[i].name == n;
      LaidOutField(p, row, d, i);
    } else {
      assert n == p.contextField && HasContext(p);
      assert Lifted(p, d)[n] == Lift(p, n, d.fields[n]).value;
    }
  }

  lemma LaidOutField(p: Plan, row: Row, d: Decoded, i: nat)
    requires IsPlan(p) && IsOutput(p, row, d) && IsLiftable(p, d) && CanOpen(p, Lifted(p, d))
    requires i < |p.fields| && p.fields[i].HasCiphertext()
    ensures var n := p.fields[i].name;
            && n in OpenedNames(p) && n in d.fields && d.fields[n].Some?
            && OpenedNode(p, Lifted(p, d), n) == OnlyNode(p, n, d.fields[n].value)
  {
    var f := p.fields[i];
    OpenedIsField(p, i);
    assert IsFieldOutput(f, d);
    var node := d.fields[f.name].value;
    assert Lifted(p, d)[f.name] == LiftField(node).value;
    var key := if f.target then EqlKey else CiphertextKey;
    assert key in node && Fits(key, node[key]);
  }

  lemma LaidOut(p: Plan, row: Row, d: Decoded)
    requires IsPlan(p) && IsOutput(p, row, d) && IsLiftable(p, d) && CanOpen(p, Lifted(p, d))
    ensures IsOpenedPart(p, d, TreeOf(p, Lifted(p, d)))
  {
    forall n | n in OpenedNames(p)
      ensures n in d.fields && d.fields[n].Some? && TreeOf(p, Lifted(p, d))[n] == OnlyNode(p, n, d.fields[n].value)
    {
      LaidOutNode(p, row, d, n);
    }
  }

  ghost predicate HasBlankLabel(p: Plan, rows: seq<Row>) {
    exists i :: 0 <= i < |rows| && p.contextField in rows[i] && rows[i][p.contextField] == Text([])
  }

  /** Rows that pass the checks are sealed exactly when the engine encrypts them: all it returns is accepted. */
  lemma SealsIffEncrypted(p: Plan, context: string, rows: seq<Row>, enc: Encrypter, dec: Decrypter)
    requires IsPlan(p) && IsEngine(p, enc, dec) && IsSealable(p, context, rows)
    ensures (exists records :: Seals(p, context, rows, enc, records)) <==> enc(Objects(p, rows)).Some?
  {
    var objects := Objects(p, rows);
    if enc(objects).Some? {
      var nodes := enc(objects).value;
      forall i | 0 <= i < |rows| ensures IsLiftable(p, nodes[i]) {
        OutputsLift(p, AsRow(objects[i]), nodes[i]);
      }
      var records := seq(|rows|, i requires 0 <= i < |rows| => Lifted(p, nodes[i]));
      assert Seals(p, context, rows, enc, records);
    }
  }

  lemma StoredWhole(p: Plan, row: Row, d: Decoded, i: nat)
    requires IsPlan(p) && IsOutput(p, row, d) && IsLiftable(p, d) && i < |p.fields|
    ensures p.fields[i].name in Lifted(p, d) && d.fields[p.fields[i].name] == Some(NodeOf(Lifted(p, d)[p.fields[i].name]))
  {
    var name := p.fields[i].name;
    StoredField(p, row, d, i);
    OpenedIsField(p, i);
    assert IsFieldOutput(p.fields[i], d);
    LiftLosesNothing(d.fields[name].value);
  }

  /**
    A sealed record keeps everything the engine returned for its row: each field's node
    whole, ciphertext, EQL value and every term under the output it came for, and the
    context as the row has it.
   */
  lemma SealedKeepsEverything(p: Plan, context: string, rows: seq<Row>, enc: Encrypter, dec: Decrypter, records: seq<Stored>,
                              i: nat, j: nat)
    requires IsPlan(p) && IsEngine(p, enc, dec) && Seals(p, context, rows, enc, records) && i < |rows| && j < |p.fields|
    ensures var (node, name) := (enc(Objects(p, rows)).value[i], p.fields[j].name);
            && node.Record? && name in node.fields && name in records[i]
            && node.fields[name] == Some(NodeOf(records[i][name]))
            && (forall k :: k in records[i][name].terms <==> k in node.fields[name].value && k != CiphertextKey && k != EqlKey)
    ensures HasContext(p) ==> p.contextField in records[i] && rows[i][p.contextField] == Text(records[i][p.contextField].context)
  {
    var d := enc(Objects(p, rows)).value[i];
    RowSurvives(p, rows[i]);
    assert IsOutput(p, AsRow(Objects(p, rows)[i]), d);
    StoredWhole(p, Named(p, rows[i]), d, j);
    TermsOfNode(d, p.fields[j].name, records[i][p.fields[j].name]);
    if HasContext(p) { assert IsContextOutput(p.contextField, Named(p, rows[i]), d); }
  }

  lemma TermsOfNode(d: Decoded, name: string, o: Outputs)
    requires d.Record? && name in d.fields && d.fields[name] == Some(NodeOf(o)) && LiftField(NodeOf(o)) == Some(o)
    ensures forall k :: k in o.terms <==> k in d.fields[name].value && k != CiphertextKey && k != EqlKey
  {
    LiftedFieldHolds(NodeOf(o));
  }

  lemma SealedCanOpen(p: Plan, context: string, rows: seq<Row>, enc: Encrypter, dec: Decrypter, records: seq<Stored>)
    requires IsPlan(p) && IsEngine(p, enc, dec) && Seals(p, context, rows, enc, records)
    ensures (forall i :: 0 <= i < |records| ==> CanOpen(p, records[i])) <==> !(HasContext(p) && HasBlankLabel(p, rows))
  {
    var nodes := enc(Objects(p, rows)).value;
    forall i | 0 <= i < |rows|
      ensures CanOpen(p, records[i]) <==> (HasContext(p) ==> rows[i][p.contextField] != Text([]))
    {
      RowSurvives(p, rows[i]);
      assert IsOutput(p, AsRow(Objects(p, rows)[i]), nodes[i]);
      OpensUnlessBlank(p, Named(p, rows[i]), nodes[i]);
    }
  }

  lemma SealedIsReadable(p: Plan, context: string, reader: string, rows: seq<Row>, enc: Encrypter, dec: Decrypter, records: seq<Stored>)
    requires IsPlan(p) && IsEngine(p, enc, dec) && Seals(p, context, rows, enc, records)
    requires reader == [] || reader == context
    requires forall i :: 0 <= i < |records| ==> CanOpen(p, records[i])
    ensures IsReadable(p, reader, Objects(p, rows), enc(Objects(p, rows)).value, Trees(p, records))
  {
    var objects := Objects(p, rows);
    var nodes := enc(objects).value;
    forall i | 0 <= i < |rows|
      ensures IsOpenedPart(p, nodes[i], Trees(p, records)[i]) && Under(p, reader, AsRow(objects[i]))
    {
      RowSurvives(p, rows[i]);
      assert IsOutput(p, AsRow(objects[i]), nodes[i]);
      LaidOut(p, Named(p, rows[i]), nodes[i]);
      assert ContextAgrees(p, context, rows[i]);
    }
  }

  lemma KeptIsNamed(p: Plan, row: Row)
    requires IsRow(p, row)
    ensures OpenedFields(p) <= Kept(p, row).Keys && Kept(p, Named(p, row)) == Kept(p, row)
  {
  }

  lemma DecryptedRows(p: Plan, context: string, reader: string, rows: seq<Row>, enc: Encrypter, dec: Decrypter,
                      records: seq<Stored>)
    requires IsPlan(p) && IsEngine(p, enc, dec) && Seals(p, context, rows, enc, records)
    requires reader == [] || reader == context
    requires forall i :: 0 <= i < |records| ==> CanOpen(p, records[i])
    ensures var back := dec(reader, Trees(p, records));
            && back.Some? && |back.value| == |rows|
            && forall i :: 0 <= i < |rows| ==> AsRow(back.value[i]) == Kept(p, rows[i]) && OpenedFields(p) <= Kept(p, rows[i]).Keys
  {
    var objects := Objects(p, rows);
    SealedIsReadable(p, context, reader, rows, enc, dec, records);
    assert Decrypts(p, objects, enc(objects).value, dec);
    forall i | 0 <= i < |rows|
      ensures Kept(p, AsRow(objects[i])) == Kept(p, rows[i]) && OpenedFields(p) <= Kept(p, rows[i]).Keys
    {
      RowSurvives(p, rows[i]);
      KeptIsNamed(p, rows[i]);
    }
  }

  /**
    What is sealed opens again: row by row, in order, each restricted to its fields with a
    ciphertext and its context. It opens under the sealing cipher or with no context named,
    and it fails exactly when some row's context label is the empty string.
   */
  lemma SealedRowsOpen(p: Plan, context: string, reader: string, rows: seq<Row>, enc: Encrypter, dec: Decrypter,
                       records: seq<Stored>)
    requires IsPlan(p) && IsEngine(p, enc, dec) && Seals(p, context, rows, enc, records)
    requires reader == [] || reader == context
    ensures (exists result :: Opens(p, reader, records, dec, result)) <==> !(HasContext(p) && HasBlankLabel(p, rows))
    ensures forall result :: Opens(p, reader, records, dec, result) ==>
      |result| == |rows| && forall i :: 0 <= i < |rows| ==> result[i] == Kept(p, rows[i])
  {
    SealedCanOpen(p, context, rows, enc, dec, records);
    if forall i :: 0 <= i < |records| ==> CanOpen(p, records[i]) {
      DecryptedRows(p, context, reader, rows, enc, dec, records);
      var result := seq(|rows|, i requires 0 <= i < |rows| => Kept(p, rows[i]));
      assert Opens(p, reader, records, dec, result);
    }
  }
}
