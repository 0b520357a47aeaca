/**
  Declarations and the models bound to them. A declaration's fields have outputs: a
  stored value, an EQL value, a ciphertext, index terms. A model has one field for each
  output, and the generator emits the two conversions between them.
 */
module ModelBinding {
  import opened Prelude
  import opened TagText
  import opened IndexGrammar
  import opened TagGrammar

  // ----- the declaration -----

  /** One output of a field: its Go name, its index if it is a term, its type. */
  datatype Output = Output(name: string, index: Option<IndexName>, kind: string)

  datatype GenField = GenField(name: string, goName: string, verb: Verb, outputs: seq<Output>)
  {
    /** The field's output is one member of the encrypted struct, not a struct of its own. */
    predicate IsOneValue() { verb.Passthrough? || verb.ContextField? || verb.EncryptInto? }
  }

  function OutputsOf(verb: Verb, indexes: seq<Index>, kind: string): (r: seq<Output>) {
    match verb
    case Passthrough => [Output("Value", None, kind)]
    case ContextField => [Output("Value", None, kind)]
    case EncryptInto => [Output("EQL", None, kind)]
    case IndexOnly => TermOutputs(indexes)
    case _ => [Output("Ciphertext", None, "Ciphertext")] + TermOutputs(indexes)
  }

  function TermOutputs(indexes: seq<Index>): (r: seq<Output>)
    ensures |r| == |indexes| && forall i :: 0 <= i < |r| ==> r[i] == TermOutput(indexes[i].name)
  {
    seq(|indexes|, i requires 0 <= i < |indexes| => TermOutput(indexes[i].name))
  }

  /** Which outputs a field has, verb by verb, with the type and the place of each in the encrypted value. */
  lemma OutputsByVerb(verb: Verb, indexes: seq<Index>, kind: string)
    ensures var outs := OutputsOf(verb, indexes, kind);
            && (verb.Passthrough? || verb.ContextField? ==> outs == [Output("Value", None, kind)])
            && (verb.EncryptInto? ==> outs == [Output("EQL", None, kind)])
            && (verb.Encrypt? || verb.EncryptIndex? ==>
                  |outs| == |indexes| + 1 && outs[0] == Output("Ciphertext", None, "Ciphertext") && outs[1..] == TermOutputs(indexes))
            && (verb.IndexOnly? ==> outs == TermOutputs(indexes) && forall o :: o in outs ==> o.name != "Ciphertext")
            && (verb.Encrypt? || verb.EncryptIndex? || verb.IndexOnly? ==>
                  forall n :: (exists o :: o in outs && o.index == Some(n)) <==> exists i :: 0 <= i < |indexes| && indexes[i].name == n)
  {
    var outs := OutputsOf(verb, indexes, kind);
    if !verb.Passthrough? && !verb.ContextField? && !verb.EncryptInto? {
      forall o | o in TermOutputs(indexes) ensures o.index.Some? && o.name != "Ciphertext" {
        TermNamed(o.index.value);
      }
      forall i | 0 <= i < |indexes| ensures TermOutputs(indexes)[i] in outs {
        if !verb.IndexOnly? { assert outs[i + 1] == TermOutputs(indexes)[i]; }
      }
      forall n ensures (exists o :: o in outs && o.index == Some(n)) <==> exists i :: 0 <= i < |indexes| && indexes[i].name == n {
        if i :| 0 <= i < |indexes| && indexes[i].name == n { assert TermOutputs(indexes)[i].index == Some(n); }
      }
    }
  }

  /** The five terms by their Go names, each of its own type. */
  lemma TermsByName()
    ensures TermOutput(Equality) == Output("Equality", Some(Equality), "Equality") && TermOutput(Match) == Output("Match", Some(Match), "Match")
    ensures TermOutput(Ore) == Output("Ore", Some(Ore), "Ore") && TermOutput(Ope) == Output("Ope", Some(Ope), "Ope")
    ensures TermOutput(Json) == Output("JSON", Some(Json), "JSON")
  {
  }

  function GoName(n: IndexName): (r: string) {
    match n
    case Equality => "Equality"
    case Match => "Match"
    case Ore => "Ore"
    case Ope => "Ope"
    case Json => "JSON"
  }

  function TermOutput(n: IndexName): (r: Output) { Output(GoName(n), Some(n), GoName(n)) }

  /** One field of the struct that declares, with its parsed tag and the name an omitted field takes. */
  datatype Declared = Declared(goName: string, tag: Tag, kind: string, snake: string)
  {
    function Name(): (r: string) { if tag.Field? then tag.name else snake }
  }

  function Emitted(ds: seq<Declared>): (r: seq<GenField>) {
    if ds == [] then []
    else
      var d := ds[|ds| - 1];
      Emitted(ds[..|ds| - 1]) +
      if d.tag.Field? then [GenField(d.tag.name, d.goName, d.tag.verb, OutputsOf(d.tag.verb, d.tag.indexes, d.kind))] else []
  }

  /** How many of the first `n` declared fields are kept. */
  function KeptBefore(ds: seq<Declared>, n: nat): (k: nat)
    requires n <= |ds|
  {
    if n == 0 then 0 else KeptBefore(ds, n - 1) + if ds[n - 1].tag.Field? then 1 else 0
  }

  /** Every declared field that is not omitted is emitted, in its turn, under its names, verb and outputs; and no other. */
  lemma {:induction false} EmitsEachField(ds: seq<Declared>, i: nat)
    requires i < |ds| && ds[i].tag.Field?
    ensures |Emitted(ds)| == KeptBefore(ds, |ds|) && KeptBefore(ds, i) < |Emitted(ds)|
    ensures var (d, g) := (ds[i], Emitted(ds)[KeptBefore(ds, i)]);
            g == GenField(d.tag.name, d.goName, d.tag.verb, OutputsOf(d.tag.verb, d.tag.indexes, d.kind))
  {
    var rest := ds[..|ds| - 1];
    EmittedCount(ds);
    EmittedCount(rest);
    KeptInPrefix(ds, i);
    KeptInPrefix(ds, |rest|);
    if i < |rest| {
      assert rest[i] == ds[i];
      EmitsEachField(rest, i);
    }
  }

  lemma {:induction false} EmittedCount(ds: seq<Declared>)
    ensures |Emitted(ds)| == KeptBefore(ds, |ds|)
  {
    if ds != [] {
      EmittedCount(ds[..|ds| - 1]);
      KeptInPrefix(ds, |ds| - 1);
    }
  }

  lemma {:induction false} KeptInPrefix(ds: seq<Declared>, n: nat)
    requires ds != [] && n <= |ds| - 1
    ensures KeptBefore(ds[..|ds| - 1], n) == KeptBefore(ds, n)
  {
    if n > 0 { KeptInPrefix(ds, n - 1); }
  }

  ghost predicate DeclaredNamesDiffer(ds: seq<Declared>) {
    forall i, j :: 0 <= i < j < |ds| ==> ds[i].Name() != ds[j].Name()
  }

  /** The loop over the declaring struct's fields, with the names written so far. */
  method BuildFields(ds: seq<Declared>) returns (r: Option<seq<GenField>>)
    ensures r.Some? <==> DeclaredNamesDiffer(ds)
    ensures r.Some? ==> r.value == Emitted(ds)
  {
    var fields, seen: set<string> := [], {};
    for i := 0 to |ds|
      invariant fields == Emitted(ds[..i])
      invariant forall n :: n in seen <==> exists j :: 0 <= j < i && ds[j].Name() == n
      invariant forall j, k :: 0 <= j < k < i ==> ds[j].Name() != ds[k].Name()
    {
      var d := ds[i];
      if d.Name() in seen {
        return None;
      }
      seen := seen + {d.Name()};
      assert ds[..i + 1][..i] == ds[..i];
      if d.tag.Field? {
        fields := fields + [GenField(d.tag.name, d.goName, d.tag.verb, OutputsOf(d.tag.verb, d.tag.indexes, d.kind))];
      }
    }
    assert ds[..|ds|] == ds;
    return Some(fields);
  }

  /** Outputs of one field differ both in their Go name and in their index. */
  ghost predicate OutputsDiffer(outs: seq<Output>) {
    forall i, j :: 0 <= i < j < |outs| ==> outs[i].name != outs[j].name && outs[i].index != outs[j].index
  }

  lemma TermNamed(n: IndexName)
    ensures GoName(n) != "Ciphertext"
    ensures forall m :: GoName(n) == GoName(m) ==> n == m
  {
    forall m | GoName(n) == GoName(m) ensures n == m { GoNameIsInjective(n, m); }
    assert |GoName(n)| < 10;
  }

  lemma GoNameIsInjective(n: IndexName, m: IndexName)
    requires GoName(n) == GoName(m)
    ensures n == m
  {
    assert GoName(n)[0] == GoName(m)[0] && GoName(n)[1] == GoName(m)[1];
  }

  lemma TermsDiffer(indexes: seq<Index>)
    requires NamesDiffer(indexes)
    ensures OutputsDiffer(TermOutputs(indexes))
    ensures OutputsDiffer([Output("Ciphertext", None, "Ciphertext")] + TermOutputs(indexes))
  {
    var terms := TermOutputs(indexes);
    forall i, j | 0 <= i < j < |terms| ensures terms[i].name != terms[j].name && terms[i].index != terms[j].index {
      TermNamed(indexes[i].name);
    }
    forall i | 0 <= i < |terms| ensures terms[i].name != "Ciphertext" && terms[i].index.Some? {
      TermNamed(indexes[i].name);
    }
  }

  ghost predicate IsGoodField(g: GenField) {
    && Free(g.name, ',') && OutputsDiffer(g.outputs)
    && (g.IsOneValue() ==> |g.outputs| == 1)
  }

  /** What binding a model rests on. */
  ghost predicate IsGoodDeclaration(fs: seq<GenField>) {
    && (forall i :: 0 <= i < |fs| ==> IsGoodField(fs[i]))
    && (forall i, j :: 0 <= i < j < |fs| ==> fs[i].name != fs[j].name)
    && forall i, j :: 0 <= i < j < |fs| ==> fs[i].goName != fs[j].goName
  }

  ghost predicate From(ds: seq<Declared>, g: GenField) {
    exists i :: 0 <= i < |ds| && ds[i].tag.Field? && ds[i].Name() == g.name && ds[i].goName == g.goName
  }

  /** Distinct names, sound tags and a Go struct's distinct member names make a good declaration. */
  lemma {:induction false} DeclarationIsGood(ds: seq<Declared>)
    requires DeclaredNamesDiffer(ds)
    requires forall i :: 0 <= i < |ds| ==> IsWellFormed(ds[i].tag)
    requires forall i, j :: 0 <= i < j < |ds| ==> ds[i].goName != ds[j].goName
    ensures IsGoodDeclaration(Emitted(ds))
    ensures forall k :: 0 <= k < |Emitted(ds)| ==> From(ds, Emitted(ds)[k])
  {
    if ds != [] {
      var rest, d := ds[..|ds| - 1], ds[|ds| - 1];
      DeclarationIsGood(rest);
      forall k | 0 <= k < |Emitted(rest)|
        ensures From(ds, Emitted(rest)[k]) && Emitted(rest)[k].name != d.Name() && Emitted(rest)[k].goName != d.goName
      {
        FromEarlier(ds, Emitted(rest)[k]);
      }
      if d.tag.Field? {
        var g := GenField(d.tag.name, d.goName, d.tag.verb, OutputsOf(d.tag.verb, d.tag.indexes, d.kind));
        FieldIsGood(d, g);
        OneGoodFieldMore(Emitted(rest), g);
        assert From(ds, g);
      }
    }
  }

  lemma FromEarlier(ds: seq<Declared>, g: GenField)
    requires ds != [] && From(ds[..|ds| - 1], g)
    requires DeclaredNamesDiffer(ds) && forall i, j :: 0 <= i < j < |ds| ==> ds[i].goName != ds[j].goName
    ensures From(ds, g) && g.name != ds[|ds| - 1].Name() && g.goName != ds[|ds| - 1].goName
  {
    var rest := ds[..|ds| - 1];
    var i :| 0 <= i < |rest| && rest[i].tag.Field? && rest[i].Name() == g.name && rest[i].goName == g.goName;
    assert ds[i] == rest[i];
  }

  lemma FieldIsGood(d: Declared, g: GenField)
    requires d.tag.Field? && IsWellFormed(d.tag)
    requires g == GenField(d.tag.name, d.goName, d.tag.verb, OutputsOf(d.tag.verb, d.tag.indexes, d.kind))
    ensures IsGoodField(g)
  {
    TermsDiffer(d.tag.indexes);
  }

  lemma OneGoodFieldMore(fs: seq<GenField>, g: GenField)
    requires IsGoodDeclaration(fs) && IsGoodField(g)
    requires forall k :: 0 <= k < |fs| ==> fs[k].name != g.name && fs[k].goName != g.goName
    ensures IsGoodDeclaration(fs + [g])
  {
  }

  // ----- binding a model -----

  /** One field of a model's struct, with the value of its stash tag. */
  datatype ModelDecl = ModelDecl(name: string, tag: Option<string>, embedded: bool, kind: string)

  datatype ModelTag = Leaves | Names(field: string, index: Option<IndexName>)

  /** A place in a declaration: a field, and one of its outputs. */
  datatype Place = Place(field: nat, output: nat)

  /** A model's field, and the output it is bound to. */
  datatype ModelField = ModelField(name: string, source: Option<Place>)

  function ParseModelTag(value: string): (r: Option<ModelTag>)
    ensures r.Some? && r.value.Names? ==> Free(r.value.field, ',') && value == Key(r.value.field, r.value.index)
  {
    var cut := Find(value, ',');
    var name := value[..cut];
    if value == "-" then Some(Leaves)
    else if name == [] || !IsName(name) then None
    else if cut == |value| then assert name == value; Some(Names(name, None))
    else
      var index := KnownIndex(value[cut + 1..]);
      CutAt(value, cut);
      if index.None? then None else Some(Names(name, index))
  }

  /** How the generator writes an output down when it checks each is bound once. */
  function Key(field: string, index: Option<IndexName>): (r: string) {
    if index.None? then field else field + [','] + Word(index.value)
  }

  function FindField(fs: seq<GenField>, name: string): (i: nat)
    ensures i <= |fs| && (i < |fs| ==> fs[i].name == name) && forall j :: 0 <= j < i ==> fs[j].name != name
  {
    if fs == [] || fs[0].name == name then 0 else FindField(fs[1..], name) + 1
  }

  function FindOutput(outs: seq<Output>, index: Option<IndexName>): (i: nat)
    ensures i <= |outs| && (i < |outs| ==> outs[i].index == index) && forall j :: 0 <= j < i ==> outs[j].index != index
  {
    if outs == [] || outs[0].index == index then 0 else FindOutput(outs[1..], index) + 1
  }

  ghost predicate IsPlace(fs: seq<GenField>, p: Place) { p.field < |fs| && p.output < |fs[p.field].outputs| }

  function LookupOutput(fs: seq<GenField>, name: string, index: Option<IndexName>): (r: Option<Place>)
    ensures r.Some? ==> IsPlace(fs, r.value)
    ensures r.Some? ==> fs[r.value.field].name == name && fs[r.value.field].outputs[r.value.output].index == index
  {
    var f := FindField(fs, name);
    if f == |fs| then None
    else
      var o := FindOutput(fs[f].outputs, index);
      if o == |fs[f].outputs| then None else Some(Place(f, o))
  }

  /** What one field of the model is bound to, or none where it is refused. */
  function BindOne(fs: seq<GenField>, m: ModelDecl): (r: Option<ModelField>)
    ensures r.Some? ==> r.value.name == m.name && (r.value.source.Some? ==> IsPlace(fs, r.value.source.value))
    ensures r.Some? && r.value.source.Some? ==> m.tag == Some(KeyOf(fs, r.value.source.value))
  {
    if m.name == "_" || m.tag.None? then None
    else
      var t := ParseModelTag(m.tag.value);
      if t.None? then None
      else if t.value.Leaves? then Some(ModelField(m.name, None))
      else
        var p := LookupOutput(fs, t.value.field, t.value.index);
        if m.embedded || p.None? || fs[p.value.field].outputs[p.value.output].kind != m.kind then None
        else Some(ModelField(m.name, p))
  }

  /** A name a model's tag can spell. */
  predicate IsSpellable(name: string) { name != [] && IsName(name) && Free(name, ',') }

  /** A model tag names an output exactly when it is that output's key, under a name that can be spelled. */
  lemma ModelTagIsExact(value: string, name: string, index: Option<IndexName>)
    requires value != "-"
    ensures ParseModelTag(value) == Some(Names(name, index)) <==> value == Key(name, index) && IsSpellable(name)
  {
    if value == Key(name, index) && IsSpellable(name) {
      if index.None? {
        FindNone(name, ',');
        assert value[..|name|] == name;
      } else {
        FindAfter(name, ',', Word(index.value));
        KeyEnds(name, index.value);
        WordIsPlain(index.value);
      }
    }
  }

  /** Over a good declaration the lookup finds the one output of that name and index, or there is none. */
  lemma LookupIsExact(fs: seq<GenField>, name: string, index: Option<IndexName>, p: Place)
    requires IsGoodDeclaration(fs) && IsPlace(fs, p)
    ensures LookupOutput(fs, name, index) == Some(p) <==>
            fs[p.field].name == name && fs[p.field].outputs[p.output].index == index
  {
  }

  /** A model field is bound to an output exactly when its tag is the output's key and the types agree. */
  lemma BindsExactly(fs: seq<GenField>, m: ModelDecl, p: Place)
    requires IsGoodDeclaration(fs) && IsPlace(fs, p)
    ensures BindOne(fs, m) == Some(ModelField(m.name, Some(p))) <==>
            && m.name != "_" && !m.embedded && fs[p.field].outputs[p.output].kind == m.kind
            && m.tag == Some(KeyOf(fs, p)) && m.tag.value != "-" && IsSpellable(fs[p.field].name)
  {
    var name, index := fs[p.field].name, fs[p.field].outputs[p.output].index;
    if m.tag.Some? && m.tag.value != "-" {
      ModelTagIsExact(m.tag.value, name, index);
      var t := ParseModelTag(m.tag.value);
      if t.Some? {
        ModelTagIsExact(m.tag.value, t.value.field, t.value.index);
        LookupIsExact(fs, t.value.field, t.value.index, p);
      }
    }
  }

  /** A model field is left out exactly when its tag is `-`. */
  lemma LeavesExactly(fs: seq<GenField>, m: ModelDecl)
    ensures BindOne(fs, m) == Some(ModelField(m.name, None)) <==> m.name != "_" && m.tag == Some("-")
  {
  }

  function KeyOf(fs: seq<GenField>, p: Place): (r: string)
    requires IsPlace(fs, p)
  {
    Key(fs[p.field].name, fs[p.field].outputs[p.output].index)
  }

  lemma KeyIsInjective(a: string, i: Option<IndexName>, b: string, j: Option<IndexName>)
    requires Free(a, ',') && Free(b, ',') && Key(a, i) == Key(b, j)
    ensures a == b && i == j
  {
    if i.Some? { FindAfter(a, ',', Word(i.value)); KeyEnds(a, i.value); } else { FindNone(a, ','); }
    if j.Some? { FindAfter(b, ',', Word(j.value)); KeyEnds(b, j.value); } else { FindNone(b, ','); }
    if i.Some? && j.Some? { WordIsPlain(i.value); WordIsPlain(j.value); }
  }

  lemma KeyEnds(a: string, i: IndexName)
    ensures (a + [','] + Word(i))[..|a|] == a && (a + [','] + Word(i))[|a| + 1..] == Word(i) && Word(i) != []
  {
  }

  /** Over a good declaration, an output's key is its place. */
  lemma KeyIsPlace(fs: seq<GenField>, p: Place, q: Place)
    requires IsGoodDeclaration(fs) && IsPlace(fs, p) && IsPlace(fs, q)
    ensures KeyOf(fs, p) == KeyOf(fs, q) <==> p == q
  {
    if KeyOf(fs, p) == KeyOf(fs, q) {
      var g, h := fs[p.field], fs[q.field];
      KeyIsInjective(g.name, g.outputs[p.output].index, h.name, h.outputs[q.output].index);
      assert p.field == q.field;
    }
  }

  type Binder = ModelDecl -> Option<ModelField>

  function BinderOf(fs: seq<GenField>): (r: Binder) { m => BindOne(fs, m) }

  ghost predicate BindsPlaces(fs: seq<GenField>, bind: Binder) {
    forall m :: bind(m).Some? && bind(m).value.source.Some? ==> IsPlace(fs, bind(m).value.source.value)
  }

  /** Every field of the model is acceptable by itself. */
  ghost predicate EachBinds(bind: Binder, ms: seq<ModelDecl>) {
    forall i :: 0 <= i < |ms| ==> bind(ms[i]).Some?
  }

  /** The bound fields and the declaration's outputs are in bijection. */
  ghost predicate IsBijection(fs: seq<GenField>, mfs: seq<ModelField>) {
    && (forall i :: 0 <= i < |mfs| && mfs[i].source.Some? ==> IsPlace(fs, mfs[i].source.value))
    && NoPlaceTwice(mfs)
    && forall p :: IsPlace(fs, p) ==> exists i :: 0 <= i < |mfs| && mfs[i].source == Some(p)
  }

  ghost predicate NoPlaceTwice(mfs: seq<ModelField>) {
    forall i, j :: 0 <= i < j < |mfs| && mfs[i].source.Some? ==> mfs[i].source != mfs[j].source
  }

  ghost function Candidate(bind: Binder, ms: seq<ModelDecl>): (r: seq<ModelField>)
    requires EachBinds(bind, ms)
    ensures |r| == |ms| && forall i :: 0 <= i < |ms| ==> bind(ms[i]) == Some(r[i])
  {
    seq(|ms|, i requires 0 <= i < |ms| => bind(ms[i]).value)
  }

  /** The keys written down are those of the outputs bound so far, each once. */
  ghost predicate KeysWritten(fs: seq<GenField>, mfs: seq<ModelField>, bound: set<string>) {
    && (forall i :: 0 <= i < |mfs| && mfs[i].source.Some? ==> IsPlace(fs, mfs[i].source.value))
    && NoPlaceTwice(mfs)
    && (forall i :: 0 <= i < |mfs| && mfs[i].source.Some? ==> KeyOf(fs, mfs[i].source.value) in bound)
    && forall k :: k in bound ==> WrittenFor(fs, mfs, k)
  }

  ghost predicate WrittenFor(fs: seq<GenField>, mfs: seq<ModelField>, k: string) {
    exists i :: 0 <= i < |mfs| && mfs[i].source.Some? && IsPlace(fs, mfs[i].source.value) && KeyOf(fs, mfs[i].source.value) == k
  }

  lemma BindsMore(fs: seq<GenField>, mfs: seq<ModelField>, bound: set<string>, mf: ModelField)
    requires IsGoodDeclaration(fs) && KeysWritten(fs, mfs, bound)
    requires mf.source.Some? ==> IsPlace(fs, mf.source.value) && KeyOf(fs, mf.source.value) !in bound
    ensures KeysWritten(fs, mfs + [mf], if mf.source.Some? then bound + {KeyOf(fs, mf.source.value)} else bound)
  {
    var more := mfs + [mf];
    var keys := if mf.source.Some? then bound + {KeyOf(fs, mf.source.value)} else bound;
    assert more[|mfs|] == mf && forall i :: 0 <= i < |mfs| ==> more[i] == mfs[i];
    forall k | k in keys ensures WrittenFor(fs, more, k) {
      if k in bound {
        var i :| 0 <= i < |mfs| && mfs[i].source.Some? && IsPlace(fs, mfs[i].source.value) && KeyOf(fs, mfs[i].source.value) == k;
        assert more[i] == mfs[i];
      }
    }
  }

  /** A key met twice is a place bound twice. */
  lemma KeyTwice(fs: seq<GenField>, bind: Binder, ms: seq<ModelDecl>, mfs: seq<ModelField>, bound: set<string>, p: Place)
    requires IsGoodDeclaration(fs) && KeysWritten(fs, mfs, bound) && IsPlace(fs, p) && KeyOf(fs, p) in bound
    requires EachBinds(bind, ms) && |mfs| < |ms|
    requires mfs <= Candidate(bind, ms) && Candidate(bind, ms)[|mfs|].source == Some(p)
    ensures !NoPlaceTwice(Candidate(bind, ms))
  {
    var whole := Candidate(bind, ms);
    assert WrittenFor(fs, mfs, KeyOf(fs, p));
    var i :| 0 <= i < |mfs| && mfs[i].source.Some? && IsPlace(fs, mfs[i].source.value) && KeyOf(fs, mfs[i].source.value) == KeyOf(fs, p);
    KeyIsPlace(fs, mfs[i].source.value, p);
    assert whole[i] == mfs[i];
  }

  /** The loop over the model's fields, with the keys bound so far. */
  method BindFields(fs: seq<GenField>, bind: Binder, ms: seq<ModelDecl>)
      returns (r: Option<seq<ModelField>>, bound: set<string>)
    requires IsGoodDeclaration(fs) && BindsPlaces(fs, bind)
    ensures r.Some? <==> EachBinds(bind, ms) && NoPlaceTwice(Candidate(bind, ms))
    ensures r.Some? ==> r.value == Candidate(bind, ms) && KeysWritten(fs, r.value, bound)
  {
    var mfs: seq<ModelField>;
    mfs, bound := [], {};
    for i := 0 to |ms|
      invariant |mfs| == i && forall j :: 0 <= j < i ==> bind(ms[j]).Some?
      invariant EachBinds(bind, ms) ==> mfs <= Candidate(bind, ms)
      invariant KeysWritten(fs, mfs, bound)
    {
      var one := bind(ms[i]);
      if one.None? {
        return None, bound;
      }
      if one.value.source.Some? {
        var key := KeyOf(fs, one.value.source.value);
        if key in bound {
          if EachBinds(bind, ms) { KeyTwice(fs, bind, ms, mfs, bound, one.value.source.value); }
          return None, bound;
        }
        BindsMore(fs, mfs, bound, one.value);
        bound := bound + {key};
      } else {
        BindsMore(fs, mfs, bound, one.value);
      }
      mfs := mfs + [one.value];
    }
    assert mfs == Candidate(bind, ms);
    return Some(mfs), bound;
  }

  ghost predicate IsBound(g: GenField, bound: set<string>) {
    forall o :: 0 <= o < |g.outputs| ==> Key(g.name, g.outputs[o].index) in bound
  }

  method OutputsBound(g: GenField, bound: set<string>) returns (r: bool)
    ensures r <==> IsBound(g, bound)
  {
    var outs := g.outputs;
    for o := 0 to |outs|
      invariant forall k :: 0 <= k < o ==> Key(g.name, outs[k].index) in bound
    {
      if Key(g.name, outs[o].index) !in bound {
        return false;
      }
    }
    return true;
  }

  /** The loop that looks for an output no field of the model is bound to. */
  method AllBound(fs: seq<GenField>, bound: set<string>) returns (r: bool)
    ensures r <==> forall f :: 0 <= f < |fs| ==> IsBound(fs[f], bound)
  {
    for f := 0 to |fs|
      invariant forall k :: 0 <= k < f ==> IsBound(fs[k], bound)
    {
      var one := OutputsBound(fs[f], bound);
      if !one {
        return false;
      }
    }
    return true;
  }

  lemma BoundIsCovered(fs: seq<GenField>, mfs: seq<ModelField>, bound: set<string>)
    requires IsGoodDeclaration(fs) && KeysWritten(fs, mfs, bound)
    ensures IsBijection(fs, mfs) <==> forall f :: 0 <= f < |fs| ==> IsBound(fs[f], bound)
  {
    if IsBijection(fs, mfs) {
      forall f, o | 0 <= f < |fs| && 0 <= o < |fs[f].outputs|
        ensures Key(fs[f].name, fs[f].outputs[o].index) in bound
      {
        assert IsPlace(fs, Place(f, o));
      }
    }
    forall p | IsPlace(fs, p)
      ensures KeyOf(fs, p) in bound <==> exists i :: 0 <= i < |mfs| && mfs[i].source == Some(p)
    {
      if KeyOf(fs, p) in bound {
        assert WrittenFor(fs, mfs, KeyOf(fs, p));
        var i :| 0 <= i < |mfs| && mfs[i].source.Some? && IsPlace(fs, mfs[i].source.value) && KeyOf(fs, mfs[i].source.value) == KeyOf(fs, p);
        KeyIsPlace(fs, mfs[i].source.value, p);
      }
    }
  }

  /** `readModel`: binding succeeds exactly when the fields and the outputs are in bijection. */
  method BindModel(fs: seq<GenField>, ms: seq<ModelDecl>) returns (r: Option<seq<ModelField>>)
    requires IsGoodDeclaration(fs)
    ensures r.Some? <==> EachBinds(BinderOf(fs), ms) && IsBijection(fs, Candidate(BinderOf(fs), ms))
    ensures r.Some? ==> r.value == Candidate(BinderOf(fs), ms)
  {
    var mfs, bound := BindFields(fs, BinderOf(fs), ms);
    if mfs.None? {
      return None;
    }
    var all := AllBound(fs, bound);
    BoundIsCovered(fs, mfs.value, bound);
    return if all then mfs else None;
  }
}
