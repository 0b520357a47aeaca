/** The two conversions the generator emits for a model, and their round trips. */
module ModelConversion {
  import opened Prelude
  import opened ModelBinding

  /** A member of the encrypted struct: a field by its Go name, or one part of it. */
  datatype Path = Path(goName: string, part: Option<string>)

  /** The expression that reads one output from an encrypted value. */
  function SourceOf(fs: seq<GenField>, p: Place): (r: Path)
    requires IsPlace(fs, p)
  {
    var g := fs[p.field];
    Path(g.goName, if g.IsOneValue() then None else Some(g.outputs[p.output].name))
  }

  /** An encrypted value has each output of the declaration, at its path. */
  ghost predicate IsEncrypted<V>(fs: seq<GenField>, e: map<Path, V>) {
    forall k :: k in e <==> IsPath(fs, k)
  }

  /** The model field found for an output, by the names of the field and of the output. */
  function FieldFor(fs: seq<GenField>, mfs: seq<ModelField>, p: Place): (i: nat)
    requires IsPlace(fs, p)
    requires forall k :: 0 <= k < |mfs| && mfs[k].source.Some? ==> IsPlace(fs, mfs[k].source.value)
    ensures i <= |mfs| && (i < |mfs| ==> Serves(fs, mfs[i], p)) && forall k :: 0 <= k < i ==> !Serves(fs, mfs[k], p)
  {
    if mfs == [] || Serves(fs, mfs[0], p) then 0 else FieldFor(fs, mfs[1..], p) + 1
  }

  predicate Serves(fs: seq<GenField>, mf: ModelField, p: Place)
    requires IsPlace(fs, p) && (mf.source.Some? ==> IsPlace(fs, mf.source.value))
  {
    mf.source.Some? &&
    var q := mf.source.value;
    fs[q.field].name == fs[p.field].name && fs[q.field].outputs[q.output].name == fs[p.field].outputs[p.output].name
  }

  ghost predicate IsPath(fs: seq<GenField>, k: Path) { exists p :: IsPlace(fs, p) && SourceOf(fs, p) == k }

  /** The output the encrypted struct holds at a path. */
  ghost function PlaceAt(fs: seq<GenField>, k: Path): (p: Place)
    requires IsPath(fs, k)
    ensures IsPlace(fs, p) && SourceOf(fs, p) == k
  {
    var p :| IsPlace(fs, p) && SourceOf(fs, p) == k; p
  }

  ghost function Paths(fs: seq<GenField>): (r: set<Path>)
    ensures forall k :: k in r <==> IsPath(fs, k)
  {
    var r := set f, o | 0 <= f < |fs| && 0 <= o < |fs[f].outputs| :: SourceOf(fs, Place(f, o));
    assert forall p :: IsPlace(fs, p) ==> Place(p.field, p.output) == p && SourceOf(fs, Place(p.field, p.output)) in r;
    r
  }

  /**
    The emitted function from an encrypted value to a model. A model's value is the values
    of its struct's fields, in order; Go keeps their names distinct.
   */
  ghost function ToModel<V>(fs: seq<GenField>, mfs: seq<ModelField>, e: map<Path, V>, zero: V): (m: seq<V>)
    requires IsBijection(fs, mfs) && IsEncrypted(fs, e)
  {
    seq(|mfs|, i requires 0 <= i < |mfs| =>
      if mfs[i].source.None? then zero else e[SourceOf(fs, mfs[i].source.value)])
  }

  /** The emitted function from a model to an encrypted value. */
  ghost function ToEncrypted<V>(fs: seq<GenField>, mfs: seq<ModelField>, m: seq<V>): (e: map<Path, V>)
    requires IsGoodDeclaration(fs) && IsBijection(fs, mfs) && |m| == |mfs|
    ensures IsEncrypted(fs, e)
  {
    EachFieldIsFound(fs, mfs);
    map k | k in Paths(fs) :: m[FieldFor(fs, mfs, PlaceAt(fs, k))]
  }

  lemma PathIsPlace(fs: seq<GenField>, p: Place, q: Place)
    requires IsGoodDeclaration(fs) && IsPlace(fs, p) && IsPlace(fs, q) && SourceOf(fs, p) == SourceOf(fs, q)
    ensures p == q
  {
    assert p.field == q.field;
  }

  lemma ServesIsBound(fs: seq<GenField>, mf: ModelField, p: Place)
    requires IsGoodDeclaration(fs) && IsPlace(fs, p) && (mf.source.Some? ==> IsPlace(fs, mf.source.value))
    ensures Serves(fs, mf, p) <==> mf.source == Some(p)
  {
    if Serves(fs, mf, p) {
      var q := mf.source.value;
      assert q.field == p.field;
    }
  }

  lemma FieldIsFound(fs: seq<GenField>, mfs: seq<ModelField>, p: Place, i: nat)
    requires IsGoodDeclaration(fs) && IsBijection(fs, mfs) && IsPlace(fs, p)
    requires i < |mfs| && mfs[i].source == Some(p)
    ensures FieldFor(fs, mfs, p) == i
  {
    ServesIsBound(fs, mfs[i], p);
    ServesIsBound(fs, mfs[FieldFor(fs, mfs, p)], p);
  }

  lemma EachFieldIsFound(fs: seq<GenField>, mfs: seq<ModelField>)
    requires IsGoodDeclaration(fs) && IsBijection(fs, mfs)
    ensures forall p :: IsPlace(fs, p) ==> FieldFor(fs, mfs, p) < |mfs|
  {
    forall p | IsPlace(fs, p) ensures FieldFor(fs, mfs, p) < |mfs| {
      var i :| 0 <= i < |mfs| && mfs[i].source == Some(p);
      FieldIsFound(fs, mfs, p, i);
    }
  }

  lemma EncryptedAt<V>(fs: seq<GenField>, mfs: seq<ModelField>, m: seq<V>, i: nat)
    requires IsGoodDeclaration(fs) && IsBijection(fs, mfs) && |m| == |mfs|
    requires i < |mfs| && mfs[i].source.Some?
    ensures ToEncrypted(fs, mfs, m)[SourceOf(fs, mfs[i].source.value)] == m[i]
  {
    var p := mfs[i].source.value;
    var k := SourceOf(fs, p);
    assert IsPath(fs, k);
    PathIsPlace(fs, p, PlaceAt(fs, k));
    FieldIsFound(fs, mfs, p, i);
  }

  /**
    The model field tagged with an output's key reads that output's own member: the field
    itself where it is one value, else its part by the output's Go name.
   */
  lemma TaggedFieldReads<V>(fs: seq<GenField>, ms: seq<ModelDecl>, e: map<Path, V>, zero: V, i: nat, p: Place)
    requires IsGoodDeclaration(fs) && EachBinds(BinderOf(fs), ms) && IsBijection(fs, Candidate(BinderOf(fs), ms)) && IsEncrypted(fs, e)
    requires i < |ms| && IsPlace(fs, p) && ms[i].tag == Some(KeyOf(fs, p)) && ms[i].tag.value != "-"
    ensures var (g, m) := (fs[p.field], ToModel(fs, Candidate(BinderOf(fs), ms), e, zero));
            var member := Path(g.goName, if g.verb.Passthrough? || g.verb.ContextField? || g.verb.EncryptInto? then None
                                         else Some(g.outputs[p.output].name));
            i < |m| && member in e && m[i] == e[member]
  {
    var mfs := Candidate(BinderOf(fs), ms);
    assert BinderOf(fs)(ms[i]) == BindOne(fs, ms[i]) == Some(mfs[i]);
    BoundByKey(fs, ms[i], p);
    assert SourceOf(fs, p) in e by { assert IsPath(fs, SourceOf(fs, p)); }
  }

  lemma BoundByKey(fs: seq<GenField>, m: ModelDecl, p: Place)
    requires IsGoodDeclaration(fs) && IsPlace(fs, p) && BindOne(fs, m).Some?
    requires m.tag == Some(KeyOf(fs, p)) && m.tag.value != "-"
    ensures BindOne(fs, m).value.source == Some(p)
  {
    KeyIsPlace(fs, BindOne(fs, m).value.source.value, p);
  }

  lemma PathSurvives<V>(fs: seq<GenField>, mfs: seq<ModelField>, e: map<Path, V>, zero: V, k: Path)
    requires IsGoodDeclaration(fs) && IsBijection(fs, mfs) && IsEncrypted(fs, e) && IsPath(fs, k)
    ensures ToEncrypted(fs, mfs, ToModel(fs, mfs, e, zero))[k] == e[k]
  {
    var i :| 0 <= i < |mfs| && mfs[i].source == Some(PlaceAt(fs, k));
    EncryptedAt(fs, mfs, ToModel(fs, mfs, e, zero), i);
  }

  /** Through a model and back, an encrypted value is unchanged. */
  lemma EncryptedSurvives<V>(fs: seq<GenField>, mfs: seq<ModelField>, e: map<Path, V>, zero: V)
    requires IsGoodDeclaration(fs) && IsBijection(fs, mfs) && IsEncrypted(fs, e)
    ensures ToEncrypted(fs, mfs, ToModel(fs, mfs, e, zero)) == e
  {
    var m := ToModel(fs, mfs, e, zero);
    var back := ToEncrypted(fs, mfs, m);
    forall k | IsPath(fs, k) ensures back[k] == e[k] {
      PathSurvives(fs, mfs, e, zero, k);
    }
    SameEncrypted(fs, back, e);
  }

  lemma SameEncrypted<V>(fs: seq<GenField>, e: map<Path, V>, e': map<Path, V>)
    requires IsEncrypted(fs, e) && IsEncrypted(fs, e') && forall k :: IsPath(fs, k) ==> e[k] == e'[k]
    ensures e == e'
  {
  }

  /** Through an encrypted value and back, a model keeps every bound field, and the others are zero. */
  lemma ModelSurvives<V>(fs: seq<GenField>, mfs: seq<ModelField>, m: seq<V>, zero: V)
    requires IsGoodDeclaration(fs) && IsBijection(fs, mfs) && |m| == |mfs|
    ensures var back := ToModel(fs, mfs, ToEncrypted(fs, mfs, m), zero);
            |back| == |m| && forall i :: 0 <= i < |m| ==> back[i] == if mfs[i].source.Some? then m[i] else zero
  {
    forall i | 0 <= i < |m| && mfs[i].source.Some?
      ensures ToEncrypted(fs, mfs, m)[SourceOf(fs, mfs[i].source.value)] == m[i]
    {
      EncryptedAt(fs, mfs, m, i);
    }
  }
}
