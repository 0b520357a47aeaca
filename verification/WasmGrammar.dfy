/**
  Exactly which bytes the import reader accepts: the binary format of the WebAssembly Core
  Specification as far as the reader looks into it, with numbers in any LEB128 spelling of
  at most ten bytes, and one import section at most.
 */
module WasmGrammar {
  import opened Prelude
  import opened WasmImports

  // ----- the grammar -----

  /** A LEB128 spelling, minimal or not: all bytes but the last go on. */
  predicate IsNumber(enc: Bytes) {
    && 1 <= |enc| <= 10 && enc[|enc| - 1] < 128
    && forall i :: 0 <= i < |enc| - 1 ==> enc[i] >= 128
  }

  function Value(enc: Bytes): (n: nat) {
    if enc == [] then 0 else (enc[0] as int % 128) + 128 * Value(enc[1..])
  }

  ghost predicate IsNameText(enc: Bytes, name: Bytes) {
    IsUtf8(name) && exists size :: IsNumber(size) && Value(size) == |name| && enc == size + name
  }

  ghost predicate IsLimitsText(enc: Bytes) {
    enc != [] &&
    exists least, most ::
      IsNumber(least) && enc[1..] == least + most && if enc[0] % 2 == 0 then most == [] else IsNumber(most)
  }

  ghost predicate IsDescriptorText(enc: Bytes) {
    enc != [] &&
    if enc[0] == 0 then IsNumber(enc[1..])
    else if enc[0] == 1 then |enc| > 1 && IsLimitsText(enc[2..])
    else if enc[0] == 2 then IsLimitsText(enc[1..])
    else enc[0] == 3 && |enc| == 3
  }

  ghost predicate IsImportText(enc: Bytes, pair: Pair) {
    exists from, field, descriptor ::
      IsNameText(from, pair.from) && IsNameText(field, pair.field) && IsDescriptorText(descriptor) &&
      enc == from + field + descriptor
  }

  type PairText = (Bytes, Pair) -> bool

  ghost predicate IsListText(text: PairText, enc: Bytes, pairs: seq<Pair>)
    decreases |pairs|
  {
    if pairs == [] then enc == []
    else exists one, more :: text(one, pairs[0]) && IsListText(text, more, pairs[1..]) && enc == one + more
  }

  ghost predicate IsImportsText(enc: Bytes, pairs: seq<Pair>) { IsListText(IsImportText, enc, pairs) }

  ghost predicate IsCounted(count: Bytes, imports: Bytes, pairs: seq<Pair>) {
    IsNumber(count) && Value(count) == |pairs| && IsImportsText(imports, pairs)
  }

  ghost predicate IsPayload(enc: Bytes, pairs: seq<Pair>) {
    exists count, imports :: IsCounted(count, imports, pairs) && enc == count + imports
  }

  // ----- numbers -----

  lemma {:induction false} NumberIsRead(ahead: Bytes, k: nat) returns (enc: Bytes)
    requires VaruintFrom(ahead, k).Parsed?
    ensures var r := VaruintFrom(ahead, k);
            IsNumber(enc) && |enc| + k <= 10 && ahead == enc + r.rest && r.value == Value(enc)
    decreases |ahead|
  {
    enc := [ahead[0]];
    if ahead[0] >= 128 {
      var more := NumberIsRead(ahead[1..], k + 1);
      enc := [ahead[0]] + more;
      OneByteMore(ahead[0], more);
      assert ahead == [ahead[0]] + ahead[1..];
    }
  }

  lemma OneByteMore(b: Byte, more: Bytes)
    requires b >= 128 && IsNumber(more) && |more| < 10
    ensures IsNumber([b] + more) && Value([b] + more) == (b as int - 128) + 128 * Value(more)
  {
    var enc := [b] + more;
    assert enc[1..] == more;
    assert forall i :: 0 < i < |enc| ==> enc[i] == more[i - 1];
  }

  lemma {:induction false} NumberReads(enc: Bytes, k: nat, post: Bytes)
    requires IsNumber(enc) && |enc| + k <= 10
    ensures VaruintFrom(enc + post, k) == Parsed(Value(enc), post)
    decreases |enc|
  {
    assert (enc + post)[0] == enc[0] && (enc + post)[1..] == enc[1..] + post;
    if |enc| > 1 { NumberReads(enc[1..], k + 1, post); }
  }

  /** A number is read exactly from a spelling of at most ten bytes. */
  lemma NumberIsExact(ahead: Bytes, n: nat, rest: Bytes)
    ensures Varuint(ahead) == Parsed(n, rest) <==> exists enc :: IsNumber(enc) && Value(enc) == n && ahead == enc + rest
  {
    if Varuint(ahead) == Parsed(n, rest) { var enc := NumberIsRead(ahead, 0); }
    forall enc | IsNumber(enc) && Value(enc) == n && ahead == enc + rest ensures Varuint(ahead) == Parsed(n, rest) {
      NumberReads(enc, 0, rest);
    }
  }

  // ----- names and descriptors -----

  lemma NameIsRead(ahead: Bytes) returns (enc: Bytes)
    requires Name(ahead).Parsed?
    ensures IsNameText(enc, Name(ahead).value) && ahead == enc + Name(ahead).rest
  {
    var size := NumberIsRead(ahead, 0);
    enc := size + Name(ahead).value;
  }

  lemma NameReads(enc: Bytes, name: Bytes, post: Bytes)
    requires IsNameText(enc, name)
    ensures Name(enc + post) == Parsed(name, post)
  {
    var size :| IsNumber(size) && Value(size) == |name| && enc == size + name;
    assert enc + post == size + (name + post);
    NumberReads(size, 0, name + post);
    assert (name + post)[..|name|] == name && (name + post)[|name|..] == post;
  }

  lemma LimitsIsRead(ahead: Bytes) returns (enc: Bytes)
    requires Limits(ahead).Parsed?
    ensures IsLimitsText(enc) && ahead == enc + Limits(ahead).rest
  {
    var flags, rest := ahead[0], ahead[1..];
    var least := NumberIsRead(rest, 0);
    var most: Bytes := [];
    if flags % 2 != 0 { most := NumberIsRead(Varuint(rest).rest, 0); }
    enc := [flags] + least + most;
    LimitsSpelled(flags, least, most);
    ThreeParts([flags], least, most, Limits(ahead).rest);
    assert ahead == [flags] + rest;
  }

  lemma LimitsSpelled(flags: Byte, least: Bytes, most: Bytes)
    requires IsNumber(least) && if flags % 2 == 0 then most == [] else IsNumber(most)
    ensures IsLimitsText([flags] + least + most)
  {
    assert ([flags] + least + most)[1..] == least + most;
  }

  lemma ThreeParts(a: Bytes, b: Bytes, c: Bytes, rest: Bytes)
    ensures (a + b + c) + rest == a + (b + (c + rest))
  {
  }

  lemma LimitsReads(enc: Bytes, post: Bytes)
    requires IsLimitsText(enc)
    ensures Limits(enc + post) == Parsed((), post)
  {
    var least, most :| IsNumber(least) && enc[1..] == least + most &&
                       if enc[0] % 2 == 0 then most == [] else IsNumber(most);
    assert (enc + post)[0] == enc[0] && (enc + post)[1..] == least + (most + post);
    NumberReads(least, 0, most + post);
    if enc[0] % 2 != 0 { NumberReads(most, 0, post); } else { assert most + post == post; }
  }

  lemma FunctionIsRead(ahead: Bytes) returns (enc: Bytes)
    requires Descriptor(ahead).Parsed? && ahead[0] == 0
    ensures IsDescriptorText(enc) && ahead == enc + Descriptor(ahead).rest
  {
    var index := NumberIsRead(ahead[1..], 0);
    enc := [ahead[0]] + index;
    assert enc[1..] == index && ahead == [ahead[0]] + ahead[1..];
  }

  lemma TableIsRead(ahead: Bytes) returns (enc: Bytes)
    requires Descriptor(ahead).Parsed? && ahead[0] == 1
    ensures IsDescriptorText(enc) && ahead == enc + Descriptor(ahead).rest
  {
    assert ahead[1..][1..] == ahead[2..];
    var limits := LimitsIsRead(ahead[2..]);
    enc := ahead[..2] + limits;
    assert enc[2..] == limits && ahead == ahead[..2] + ahead[2..];
  }

  lemma MemoryIsRead(ahead: Bytes) returns (enc: Bytes)
    requires Descriptor(ahead).Parsed? && ahead[0] == 2
    ensures IsDescriptorText(enc) && ahead == enc + Descriptor(ahead).rest
  {
    var limits := LimitsIsRead(ahead[1..]);
    enc := [ahead[0]] + limits;
    assert enc[1..] == limits && ahead == [ahead[0]] + ahead[1..];
  }

  lemma GlobalIsRead(ahead: Bytes) returns (enc: Bytes)
    requires Descriptor(ahead).Parsed? && ahead[0] == 3
    ensures IsDescriptorText(enc) && ahead == enc + Descriptor(ahead).rest
  {
    assert ahead[1..][1..] == ahead[2..] && ahead[2..][1..] == ahead[3..];
    enc := ahead[..3];
  }

  lemma DescriptorIsRead(ahead: Bytes) returns (enc: Bytes)
    requires Descriptor(ahead).Parsed?
    ensures IsDescriptorText(enc) && ahead == enc + Descriptor(ahead).rest
  {
    if ahead[0] == 0 {
      enc := FunctionIsRead(ahead);
    } else if ahead[0] == 1 {
      enc := TableIsRead(ahead);
    } else if ahead[0] == 2 {
      enc := MemoryIsRead(ahead);
    } else {
      enc := GlobalIsRead(ahead);
    }
  }

  lemma DescriptorReads(enc: Bytes, post: Bytes)
    requires IsDescriptorText(enc)
    ensures Descriptor(enc + post) == Parsed((), post)
  {
    assert (enc + post)[0] == enc[0] && (enc + post)[1..] == enc[1..] + post;
    if enc[0] == 0 {
      NumberReads(enc[1..], 0, post);
    } else if enc[0] == 1 {
      assert (enc[1..] + post)[1..] == enc[2..] + post;
      LimitsReads(enc[2..], post);
    } else if enc[0] == 2 {
      LimitsReads(enc[1..], post);
    } else {
      assert (enc[1..] + post)[1..] == enc[2..] + post && (enc[2..] + post)[1..] == post;
    }
  }

  // ----- imports -----

  lemma ImportIsRead(ahead: Bytes) returns (enc: Bytes)
    requires OneImport(ahead).Parsed?
    ensures IsImportText(enc, OneImport(ahead).value) && ahead == enc + OneImport(ahead).rest
  {
    var from := NameIsRead(ahead);
    var field := NameIsRead(Name(ahead).rest);
    var descriptor := DescriptorIsRead(Name(Name(ahead).rest).rest);
    enc := from + field + descriptor;
    ThreeParts(from, field, descriptor, OneImport(ahead).rest);
  }

  lemma ImportReads(enc: Bytes, pair: Pair, post: Bytes)
    requires IsImportText(enc, pair)
    ensures OneImport(enc + post) == Parsed(pair, post)
  {
    var from, field, descriptor :|
      IsNameText(from, pair.from) && IsNameText(field, pair.field) && IsDescriptorText(descriptor) &&
      enc == from + field + descriptor;
    ThreeParts(from, field, descriptor, post);
    NameReads(from, pair.from, field + (descriptor + post));
    NameReads(field, pair.field, descriptor + post);
    DescriptorReads(descriptor, post);
  }

  lemma {:induction false} ListIsRead(one: Importer, text: PairText, ahead: Bytes, count: nat) returns (enc: Bytes)
    requires forall a :: one(a).Parsed? ==> exists e :: text(e, one(a).value) && a == e + one(a).rest
    requires Several(one, ahead, count).Parsed?
    ensures var r := Several(one, ahead, count);
            |r.value| == count && IsListText(text, enc, r.value) && ahead == enc + r.rest
    decreases count
  {
    enc := [];
    if count > 0 {
      var r := Several(one, ahead, count);
      var e :| text(e, one(ahead).value) && ahead == e + one(ahead).rest;
      var more := ListIsRead(one, text, one(ahead).rest, count - 1);
      enc := e + more;
      assert r.value[1..] == Several(one, one(ahead).rest, count - 1).value;
      TwoParts(e, more, r.rest);
    }
  }

  lemma {:induction false} ListReads(one: Importer, text: PairText, enc: Bytes, pairs: seq<Pair>, post: Bytes)
    requires forall e, pair, p :: text(e, pair) ==> one(e + p) == Parsed(pair, p)
    requires IsListText(text, enc, pairs)
    ensures Several(one, enc + post, |pairs|) == Parsed(pairs, post)
    decreases |pairs|
  {
    if pairs == [] {
      assert enc + post == post;
    } else {
      var e, more :| text(e, pairs[0]) && IsListText(text, more, pairs[1..]) && enc == e + more;
      assert enc + post == e + (more + post);
      assert one(e + (more + post)) == Parsed(pairs[0], more + post);
      ListReads(one, text, more, pairs[1..], post);
      assert pairs == [pairs[0]] + pairs[1..];
    }
  }

  lemma ImportsIsRead(ahead: Bytes, count: nat) returns (enc: Bytes)
    requires Imports(ahead, count).Parsed?
    ensures var r := Imports(ahead, count);
            |r.value| == count && IsImportsText(enc, r.value) && ahead == enc + r.rest
  {
    forall a | OneImport(a).Parsed? ensures exists e :: IsImportText(e, OneImport(a).value) && a == e + OneImport(a).rest {
      var e := ImportIsRead(a);
    }
    enc := ListIsRead(OneImport, IsImportText, ahead, count);
  }

  lemma ImportsRead(enc: Bytes, pairs: seq<Pair>, post: Bytes)
    requires IsImportsText(enc, pairs)
    ensures Imports(enc + post, |pairs|) == Parsed(pairs, post)
  {
    forall e, pair, p | IsImportText(e, pair) ensures OneImport(e + p) == Parsed(pair, p) {
      ImportReads(e, pair, p);
    }
    ListReads(OneImport, IsImportText, enc, pairs, post);
  }

  lemma PayloadIsRead(ahead: Bytes) returns (enc: Bytes)
    requires ImportSection(ahead).Parsed?
    ensures IsPayload(enc, ImportSection(ahead).value) && ahead == enc + ImportSection(ahead).rest
  {
    var count := NumberIsRead(ahead, 0);
    var imports := ImportsIsRead(Varuint(ahead).rest, Varuint(ahead).value);
    enc := count + imports;
    assert IsCounted(count, imports, ImportSection(ahead).value);
    TwoParts(count, imports, ImportSection(ahead).rest);
  }

  lemma PayloadReads(enc: Bytes, pairs: seq<Pair>, post: Bytes)
    requires IsPayload(enc, pairs)
    ensures ImportSection(enc + post) == Parsed(pairs, post)
  {
    var count, imports :| IsCounted(count, imports, pairs) && enc == count + imports;
    TwoParts(count, imports, post);
    CountedReads(count, imports, pairs, post);
  }

  lemma CountedReads(count: Bytes, imports: Bytes, pairs: seq<Pair>, post: Bytes)
    requires IsCounted(count, imports, pairs)
    ensures ImportSection(count + (imports + post)) == Parsed(pairs, post)
  {
    NumberReads(count, 0, imports + post);
    ImportsRead(imports, pairs, post);
  }

  // ----- sections -----

  /** A section: its id, its size in any spelling, its contents. */
  datatype Chunk = Chunk(id: Byte, size: Bytes, contents: Bytes)
  {
    ghost predicate IsSized() { IsNumber(size) && Value(size) == |contents| }

    function Text(): (enc: Bytes) { [id] + size + contents }
  }

  function Texts(chunks: seq<Chunk>): (enc: Bytes) {
    if chunks == [] then [] else chunks[0].Text() + Texts(chunks[1..])
  }

  /** The chunks hold the pairs: in the contents of the one import section, or nowhere where there is none. */
  ghost predicate Hold(chunks: seq<Chunk>, seen: bool, pairs: seq<Pair>) {
    if chunks == [] then pairs == []
    else
      && chunks[0].IsSized()
      && if chunks[0].id != 2 then Hold(chunks[1..], seen, pairs)
         else !seen && IsPayload(chunks[0].contents, pairs) && Hold(chunks[1..], true, [])
  }

  /** Once an import section was seen no more pairs come. */
  lemma {:induction false} SeenHoldsNothing(ahead: Bytes)
    requires Sections(ahead, true).Ok?
    ensures Sections(ahead, true).value == []
    decreases |ahead|
  {
    if ahead != [] {
      var size := Varuint(ahead[1..]);
      SeenHoldsNothing(size.rest[size.value..]);
    }
  }

  lemma ChunkIsRead(ahead: Bytes) returns (c: Chunk)
    requires ahead != [] && Varuint(ahead[1..]).Parsed? && Varuint(ahead[1..]).value <= |Varuint(ahead[1..]).rest|
    ensures var size := Varuint(ahead[1..]);
            && c.id == ahead[0] && c.IsSized() && c.contents == size.rest[..size.value]
            && ahead == c.Text() + size.rest[size.value..]
  {
    var size := Varuint(ahead[1..]);
    var spelled := NumberIsRead(ahead[1..], 0);
    c := Chunk(ahead[0], spelled, size.rest[..size.value]);
    ThreeParts([ahead[0]], spelled, c.contents, size.rest[size.value..]);
    assert c.contents + size.rest[size.value..] == size.rest && ahead == [ahead[0]] + ahead[1..];
  }

  lemma ChunkReads(c: Chunk, post: Bytes)
    requires c.IsSized()
    ensures var ahead := c.Text() + post;
            && ahead[0] == c.id && Varuint(ahead[1..]) == Parsed(|c.contents|, c.contents + post)
            && (c.contents + post)[|c.contents|..] == post
  {
    ThreeParts([c.id], c.size, c.contents, post);
    assert (c.Text() + post)[1..] == c.size + (c.contents + post);
    NumberReads(c.size, 0, c.contents + post);
  }

  lemma ContentsArePayload(size: Parsed<nat>, contents: Bytes)
    requires size.Parsed? && size.value <= |size.rest| && contents == size.rest[..size.value]
    requires ImportSection(size.rest).Parsed? && |ImportSection(size.rest).rest| == |size.rest| - size.value
    ensures IsPayload(contents, ImportSection(size.rest).value)
  {
    var enc := PayloadIsRead(size.rest);
    assert |enc| == size.value && size.rest[..size.value] == enc;
  }

  /** What accepting a section means for the bytes ahead. */
  lemma SectionAccepted(ahead: Bytes, seen: bool)
    requires ahead != [] && Sections(ahead, seen).Ok?
    ensures var size := Varuint(ahead[1..]);
            && size.Parsed? && size.value <= |size.rest|
            && var after := size.rest[size.value..];
               if ahead[0] != 2 then Sections(ahead, seen) == Sections(after, seen)
               else
                 && !seen && ImportSection(size.rest).Parsed? && |ImportSection(size.rest).rest| == |size.rest| - size.value
                 && Sections(after, true).Ok? && Sections(ahead, seen).value == ImportSection(size.rest).value + Sections(after, true).value
  {
  }

  lemma ImportSectionIsHeld(ahead: Bytes, c: Chunk)
    requires ahead != [] && ahead[0] == 2 && Sections(ahead, false).Ok?
    requires var size := Varuint(ahead[1..]);
             size.Parsed? && size.value <= |size.rest| && c.contents == size.rest[..size.value]
    ensures IsPayload(c.contents, Sections(ahead, false).value)
    ensures var size := Varuint(ahead[1..]); Sections(size.rest[size.value..], true) == Ok([])
  {
    SectionAccepted(ahead, false);
    var size := Varuint(ahead[1..]);
    SeenHoldsNothing(size.rest[size.value..]);
    ContentsArePayload(size, c.contents);
    assert ImportSection(size.rest).value + [] == ImportSection(size.rest).value;
  }

  lemma {:induction false} SectionsAreRead(ahead: Bytes, seen: bool) returns (chunks: seq<Chunk>)
    requires Sections(ahead, seen).Ok?
    ensures ahead == Texts(chunks) && Hold(chunks, seen, Sections(ahead, seen).value)
    decreases |ahead|
  {
    chunks := [];
    if ahead != [] {
      SectionAccepted(ahead, seen);
      var size := Varuint(ahead[1..]);
      var c := ChunkIsRead(ahead);
      if c.id == 2 { ImportSectionIsHeld(ahead, c); }
      var more := SectionsAreRead(size.rest[size.value..], seen || c.id == 2);
      chunks := [c] + more;
      assert chunks[1..] == more;
    }
  }

  lemma {:induction false} SectionsRead(chunks: seq<Chunk>, seen: bool, pairs: seq<Pair>)
    requires Hold(chunks, seen, pairs)
    ensures Sections(Texts(chunks), seen) == Ok(pairs)
    decreases |chunks|
  {
    if chunks != [] {
      var c, more := chunks[0], Texts(chunks[1..]);
      ChunkReads(c, more);
      if c.id == 2 {
        PayloadReads(c.contents, pairs, more);
        SectionsRead(chunks[1..], true, []);
        assert pairs + [] == pairs;
      } else {
        SectionsRead(chunks[1..], seen, pairs);
      }
    }
  }

  /** A module: the eight bytes of its head, then sized sections that hold the pairs. */
  ghost predicate IsModule(data: Bytes, pairs: seq<Pair>) {
    exists chunks :: Hold(chunks, false, pairs) && data == MAGIC + VERSION + Texts(chunks)
  }

  /** The reader accepts exactly the modules, and reports exactly their import pairs. */
  lemma ReadsExactlyTheModules(data: Bytes, pairs: seq<Pair>)
    ensures ReadImports(data) == Ok(pairs) <==> IsModule(data, pairs)
  {
    if ReadImports(data) == Ok(pairs) {
      var chunks := SectionsAreRead(data[8..], false);
      assert data == data[..4] + data[4..8] + data[8..];
    }
    if IsModule(data, pairs) {
      var chunks :| Hold(chunks, false, pairs) && data == MAGIC + VERSION + Texts(chunks);
      assert data[..4] == MAGIC && data[4..8] == VERSION && data[8..] == Texts(chunks);
      SectionsRead(chunks, false, pairs);
    }
  }
}
