/**
  The import-section reader: a cursor over a WebAssembly binary, the import pairs it
  reports, and the encoding of a module it inverts (sections 5.2.2, 5.5.2 and 5.5.5
  of the WebAssembly Core Specification).
 */
module WasmImports {
  import opened Prelude

  type Bytes = seq<Byte>

  datatype Fault =
    | Truncated | TooLarge | BadUtf8 | UnknownKind | BadMagic | BadVersion
    | PastEnd | DuplicateSection | SizeMismatch

  /** What a reader makes of the bytes ahead: a value and the bytes left, or a refusal. */
  datatype Parsed<+T> = Parsed(value: T, rest: Bytes) | Malformed(fault: Fault)

  // ----- what each part reads -----

  function Take(ahead: Bytes, n: nat): (r: Parsed<Bytes>)
    ensures r.Parsed? ==> |r.rest| == |ahead| - n
  {
    if n > |ahead| then Malformed(Truncated) else Parsed(ahead[..n], ahead[n..])
  }

  function OneByte(ahead: Bytes): (r: Parsed<Byte>)
    ensures r.Parsed? ==> |r.rest| == |ahead| - 1
  {
    if ahead == [] then Malformed(Truncated) else Parsed(ahead[0], ahead[1..])
  }

  /** A LEB128 number of which `k` bytes are read already; an eleventh byte is too many. */
  function VaruintFrom(ahead: Bytes, k: nat): (r: Parsed<nat>)
    ensures r.Parsed? ==> |r.rest| < |ahead|
    decreases |ahead|
  {
    if k >= 10 then Malformed(TooLarge)
    else if ahead == [] then Malformed(Truncated)
    else if ahead[0] < 128 then Parsed(ahead[0] as nat, ahead[1..])
    else
      var more := VaruintFrom(ahead[1..], k + 1);
      if more.Malformed? then more else Parsed((ahead[0] as int - 128) + 128 * more.value, more.rest)
  }

  function Varuint(ahead: Bytes): (r: Parsed<nat>)
    ensures r.Parsed? ==> |r.rest| < |ahead|
  {
    VaruintFrom(ahead, 0)
  }

  predicate IsContinuation(b: Byte) { 0x80 <= b <= 0xBF }

  /** Well-formed UTF-8, as section 4 of RFC 3629 lays it out. */
  predicate IsUtf8(s: Bytes) {
    if s == [] then true
    else if s[0] < 0x80 then IsUtf8(s[1..])
    else if 0xC2 <= s[0] <= 0xDF then |s| >= 2 && IsContinuation(s[1]) && IsUtf8(s[2..])
    else if 0xE0 <= s[0] <= 0xEF then
      && |s| >= 3 && IsContinuation(s[1]) && IsContinuation(s[2])
      && (s[0] == 0xE0 ==> s[1] >= 0xA0) && (s[0] == 0xED ==> s[1] <= 0x9F)
      && IsUtf8(s[3..])
    else if 0xF0 <= s[0] <= 0xF4 then
      && |s| >= 4 && IsContinuation(s[1]) && IsContinuation(s[2]) && IsContinuation(s[3])
      && (s[0] == 0xF0 ==> s[1] >= 0x90) && (s[0] == 0xF4 ==> s[1] <= 0x8F)
      && IsUtf8(s[4..])
    else false
  }

  /** A name, kept as its UTF-8 bytes. */
  function Name(ahead: Bytes): (r: Parsed<Bytes>)
    ensures r.Parsed? ==> |r.rest| < |ahead|
  {
    var size := Varuint(ahead);
    if size.Malformed? then Malformed(size.fault)
    else
      var raw := Take(size.rest, size.value);
      if raw.Malformed? then raw
      else if IsUtf8(raw.value) then raw else Malformed(BadUtf8)
  }

  function Limits(ahead: Bytes): (r: Parsed<()>)
    ensures r.Parsed? ==> |r.rest| <= |ahead|
  {
    var flags := OneByte(ahead);
    if flags.Malformed? then Malformed(flags.fault)
    else
      var least := Varuint(flags.rest);
      if least.Malformed? then Malformed(least.fault)
      else if flags.value % 2 == 0 then Parsed((), least.rest)
      else
        var most := Varuint(least.rest);
        if most.Malformed? then Malformed(most.fault) else Parsed((), most.rest)
  }

  function Descriptor(ahead: Bytes): (r: Parsed<()>)
    ensures r.Parsed? ==> |r.rest| <= |ahead|
  {
    var kind := OneByte(ahead);
    if kind.Malformed? then Malformed(kind.fault)
    else if kind.value == 0 then
      var index := Varuint(kind.rest);
      if index.Malformed? then Malformed(index.fault) else Parsed((), index.rest)
    else if kind.value == 1 then
      var reftype := OneByte(kind.rest);
      if reftype.Malformed? then Malformed(reftype.fault) else Limits(reftype.rest)
    else if kind.value == 2 then Limits(kind.rest)
    else if kind.value == 3 then
      var valtype := OneByte(kind.rest);
      if valtype.Malformed? then Malformed(valtype.fault)
      else
        var mutability := OneByte(valtype.rest);
        if mutability.Malformed? then Malformed(mutability.fault) else Parsed((), mutability.rest)
    else Malformed(UnknownKind)
  }

  /** One import as it is reported: the module's name and the field's. */
  datatype Pair = Pair(from: Bytes, field: Bytes)

  function OneImport(ahead: Bytes): (r: Parsed<Pair>)
    ensures r.Parsed? ==> |r.rest| < |ahead|
  {
    var from := Name(ahead);
    if from.Malformed? then Malformed(from.fault)
    else
      var field := Name(from.rest);
      if field.Malformed? then Malformed(field.fault)
      else
        var descriptor := Descriptor(field.rest);
        if descriptor.Malformed? then Malformed(descriptor.fault)
        else Parsed(Pair(from.value, field.value), descriptor.rest)
  }

  type Importer = Bytes -> Parsed<Pair>

  function Several(one: Importer, ahead: Bytes, count: nat): (r: Parsed<seq<Pair>>)
    decreases count
  {
    if count == 0 then Parsed([], ahead)
    else
      var first := one(ahead);
      if first.Malformed? then Malformed(first.fault)
      else
        var more := Several(one, first.rest, count - 1);
        if more.Malformed? then more else Parsed([first.value] + more.value, more.rest)
  }

  function Imports(ahead: Bytes, count: nat): (r: Parsed<seq<Pair>>) { Several(OneImport, ahead, count) }

  function ImportSection(ahead: Bytes): (r: Parsed<seq<Pair>>) {
    var count := Varuint(ahead);
    if count.Malformed? then Malformed(count.fault) else Imports(count.rest, count.value)
  }

  /** The sections ahead, given whether an import section was seen already. */
  function Sections(ahead: Bytes, seen: bool): (r: Result<seq<Pair>, Fault>)
    decreases |ahead|
  {
    if ahead == [] then Ok([])
    else
      var id := OneByte(ahead);
      var size := Varuint(id.rest);
      if size.Malformed? then Err(size.fault)
      else if size.value > |size.rest| then Err(PastEnd)
      else
        var after := size.rest[size.value..];
        if id.value != 2 then Sections(after, seen)
        else if seen then Err(DuplicateSection)
        else
          var section := ImportSection(size.rest);
          if section.Malformed? then Err(section.fault)
          else if |section.rest| != |after| then Err(SizeMismatch)
          else
            var more := Sections(after, true);
            if more.Err? then more else Ok(section.value + more.value)
  }

  const MAGIC: Bytes := [0x00, 0x61, 0x73, 0x6D]
  const VERSION: Bytes := [1, 0, 0, 0]

  function ReadImports(data: Bytes): (r: Result<seq<Pair>, Fault>) {
    if |data| < 4 then Err(Truncated)
    else if data[..4] != MAGIC then Err(BadMagic)
    else if |data| < 8 then Err(Truncated)
    else if data[4..8] != VERSION then Err(BadVersion)
    else Sections(data[8..], false)
  }

  // ----- the reader, in place -----

  class Reader {
    const data: Bytes
    var pos: nat

    constructor (data: Bytes)
      ensures this.data == data && pos == 0 && Valid()
    {
      this.data := data;
      pos := 0;
    }

    /** The cursor never leaves the data. */
    ghost predicate Valid()
      reads this
    {
      pos <= |data|
    }

    ghost function Ahead(): (r: Bytes)
      reads this
      requires Valid()
    {
      data[pos..]
    }

    /** `r` is what the specification makes of the bytes that were ahead, and the cursor stands where it says. */
    ghost predicate Matches<T>(spec: Parsed<T>, r: Result<T, Fault>)
      reads this
    {
      Valid() &&
      match spec
      case Parsed(value, rest) => r == Ok(value) && Ahead() == rest
      case Malformed(fault) => r == Err(fault)
    }

    method TakeBytes(n: nat) returns (r: Result<Bytes, Fault>)
      requires Valid()
      modifies this`pos
      ensures Matches(Take(old(Ahead()), n), r)
    {
      if pos + n > |data| {
        return Err(Truncated);
      }
      r := Ok(data[pos..pos + n]);
      assert Ahead()[..n] == data[pos..pos + n] && Ahead()[n..] == data[pos + n..];
      pos := pos + n;
    }

    method TakeByte() returns (r: Result<Byte, Fault>)
      requires Valid()
      modifies this`pos
      ensures Matches(OneByte(old(Ahead())), r)
    {
      if pos + 1 > |data| {
        return Err(Truncated);
      }
      r := Ok(data[pos]);
      pos := pos + 1;
    }

    /** Each byte's low seven bits go in above all bits so far, so adding them is or-ing them. */
    method TakeVaruint() returns (r: Result<nat, Fault>)
      requires Valid()
      modifies this`pos
      ensures Matches(Varuint(old(Ahead())), r)
    {
      var result: nat, scale: nat, k := 0, 1, 0;
      ghost var whole := Varuint(Ahead());
      while true
        invariant Valid() && k <= 10 && result < scale
        invariant Builds(whole, result, scale, VaruintFrom(Ahead(), k))
        decreases 10 - k
      {
        BuildsMore(whole, result, scale, Ahead(), k);
        if 7 * k > 63 {
          return Err(TooLarge);
        }
        var b := TakeByte();
        if b.Err? {
          return Err(b.error);
        }
        if b.value < 128 {
          return Ok(result + scale * b.value);
        }
        result := result + scale * (b.value as int - 128);
        scale := scale * 128;
        k := k + 1;
      }
    }

    method TakeName() returns (r: Result<Bytes, Fault>)
      requires Valid()
      modifies this`pos
      ensures Matches(Name(old(Ahead())), r)
    {
      var size := TakeVaruint();
      if size.Err? {
        return Err(size.error);
      }
      r := TakeBytes(size.value);
      if r.Ok? && !IsUtf8(r.value) {
        return Err(BadUtf8);
      }
    }

    method SkipLimits() returns (r: Result<(), Fault>)
      requires Valid()
      modifies this`pos
      ensures Matches(Limits(old(Ahead())), r)
    {
      var flags := TakeByte();
      if flags.Err? {
        return Err(flags.error);
      }
      var least := TakeVaruint();
      if least.Err? {
        return Err(least.error);
      }
      if flags.value % 2 == 1 {
        var most := TakeVaruint();
        if most.Err? {
          return Err(most.error);
        }
      }
      return Ok(());
    }

    method SkipDescriptor() returns (r: Result<(), Fault>)
      requires Valid()
      modifies this`pos
      ensures Matches(Descriptor(old(Ahead())), r)
    {
      var kind := TakeByte();
      if kind.Err? {
        return Err(kind.error);
      }
      if kind.value == 0 {
        var index := TakeVaruint();
        if index.Err? {
          return Err(index.error);
        }
      } else if kind.value == 1 {
        var reftype := TakeByte();
        if reftype.Err? {
          return Err(reftype.error);
        }
        r := SkipLimits();
        return;
      } else if kind.value == 2 {
        r := SkipLimits();
        return;
      } else if kind.value == 3 {
        var valtype := TakeByte();
        if valtype.Err? {
          return Err(valtype.error);
        }
        var mutability := TakeByte();
        if mutability.Err? {
          return Err(mutability.error);
        }
      } else {
        return Err(UnknownKind);
      }
      return Ok(());
    }

    method TakeImport() returns (r: Result<Pair, Fault>)
      requires Valid()
      modifies this`pos
      ensures Matches(OneImport(old(Ahead())), r)
    {
      var from := TakeName();
      if from.Err? {
        return Err(from.error);
      }
      var field := TakeName();
      if field.Err? {
        return Err(field.error);
      }
      var descriptor := SkipDescriptor();
      if descriptor.Err? {
        return Err(descriptor.error);
      }
      return Ok(Pair(from.value, field.value));
    }

    /** The loop body: one import more, of `count` still due. */
    method TakeNextImport(ghost whole: Parsed<seq<Pair>>, done: seq<Pair>, count: nat)
      returns (r: Result<seq<Pair>, Fault>, left: nat)
      requires Valid() && count > 0 && Continues(whole, done, Imports(Ahead(), count))
      modifies this`pos
      ensures Valid() && left == count - 1
      ensures if r.Err? then whole == Malformed(r.error) else Continues(whole, r.value, Imports(Ahead(), left))
    {
      left := count - 1;
      OneImportMore(whole, done, Ahead(), count, left);
      var one := TakeImport();
      if one.Err? {
        return Err(one.error), left;
      }
      return Ok(done + [one.value]), left;
    }

    method TakeImports(count: nat) returns (r: Result<seq<Pair>, Fault>)
      requires Valid()
      modifies this`pos
      ensures Matches(Imports(old(Ahead()), count), r)
    {
      var imports: seq<Pair>, left := [], count;
      ghost var whole := Imports(Ahead(), count);
      NothingDoneYet(whole, Ahead(), count);
      while left > 0
        invariant Valid() && Continues(whole, imports, Imports(Ahead(), left))
        decreases left
      {
        var next;
        next, left := TakeNextImport(whole, imports, left);
        if next.Err? {
          return next;
        }
        imports := next.value;
      }
      assert imports + [] == imports;
      return Ok(imports);
    }

    method TakeImportSection() returns (r: Result<seq<Pair>, Fault>)
      requires Valid()
      modifies this`pos
      ensures Matches(ImportSection(old(Ahead())), r)
    {
      var count := TakeVaruint();
      if count.Err? {
        return Err(count.error);
      }
      r := TakeImports(count.value);
    }
  }

  /** With `done` read already, what is ahead completes the whole, or is why there is none. */
  ghost predicate Continues(whole: Parsed<seq<Pair>>, done: seq<Pair>, part: Parsed<seq<Pair>>) {
    whole == if part.Malformed? then part else Parsed(done + part.value, part.rest)
  }

  lemma NothingDoneYet(whole: Parsed<seq<Pair>>, ahead: Bytes, count: nat)
    requires whole == Imports(ahead, count)
    ensures Continues(whole, [], Imports(ahead, count))
  {
    if whole.Parsed? { assert [] + whole.value == whole.value; }
  }

  lemma OneImportMore(whole: Parsed<seq<Pair>>, done: seq<Pair>, ahead: Bytes, count: nat, left: nat)
    requires count == left + 1 && Continues(whole, done, Imports(ahead, count))
    ensures var one := OneImport(ahead);
            if one.Malformed? then whole == Malformed(one.fault)
            else Continues(whole, done + [one.value], Imports(one.rest, left))
  {
    SeveralMore(OneImport, whole, done, ahead, count, left);
  }

  lemma SeveralMore(one: Importer, whole: Parsed<seq<Pair>>, done: seq<Pair>, ahead: Bytes, count: nat, left: nat)
    requires count == left + 1 && Continues(whole, done, Several(one, ahead, count))
    ensures var first := one(ahead);
            if first.Malformed? then whole == Malformed(first.fault)
            else Continues(whole, done + [first.value], Several(one, first.rest, left))
  {
    var first := one(ahead);
    if first.Parsed? { PairMore(whole, done, first.value, Several(one, first.rest, left)); }
  }

  lemma PairMore(whole: Parsed<seq<Pair>>, done: seq<Pair>, pair: Pair, more: Parsed<seq<Pair>>)
    ensures Continues(whole, done + [pair], more) <==>
            Continues(whole, done, if more.Malformed? then more else Parsed([pair] + more.value, more.rest))
  {
    if more.Parsed? { assert done + ([pair] + more.value) == (done + [pair]) + more.value; }
  }

  /** With `result` read below `scale`, what is ahead completes the number, or is why there is none. */
  ghost predicate Builds(whole: Parsed<nat>, result: nat, scale: nat, part: Parsed<nat>) {
    whole == if part.Malformed? then part else Parsed(result + scale * part.value, part.rest)
  }

  lemma BuildsMore(whole: Parsed<nat>, result: nat, scale: nat, ahead: Bytes, k: nat)
    requires k <= 10 && result < scale && Builds(whole, result, scale, VaruintFrom(ahead, k))
    ensures if k == 10 then whole == Malformed(TooLarge)
            else if ahead == [] then whole == Malformed(Truncated)
            else if ahead[0] < 128 then whole == Parsed(result + scale * ahead[0], ahead[1..])
            else
              var low := ahead[0] as int - 128;
              && 0 <= result + scale * low < scale * 128
              && Builds(whole, result + scale * low, scale * 128, VaruintFrom(ahead[1..], k + 1))
  {
    if k < 10 && ahead != [] && ahead[0] >= 128 {
      DigitMore(whole, result, scale, ahead[0] as int - 128, VaruintFrom(ahead[1..], k + 1));
    }
  }

  lemma DigitMore(whole: Parsed<nat>, result: nat, scale: nat, low: nat, more: Parsed<nat>)
    requires result < scale && low < 128
    ensures 0 <= result + scale * low < scale * 128
    ensures Builds(whole, result + scale * low, scale * 128, more) <==>
            Builds(whole, result, scale, if more.Malformed? then more else Parsed(low + 128 * more.value, more.rest))
  {
    ShiftsIn(result, scale, low, if more.Parsed? then more.value else 0);
  }

  lemma ShiftsIn(result: nat, scale: nat, low: nat, more: nat)
    requires result < scale && low < 128
    ensures result + scale * (low + 128 * more) == (result + scale * low) + (scale * 128) * more
    ensures result + scale * low < scale * 128
  {
    assert scale * (low + 1) <= scale * 128;
  }

  /** On any bytes at all the loop ends, the cursor stays in bounds, and the answer is the specified one. */
  method ReadImportsInPlace(data: Bytes) returns (r: Result<seq<Pair>, Fault>)
    ensures r == ReadImports(data)
  {
    var reader := new Reader(data);
    var magic := reader.TakeBytes(4);
    if magic.Err? {
      return Err(magic.error);
    }
    if magic.value != MAGIC {
      return Err(BadMagic);
    }
    var version := reader.TakeBytes(4);
    if version.Err? {
      return Err(version.error);
    }
    if version.value != VERSION {
      return Err(BadVersion);
    }
    assert reader.Ahead() == data[8..];
    r := ReadSections(reader);
  }

  method ReadSections(reader: Reader) returns (r: Result<seq<Pair>, Fault>)
    requires reader.Valid()
    modifies reader`pos
    ensures reader.Valid() && r == Sections(old(reader.Ahead()), false)
  {
    var imports: seq<Pair>, seen := [], false;
    ghost var whole := Sections(reader.Ahead(), false);
    assert whole.Ok? ==> imports + whole.value == whole.value;
    while reader.pos < |reader.data|
      invariant reader.Valid() && GoesOn(whole, imports, Sections(reader.Ahead(), seen))
      decreases |reader.data| - reader.pos
    {
      var section;
      section, seen := ReadSection(reader, whole, imports, seen);
      if section.Err? {
        return section;
      }
      imports := section.value;
    }
    assert imports + [] == imports;
    return Ok(imports);
  }

  /** One turn of the section loop: the imports so far with this section's, or the fault. */
  method ReadSection(reader: Reader, ghost whole: Result<seq<Pair>, Fault>, imports: seq<Pair>, seen: bool)
    returns (r: Result<seq<Pair>, Fault>, seen': bool)
    requires reader.Valid() && reader.pos < |reader.data| && GoesOn(whole, imports, Sections(reader.Ahead(), seen))
    modifies reader`pos
    ensures reader.Valid() && (r.Ok? ==> reader.pos > old(reader.pos))
    ensures if r.Err? then whole == r else GoesOn(whole, r.value, Sections(reader.Ahead(), seen'))
  {
    SectionMore(whole, imports, reader.Ahead(), seen);
    seen' := seen;
    var id := reader.TakeByte();
    var size := reader.TakeVaruint();
    if size.Err? {
      return Err(size.error), seen';
    }
    var end := reader.pos + size.value;
    if end > |reader.data| {
      return Err(PastEnd), seen';
    }
    assert reader.Ahead()[size.value..] == reader.data[end..];
    r := Ok(imports);
    if id.value == 2 {
      if seen {
        return Err(DuplicateSection), seen';
      }
      seen' := true;
      var section := reader.TakeImportSection();
      if section.Err? {
        return Err(section.error), seen';
      }
      r := Ok(imports + section.value);
      if reader.pos != end {
        return Err(SizeMismatch), seen';
      }
    }
    reader.pos := end;
  }

  ghost predicate GoesOn(whole: Result<seq<Pair>, Fault>, done: seq<Pair>, part: Result<seq<Pair>, Fault>) {
    whole == if part.Err? then part else Ok(done + part.value)
  }

  /** One section more: a refusal is the whole answer, and an import section adds its pairs. */
  lemma SectionMore(whole: Result<seq<Pair>, Fault>, done: seq<Pair>, ahead: Bytes, seen: bool)
    requires ahead != [] && GoesOn(whole, done, Sections(ahead, seen))
    ensures var size := Varuint(ahead[1..]);
            if size.Malformed? then whole == Err(size.fault)
            else if size.value > |size.rest| then whole == Err(PastEnd)
            else if ahead[0] != 2 then GoesOn(whole, done, Sections(size.rest[size.value..], seen))
            else if seen then whole == Err(DuplicateSection)
            else
              var section := ImportSection(size.rest);
              if section.Malformed? then whole == Err(section.fault)
              else if |section.rest| != |size.rest| - size.value then whole == Err(SizeMismatch)
              else GoesOn(whole, done + section.value, Sections(size.rest[size.value..], true))
  {
    var size := Varuint(ahead[1..]);
    if size.Parsed? && size.value <= |size.rest| && ahead[0] == 2 && !seen {
      var section := ImportSection(size.rest);
      if section.Parsed? { PairsMore(whole, done, section.value, Sections(size.rest[size.value..], true)); }
    }
  }

  lemma PairsMore(whole: Result<seq<Pair>, Fault>, done: seq<Pair>, pairs: seq<Pair>, more: Result<seq<Pair>, Fault>)
    ensures GoesOn(whole, done + pairs, more) <==> GoesOn(whole, done, if more.Err? then more else Ok(pairs + more.value))
  {
    if more.Ok? { assert done + (pairs + more.value) == (done + pairs) + more.value; }
  }

  // ----- encoding -----

  /** LEB128: seven bits at a time, least significant first. */
  function Leb(n: nat): (r: Bytes) {
    if n < 128 then [n as Byte] else [(n % 128 + 128) as Byte] + Leb(n / 128)
  }

  datatype Bounds = Bounds(flags: Byte, least: nat, most: nat)

  datatype Kind =
    | Func(index: nat)
    | Table(reftype: Byte, bounds: Bounds)
    | Memory(bounds: Bounds)
    | Global(valtype: Byte, mutability: Byte)

  datatype Import = Import(pair: Pair, kind: Kind)

  /** An import section, or any section with another id, of which only the payload's size matters. */
  datatype Section = ImportsOf(imports: seq<Import>) | AnyOther(id: Byte, payload: Bytes)

  function EncodeName(name: Bytes): (r: Bytes) { Leb(|name|) + name }

  function EncodeBounds(b: Bounds): (r: Bytes) {
    [b.flags] + Leb(b.least) + if b.flags % 2 == 1 then Leb(b.most) else []
  }

  function EncodeKind(k: Kind): (r: Bytes) {
    match k
    case Func(index) => [0] + Leb(index)
    case Table(reftype, bounds) => [1, reftype] + EncodeBounds(bounds)
    case Memory(bounds) => [2] + EncodeBounds(bounds)
    case Global(valtype, mutability) => [3, valtype, mutability]
  }

  function EncodeImport(i: Import): (r: Bytes) {
    EncodeName(i.pair.from) + EncodeName(i.pair.field) + EncodeKind(i.kind)
  }

  function EncodeImports(entries: seq<Import>): (r: Bytes) {
    if entries == [] then [] else EncodeImport(entries[0]) + EncodeImports(entries[1..])
  }

  function Payload(s: Section): (r: Bytes) {
    match s
    case ImportsOf(imports) => Leb(|imports|) + EncodeImports(imports)
    case AnyOther(_, payload) => payload
  }

  function EncodeSection(s: Section): (r: Bytes) {
    [if s.ImportsOf? then 2 else s.id] + Leb(|Payload(s)|) + Payload(s)
  }

  function EncodeSections(m: seq<Section>): (r: Bytes) {
    if m == [] then [] else EncodeSection(m[0]) + EncodeSections(m[1..])
  }

  function EncodeModule(m: seq<Section>): (r: Bytes) { MAGIC + VERSION + EncodeSections(m) }

  /** The reader's limit on numbers: ten bytes of seven bits. */
  const LIMIT := 0x40_0000_0000_0000_0000

  predicate IsBoundsOk(b: Bounds) { b.least < LIMIT && (b.flags % 2 == 1 ==> b.most < LIMIT) }

  predicate IsKindOk(k: Kind) {
    match k
    case Func(index) => index < LIMIT
    case Table(_, bounds) => IsBoundsOk(bounds)
    case Memory(bounds) => IsBoundsOk(bounds)
    case Global(_, _) => true
  }

  predicate IsNameOk(name: Bytes) { |name| < LIMIT && IsUtf8(name) }

  predicate IsImportOk(i: Import) { IsNameOk(i.pair.from) && IsNameOk(i.pair.field) && IsKindOk(i.kind) }

  predicate IsSectionOk(s: Section) {
    && |Payload(s)| < LIMIT
    && match s
       case ImportsOf(imports) => |imports| < LIMIT && forall i :: 0 <= i < |imports| ==> IsImportOk(imports[i])
       case AnyOther(id, _) => id != 2
  }

  function Pairs(entries: seq<Import>): (r: seq<Pair>) {
    if entries == [] then [] else [entries[0].pair] + Pairs(entries[1..])
  }

  // ----- reading inverts encoding -----

  function Pow128(j: nat): (r: nat)
    ensures r > 0
  {
    if j == 0 then 1 else 128 * Pow128(j - 1)
  }

  lemma {:induction false} VaruintInvertsLeb(n: nat, k: nat, post: Bytes)
    requires k <= 10
    ensures VaruintFrom(Leb(n) + post, k) == if n < Pow128(10 - k) && k < 10 then Parsed(n, post) else Malformed(TooLarge)
    decreases n
  {
    if k < 10 {
      if n < 128 {
        assert (Leb(n) + post)[1..] == post;
        assert Pow128(10 - k) >= 128;
      } else {
        assert (Leb(n) + post)[1..] == Leb(n / 128) + post;
        VaruintInvertsLeb(n / 128, k + 1, post);
      }
    }
  }

  lemma LimitIsPow()
    ensures Pow128(10) == LIMIT
  {
    assert Pow128(4) == 0x1000_0000;
    assert Pow128(8) == 128 * (128 * (128 * (128 * Pow128(4))));
  }

  /** LEB128 numbers read back exactly below 2^70, and are refused from there on. */
  lemma NumbersReadBack(n: nat, post: Bytes)
    ensures Varuint(Leb(n) + post) == if n < LIMIT then Parsed(n, post) else Malformed(TooLarge)
  {
    VaruintInvertsLeb(n, 0, post);
    LimitIsPow();
  }

  lemma NameReadsBack(name: Bytes, post: Bytes)
    requires IsNameOk(name)
    ensures Name(EncodeName(name) + post) == Parsed(name, post)
  {
    assert EncodeName(name) + post == Leb(|name|) + (name + post);
    NumbersReadBack(|name|, name + post);
    assert (name + post)[..|name|] == name && (name + post)[|name|..] == post;
  }

  lemma HeadOff(b: Byte, x: Bytes, y: Bytes, post: Bytes)
    ensures ([b] + x + y) + post == [b] + (x + (y + post))
    ensures ([b] + (x + (y + post)))[0] == b && ([b] + (x + (y + post)))[1..] == x + (y + post)
  {
  }

  lemma BoundsReadBack(b: Bounds, post: Bytes)
    requires IsBoundsOk(b)
    ensures Limits(EncodeBounds(b) + post) == Parsed((), post)
  {
    var most := if b.flags % 2 == 1 then Leb(b.most) else [];
    HeadOff(b.flags, Leb(b.least), most, post);
    NumbersReadBack(b.least, most + post);
    if b.flags % 2 == 1 {
      NumbersReadBack(b.most, post);
    } else {
      assert most + post == post;
    }
  }

  lemma KindReadsBack(k: Kind, post: Bytes)
    requires IsKindOk(k)
    ensures Descriptor(EncodeKind(k) + post) == Parsed((), post)
  {
    match k
    case Func(index) =>
      HeadOff(0, Leb(index), [], post);
      assert EncodeKind(k) == [0] + Leb(index) + [] && [] + post == post;
      NumbersReadBack(index, post);
    case Table(reftype, bounds) =>
      HeadOff(1, [reftype], EncodeBounds(bounds), post);
      assert EncodeKind(k) == [1] + [reftype] + EncodeBounds(bounds);
      assert ([reftype] + (EncodeBounds(bounds) + post))[1..] == EncodeBounds(bounds) + post;
      BoundsReadBack(bounds, post);
    case Memory(bounds) =>
      HeadOff(2, EncodeBounds(bounds), [], post);
      assert EncodeKind(k) == [2] + EncodeBounds(bounds) + [] && [] + post == post;
      BoundsReadBack(bounds, post);
    case Global(valtype, mutability) =>
      HeadOff(3, [valtype], [mutability], post);
      assert EncodeKind(k) == [3] + [valtype] + [mutability];
      assert ([valtype] + ([mutability] + post))[1..] == [mutability] + post;
      assert ([mutability] + post)[1..] == post;
  }

  lemma ImportReadsBack(i: Import, post: Bytes)
    requires IsImportOk(i)
    ensures OneImport(EncodeImport(i) + post) == Parsed(i.pair, post)
  {
    var afterField := EncodeKind(i.kind) + post;
    var afterFrom := EncodeName(i.pair.field) + afterField;
    assert EncodeImport(i) + post == EncodeName(i.pair.from) + afterFrom;
    NameReadsBack(i.pair.from, afterFrom);
    NameReadsBack(i.pair.field, afterField);
    KindReadsBack(i.kind, post);
  }

  lemma {:induction false} ImportsReadBack(entries: seq<Import>, post: Bytes)
    requires forall i :: 0 <= i < |entries| ==> IsImportOk(entries[i])
    ensures Imports(EncodeImports(entries) + post, |entries|) == Parsed(Pairs(entries), post)
  {
    if entries == [] {
      assert [] + post == post;
    } else {
      var rest := EncodeImports(entries[1..]) + post;
      assert EncodeImports(entries) + post == EncodeImport(entries[0]) + rest;
      ImportReadsBack(entries[0], rest);
      ImportsReadBack(entries[1..], post);
    }
  }

  lemma ImportSectionReadsBack(entries: seq<Import>, post: Bytes)
    requires |entries| < LIMIT && forall i :: 0 <= i < |entries| ==> IsImportOk(entries[i])
    ensures ImportSection(Payload(ImportsOf(entries)) + post) == Parsed(Pairs(entries), post)
  {
    PayloadSplits(entries, post);
    CountReadsBack(|entries|, EncodeImports(entries) + post);
    ImportsReadBack(entries, post);
  }

  lemma PayloadSplits(entries: seq<Import>, post: Bytes)
    ensures Payload(ImportsOf(entries)) + post == Leb(|entries|) + (EncodeImports(entries) + post)
  {
    TwoParts(Leb(|entries|), EncodeImports(entries), post);
  }

  lemma TwoParts(a: Bytes, b: Bytes, rest: Bytes)
    ensures (a + b) + rest == a + (b + rest)
  {
  }

  lemma CountReadsBack(count: nat, body: Bytes)
    requires count < LIMIT
    ensures ImportSection(Leb(count) + body) == Imports(body, count)
  {
    NumbersReadBack(count, body);
    assert Varuint(Leb(count) + body) == Parsed(count, body);
  }

  /** A module's import pairs in order, unless it has a second import section. */
  function PairsOf(m: seq<Section>, seen: bool): (r: Result<seq<Pair>, Fault>) {
    if m == [] then Ok([])
    else if m[0].AnyOther? then PairsOf(m[1..], seen)
    else if seen then Err(DuplicateSection)
    else
      var more := PairsOf(m[1..], true);
      if more.Err? then more else Ok(Pairs(m[0].imports) + more.value)
  }

  /** The head of a section: its id and size read back, and the size ends exactly where the next section starts. */
  lemma SectionHeadReadsBack(s: Section, after: Bytes)
    requires IsSectionOk(s)
    ensures var ahead := EncodeSection(s) + after;
            && ahead[0] == (if s.ImportsOf? then 2 else s.id)
            && Varuint(ahead[1..]) == Parsed(|Payload(s)|, Payload(s) + after)
            && (Payload(s) + after)[|Payload(s)|..] == after
  {
    HeadOff(if s.ImportsOf? then 2 else s.id, Leb(|Payload(s)|), Payload(s), after);
    NumbersReadBack(|Payload(s)|, Payload(s) + after);
  }

  lemma {:induction false} SectionsReadBack(m: seq<Section>, seen: bool)
    requires forall i :: 0 <= i < |m| ==> IsSectionOk(m[i])
    ensures Sections(EncodeSections(m), seen) == PairsOf(m, seen)
  {
    if m != [] {
      var after := EncodeSections(m[1..]);
      SectionHeadReadsBack(m[0], after);
      SectionsReadBack(m[1..], m[0].ImportsOf? || seen);
      if m[0].ImportsOf? {
        ImportSectionReadsBack(m[0].imports, after);
      }
    }
  }

  /**
    Reading inverts encoding: for every module whose numbers fit the reader's limit,
    the reader reports exactly its import pairs, in order, and refuses a module with a
    second import section.
   */
  lemma ModuleReadsBack(m: seq<Section>)
    requires forall i :: 0 <= i < |m| ==> IsSectionOk(m[i])
    ensures ReadImports(EncodeModule(m)) == PairsOf(m, false)
  {
    var data := EncodeModule(m);
    assert data[..4] == MAGIC && data[4..8] == VERSION && data[8..] == EncodeSections(m);
    SectionsReadBack(m, false);
  }
}
