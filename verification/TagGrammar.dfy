/** A whole stash tag: a name, then parts in any order. */
module TagGrammar {
  import opened Prelude
  import opened TagText
  import opened IndexGrammar

  datatype Verb = Passthrough | Encrypt | EncryptIndex | IndexOnly | EncryptInto | ContextField

  datatype Tag =
    | Omit
    | Context(context: string, unread: bool)
    | Field(name: string, verb: Verb, indexes: seq<Index>, eqlType: string)

  /** What one part after the name says. */
  datatype Part =
    | SaysEncrypt
    | SaysPassthrough
    | SaysContextField
    | SaysInto(eqlType: string)
    | SaysIndex(indexes: seq<Index>)
    | Refused

  /** What the parts so far have said. */
  datatype Seen = Seen(encrypt: bool, passthrough: bool, contextField: bool,
                       into: Option<string>, index: Option<seq<Index>>)

  const NOTHING := Seen(false, false, false, None, None)

  predicate HasPrefix(s: string, prefix: string) { |prefix| <= |s| && s[..|prefix|] == prefix }

  function Classify(item: string): (p: Part) {
    if item == "encrypt" then SaysEncrypt
    else if item == "passthrough" then SaysPassthrough
    else if item == "context_field" then SaysContextField
    else if HasPrefix(item, "encrypt_into=") then
      (if IsIdent(item[13..]) then SaysInto(item[13..]) else Refused)
    else if HasPrefix(item, "index=") then
      var indexes := IndexesOf(item[6..]);
      if indexes.None? then Refused else SaysIndex(indexes.value)
    else Refused
  }

  /** One part more; a part of a kind already seen is refused. */
  function Heard(s: Seen, p: Part): (r: Option<Seen>) {
    match p
    case SaysEncrypt => if s.encrypt then None else Some(s.(encrypt := true))
    case SaysPassthrough => if s.passthrough then None else Some(s.(passthrough := true))
    case SaysContextField => if s.contextField then None else Some(s.(contextField := true))
    case SaysInto(e) => if s.into.Some? then None else Some(s.(into := Some(e)))
    case SaysIndex(x) => if s.index.Some? then None else Some(s.(index := Some(x)))
    case Refused => None
  }

  function HeardAll(f: string -> Part, items: seq<string>): (r: Option<Seen>) {
    if items == [] then Some(NOTHING)
    else
      var before := HeardAll(f, items[..|items| - 1]);
      if before.None? then None else Heard(before.value, f(items[|items| - 1]))
  }

  /** The verb the parts add up to, and the tag. */
  function Conclude(name: string, s: Seen): (r: Option<Tag>) {
    if s.contextField then
      if s.encrypt || s.into.Some? || s.index.Some? || s.passthrough || name == [] then None
      else Some(Field(name, ContextField, [], []))
    else if s.passthrough then
      if s.encrypt || s.into.Some? || s.index.Some? then None else Some(Field(name, Passthrough, [], []))
    else if name == [] then None
    else if s.into.Some? then
      if s.encrypt || s.index.Some? then None else Some(Field(name, EncryptInto, [], s.into.value))
    else if s.index.Some? then
      Some(Field(name, if s.encrypt then EncryptIndex else IndexOnly, s.index.value, []))
    else if s.encrypt then Some(Field(name, Encrypt, [], []))
    else None
  }

  predicate IsName(s: string) { Free(s, '=') && Free(s, '(') && Free(s, ')') && Free(s, ';') }

  function ContextTag(items: seq<string>): (r: Option<Tag>)
    requires items != [] && HasPrefix(items[0], "context=")
  {
    var context := items[0][8..];
    if context == [] then None
    else if |items| == 1 then Some(Context(context, false))
    else if items[1..] == ["opaque"] then Some(Context(context, true))
    else None
  }

  function TagOfItems(items: seq<string>): (r: Option<Tag>)
    requires items != []
  {
    if HasPrefix(items[0], "context=") then ContextTag(items)
    else if !IsName(items[0]) then None
    else
      var seen := HeardAll(Classify, items[1..]);
      if seen.None? then None else Conclude(items[0], seen.value)
  }

  function TagOf(value: string): (r: Option<Tag>) {
    if value == "-" then Some(Omit)
    else
      var items := Split(value, ',');
      if items.None? then None else TagOfItems(items.value)
  }

  // ----- the loops -----

  /** The loop over the parts of a context tag. */
  method ParseContextTag(items: seq<string>) returns (r: Option<Tag>)
    requires items != [] && HasPrefix(items[0], "context=")
    ensures r == ContextTag(items)
  {
    var context, unread := items[0][8..], false;
    if context == [] {
      return None;
    }
    for i := 1 to |items|
      invariant unread == (i > 1) && i <= 2
      invariant unread ==> items[1] == "opaque"
    {
      if items[i] != "opaque" || unread {
        assert items[1..][i - 1] == items[i];
        return None;
      }
      unread := true;
    }
    if unread { assert items[1..] == ["opaque"]; }
    return Some(Context(context, unread));
  }

  lemma HeardNext(f: string -> Part, items: seq<string>, i: nat)
    requires i < |items|
    ensures HeardAll(f, items[..i + 1]) ==
            if HeardAll(f, items[..i]).None? then None else Heard(HeardAll(f, items[..i]).value, f(items[i]))
  {
    assert items[..i + 1][..i] == items[..i];
  }

  lemma {:induction false} RefusedStays(f: string -> Part, items: seq<string>, i: nat)
    requires i <= |items| && HeardAll(f, items[..i]).None?
    ensures HeardAll(f, items).None?
    decreases |items| - i
  {
    if i < |items| {
      HeardNext(f, items, i);
      RefusedStays(f, items, i + 1);
    } else {
      assert items[..i] == items;
    }
  }

  /** The loop over the parts after the name, with what has been seen. */
  method ReadParts(items: seq<string>) returns (r: Option<Seen>)
    ensures r == HeardAll(Classify, items)
  {
    var sawEncrypt, sawPassthrough, sawContextField := false, false, false;
    var into: Option<string>, index: Option<seq<Index>> := None, None;
    for i := 0 to |items|
      invariant HeardAll(Classify, items[..i]) == Some(Seen(sawEncrypt, sawPassthrough, sawContextField, into, index))
    {
      HeardNext(Classify, items, i);
      var part := Classify(items[i]);
      if Repeats(part, sawEncrypt, sawPassthrough, sawContextField, into.Some?, index.Some?) {
        RefusedStays(Classify, items, i + 1);
        return None;
      }
      match part
      case SaysEncrypt => sawEncrypt := true;
      case SaysPassthrough => sawPassthrough := true;
      case SaysContextField => sawContextField := true;
      case SaysInto(e) => into := Some(e);
      case SaysIndex(x) => index := Some(x);
    }
    assert items[..|items|] == items;
    return Some(Seen(sawEncrypt, sawPassthrough, sawContextField, into, index));
  }

  /** A part that cannot be taken: refused outright, or given before. */
  predicate Repeats(p: Part, encrypt: bool, passthrough: bool, contextField: bool, into: bool, index: bool) {
    match p
    case SaysEncrypt => encrypt
    case SaysPassthrough => passthrough
    case SaysContextField => contextField
    case SaysInto(_) => into
    case SaysIndex(_) => index
    case Refused => true
  }

  method ParseTagValue(value: string) returns (r: Option<Tag>)
    ensures r == TagOf(value)
  {
    if value == "-" {
      return Some(Omit);
    }
    var items := SplitOutsideParens(value, ',');
    if items.None? {
      return None;
    }
    if HasPrefix(items.value[0], "context=") {
      r := ParseContextTag(items.value);
      return;
    }
    if !IsName(items.value[0]) {
      return None;
    }
    var seen := ReadParts(items.value[1..]);
    return if seen.None? then None else Conclude(items.value[0], seen.value);
  }

  // ----- the order of the parts is free -----

  predicate SameKind(p: Part, q: Part) {
    match p
    case SaysEncrypt => q.SaysEncrypt?
    case SaysPassthrough => q.SaysPassthrough?
    case SaysContextField => q.SaysContextField?
    case SaysInto(_) => q.SaysInto?
    case SaysIndex(_) => q.SaysIndex?
    case Refused => q.Refused?
  }

  /** No part is refused, and no two parts are of one kind. */
  ghost predicate OneOfEach(f: string -> Part, ms: multiset<string>) {
    && (forall x :: x in ms ==> !f(x).Refused? && ms[x] == 1)
    && forall x, y :: x in ms && y in ms && SameKind(f(x), f(y)) ==> x == y
  }

  ghost predicate Says(f: string -> Part, ms: multiset<string>, p: Part) {
    exists x :: x in ms && f(x) == p
  }

  /** The record holds what the parts say, whatever their order. */
  ghost predicate Describes(f: string -> Part, ms: multiset<string>, s: Seen) {
    && (s.encrypt <==> Says(f, ms, SaysEncrypt))
    && (s.passthrough <==> Says(f, ms, SaysPassthrough))
    && (s.contextField <==> Says(f, ms, SaysContextField))
    && (forall e :: s.into == Some(e) <==> Says(f, ms, SaysInto(e)))
    && forall x :: s.index == Some(x) <==> Says(f, ms, SaysIndex(x))
  }

  lemma OneMore(f: string -> Part, ms: multiset<string>, x: string)
    ensures OneOfEach(f, ms + multiset{x}) <==>
            OneOfEach(f, ms) && !f(x).Refused? && forall y :: y in ms ==> !SameKind(f(y), f(x))
  {
    var more := ms + multiset{x};
    assert forall y :: y in more <==> y in ms || y == x;
    assert more[x] == ms[x] + 1;
    if OneOfEach(f, more) {
      forall y | y in ms ensures more[y] == ms[y] && !SameKind(f(y), f(x)) {
        assert y in more && x in more;
      }
    }
  }

  lemma SaysMore(f: string -> Part, ms: multiset<string>, x: string, p: Part)
    ensures Says(f, ms + multiset{x}, p) <==> Says(f, ms, p) || f(x) == p
  {
    var more := ms + multiset{x};
    if Says(f, ms, p) {
      var y :| y in ms && f(y) == p;
      assert y in more;
    }
    if f(x) == p { assert x in more; }
  }

  lemma HeardDescribes(f: string -> Part, ms: multiset<string>, s: Seen, x: string)
    requires Describes(f, ms, s) && Heard(s, f(x)).Some?
    ensures Describes(f, ms + multiset{x}, Heard(s, f(x)).value)
  {
    forall p ensures Says(f, ms + multiset{x}, p) <==> Says(f, ms, p) || f(x) == p {
      SaysMore(f, ms, x, p);
    }
  }

  lemma HeardIffNew(f: string -> Part, ms: multiset<string>, s: Seen, x: string)
    requires Describes(f, ms, s)
    ensures Heard(s, f(x)).Some? <==> !f(x).Refused? && forall y :: y in ms ==> !SameKind(f(y), f(x))
  {
    if Heard(s, f(x)).Some? {
      forall y | y in ms ensures !SameKind(f(y), f(x)) { assert Says(f, ms, f(y)); }
    } else if !f(x).Refused? {
      var p := match f(x)
        case SaysInto(_) => SaysInto(s.into.value)
        case SaysIndex(_) => SaysIndex(s.index.value)
        case _ => f(x);
      assert Says(f, ms, p);
      var y :| y in ms && f(y) == p;
      assert SameKind(f(y), f(x));
    }
  }

  /** Reading the parts one by one accepts exactly one of each kind, and records what they say. */
  lemma {:induction false} PartsAreASet(f: string -> Part, items: seq<string>)
    ensures HeardAll(f, items).Some? <==> OneOfEach(f, multiset(items))
    ensures HeardAll(f, items).Some? ==> Describes(f, multiset(items), HeardAll(f, items).value)
  {
    if items != [] {
      var rest, x := items[..|items| - 1], items[|items| - 1];
      assert items == rest + [x];
      assert multiset(items) == multiset(rest) + multiset{x};
      PartsAreASet(f, rest);
      OneMore(f, multiset(rest), x);
      if HeardAll(f, rest).Some? {
        HeardIffNew(f, multiset(rest), HeardAll(f, rest).value, x);
        if HeardAll(f, items).Some? { HeardDescribes(f, multiset(rest), HeardAll(f, rest).value, x); }
      }
    }
  }

  lemma OneDescription(f: string -> Part, ms: multiset<string>, s: Seen, t: Seen)
    requires Describes(f, ms, s) && Describes(f, ms, t)
    ensures s == t
  {
    if s.into.Some? { assert Says(f, ms, SaysInto(s.into.value)); }
    if t.into.Some? { assert Says(f, ms, SaysInto(t.into.value)); }
    if s.index.Some? { assert Says(f, ms, SaysIndex(s.index.value)); }
    if t.index.Some? { assert Says(f, ms, SaysIndex(t.index.value)); }
  }

  lemma HeardInAnyOrder(f: string -> Part, a: seq<string>, b: seq<string>)
    requires multiset(a) == multiset(b)
    ensures HeardAll(f, a) == HeardAll(f, b)
  {
    PartsAreASet(f, a);
    PartsAreASet(f, b);
    if HeardAll(f, a).Some? {
      OneDescription(f, multiset(a), HeardAll(f, a).value, HeardAll(f, b).value);
    }
  }

  lemma OnlyOne(a: seq<string>, b: seq<string>)
    requires multiset(a) == multiset(b) && |a| <= 1
    ensures a == b
  {
    assert |multiset(a)| == |a| && |multiset(b)| == |b|;
    if |a| == 1 { assert b[0] in multiset(a); }
  }

  lemma ItemsInAnyOrder(name: string, a: seq<string>, b: seq<string>)
    requires multiset(a) == multiset(b)
    ensures TagOfItems([name] + a) == TagOfItems([name] + b)
  {
    assert ([name] + a)[1..] == a && ([name] + b)[1..] == b;
    if |a| <= 1 { OnlyOne(a, b); }
    if |b| <= 1 { OnlyOne(b, a); }
    HeardInAnyOrder(Classify, a, b);
  }

  /** A tag means the same however the parts after its name are ordered. */
  lemma OrderIsFree(name: string, a: seq<string>, b: seq<string>)
    requires multiset(a) == multiset(b)
    requires IsPart(name, ',') && forall i :: 0 <= i < |a| ==> IsPart(a[i], ',')
    ensures TagOf(Join([name] + a, ',')) == TagOf(Join([name] + b, ','))
  {
    forall i | 0 <= i < |b| ensures IsPart(b[i], ',') {
      assert b[i] in multiset(a);
    }
    SplitOfJoin([name] + a, ',');
    SplitOfJoin([name] + b, ',');
    ItemsInAnyOrder(name, a, b);
    if a == [] { OnlyOne(a, b); } else { NotADash([name] + a); NotADash([name] + b); }
  }

  lemma NotADash(items: seq<string>)
    requires |items| > 1
    ensures Join(items, ',') != "-"
  {
    assert Join(items, ',')[|items[0]|] == ',';
  }

  // ----- what an accepted tag holds -----

  predicate IsWellFormed(t: Tag) {
    match t
    case Omit => true
    case Context(context, _) => context != []
    case Field(name, verb, indexes, eqlType) =>
      && IsName(name) && Free(name, ',') && (name == [] ==> verb.Passthrough?)
      && (indexes != [] <==> verb.EncryptIndex? || verb.IndexOnly?) && NamesDiffer(indexes)
      && (eqlType != [] <==> verb.EncryptInto?) && (eqlType != [] ==> IsIdent(eqlType))
  }

  ghost predicate SeenIsSound(s: Seen) {
    && (s.into.Some? ==> IsIdent(s.into.value))
    && (s.index.Some? ==> s.index.value != [] && NamesDiffer(s.index.value))
  }

  lemma ClassifySound(item: string, s: Seen)
    requires SeenIsSound(s) && Heard(s, Classify(item)).Some?
    ensures SeenIsSound(Heard(s, Classify(item)).value)
  {
  }

  lemma {:induction false} HeardIsSound(items: seq<string>)
    requires HeardAll(Classify, items).Some?
    ensures SeenIsSound(HeardAll(Classify, items).value)
  {
    if items != [] {
      HeardIsSound(items[..|items| - 1]);
      ClassifySound(items[|items| - 1], HeardAll(Classify, items[..|items| - 1]).value);
    }
  }

  lemma {:induction false} NameHasNoComma(name: string)
    requires IsPart(name, ',') && Free(name, '(') && Free(name, ')')
    ensures Free(name, ',')
  {
    if name != [] {
      NameHasNoComma(name[1..]);
      assert forall i :: 0 < i < |name| ==> name[i] == name[1..][i - 1];
    }
  }

  /** An index list goes only with an indexing verb, an EQL type only with `encrypt_into`, no name only with `passthrough`. */
  lemma AcceptedTagsAreWellFormed(value: string)
    requires TagOf(value).Some?
    ensures IsWellFormed(TagOf(value).value)
  {
    if value != "-" {
      var items := Split(value, ',').value;
      if !HasPrefix(items[0], "context=") {
        SplitIsExact(value, ',');
        FieldTagsAreWellFormed(items);
      }
    }
  }

  lemma FieldTagsAreWellFormed(items: seq<string>)
    requires items != [] && !HasPrefix(items[0], "context=") && TagOfItems(items).Some? && IsPart(items[0], ',')
    ensures IsWellFormed(TagOfItems(items).value)
  {
    HeardIsSound(items[1..]);
    if IsName(items[0]) { NameHasNoComma(items[0]); }
  }

  /** The parts said name a verb: the six sets of parts that do, and no other. */
  ghost predicate NamesAVerb(name: string, f: string -> Part, ms: multiset<string>) {
    var enc, idx, into := Says(f, ms, SaysEncrypt), SomeIndex(f, ms), SomeInto(f, ms);
    var pass, ctx := Says(f, ms, SaysPassthrough), Says(f, ms, SaysContextField);
    || (pass && !enc && !idx && !into && !ctx)
    || (name != [] && ctx && !enc && !idx && !into && !pass)
    || (name != [] && into && !enc && !idx && !pass && !ctx)
    || (name != [] && (enc || idx) && !into && !pass && !ctx)
  }

  ghost predicate SomeIndex(f: string -> Part, ms: multiset<string>) { exists x :: x in ms && f(x).SaysIndex? }

  ghost predicate SomeInto(f: string -> Part, ms: multiset<string>) { exists x :: x in ms && f(x).SaysInto? }

  /** A field tag is accepted exactly when its parts are one of each kind and name a verb. */
  lemma FieldTagIsExact(name: string, items: seq<string>)
    requires IsName(name) && !HasPrefix(name, "context=")
    ensures TagOfItems([name] + items).Some? <==>
            OneOfEach(Classify, multiset(items)) && NamesAVerb(name, Classify, multiset(items))
  {
    assert ([name] + items)[1..] == items;
    PartsAreASet(Classify, items);
    var seen := HeardAll(Classify, items);
    if seen.Some? { VerbFromParts(name, Classify, multiset(items), seen.value); }
  }

  lemma VerbFromParts(name: string, f: string -> Part, ms: multiset<string>, s: Seen)
    requires Describes(f, ms, s)
    ensures Conclude(name, s).Some? <==> NamesAVerb(name, f, ms)
  {
    if s.into.Some? { assert Says(f, ms, SaysInto(s.into.value)); }
    if SomeInto(f, ms) {
      var x :| x in ms && f(x).SaysInto?;
      assert Says(f, ms, SaysInto(f(x).eqlType));
    }
    if s.index.Some? { assert Says(f, ms, SaysIndex(s.index.value)); }
    if SomeIndex(f, ms) {
      var x :| x in ms && f(x).SaysIndex?;
      assert Says(f, ms, SaysIndex(f(x).indexes));
    }
  }
}
