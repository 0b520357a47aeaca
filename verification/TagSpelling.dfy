/**
  What the words of a stash tag mean. Each word is written out beside what it says, and a
  spelling of every tag, independent of the parser, is read back as that tag.
 */
module TagSpelling {
  import opened Prelude
  import opened TagText
  import opened IndexGrammar
  import opened TagGrammar

  // ----- the words -----

  lemma WordsSay()
    ensures Classify("encrypt") == SaysEncrypt
    ensures Classify("passthrough") == SaysPassthrough
    ensures Classify("context_field") == SaysContextField
  {
  }

  lemma AfterPrefix(prefix: string, rest: string)
    ensures HasPrefix(prefix + rest, prefix) && (prefix + rest)[|prefix|..] == rest
  {
  }

  lemma IntoSays(eqlType: string)
    ensures Classify("encrypt_into=" + eqlType) == if IsIdent(eqlType) then SaysInto(eqlType) else Refused
  {
    var item := "encrypt_into=" + eqlType;
    AfterPrefix("encrypt_into=", eqlType);
    assert |item| >= 13 && item[12] == '=';
  }

  lemma IndexSays(list: string)
    ensures Classify("index=" + list) == if IndexesOf(list).Some? then SaysIndex(IndexesOf(list).value) else Refused
  {
    var item := "index=" + list;
    AfterPrefix("index=", list);
    assert item[0] == 'i';
  }

  /** Nothing else is a part. */
  lemma OnlyTheseSay(item: string)
    requires !Classify(item).Refused?
    ensures || item == "encrypt" || item == "passthrough" || item == "context_field"
            || (exists eqlType :: IsIdent(eqlType) && item == "encrypt_into=" + eqlType)
            || (exists list :: IndexesOf(list).Some? && item == "index=" + list)
  {
    if HasPrefix(item, "encrypt_into=") {
      assert item == "encrypt_into=" + item[13..];
    } else if HasPrefix(item, "index=") {
      assert item == "index=" + item[6..];
    }
  }

  lemma ContextIsNoName(s: string)
    requires HasPrefix(s, "context=")
    ensures !IsName(s)
  {
    assert s[..8][7] == '=' && s[7] == '=';
  }

  lemma NameIsNoContext(name: string)
    requires IsName(name)
    ensures !HasPrefix(name, "context=")
  {
    if HasPrefix(name, "context=") { ContextIsNoName(name); }
  }

  // ----- what each field tag means -----

  lemma OneItem(f: string -> Part, item: string)
    ensures HeardAll(f, [item]) == Heard(NOTHING, f(item))
  {
    assert [item][..0] == [];
  }

  lemma TwoItems(f: string -> Part, first: string, second: string)
    ensures HeardAll(f, [first, second]) ==
            if Heard(NOTHING, f(first)).None? then None else Heard(Heard(NOTHING, f(first)).value, f(second))
  {
    OneItem(f, first);
    assert [first, second][..1] == [first];
  }

  lemma TagOfOne(name: string, item: string)
    requires IsName(name)
    ensures TagOfItems([name, item]) ==
            var seen := Heard(NOTHING, Classify(item)); if seen.None? then None else Conclude(name, seen.value)
  {
    NameIsNoContext(name);
    OneItem(Classify, item);
    assert [name, item][1..] == [item];
  }

  /** A field that is named is stored, sealed, or the context, as its one word says. */
  lemma PlainVerbs(name: string)
    requires IsName(name) && name != []
    ensures TagOfItems([name, "encrypt"]) == Some(Field(name, Encrypt, [], []))
    ensures TagOfItems([name, "passthrough"]) == Some(Field(name, Passthrough, [], []))
    ensures TagOfItems([name, "context_field"]) == Some(Field(name, ContextField, [], []))
  {
    WordsSay();
    TagOfOne(name, "encrypt");
    TagOfOne(name, "passthrough");
    TagOfOne(name, "context_field");
  }

  /** `encrypt_into=` seals into the EQL type it names, and refuses what is no type name. */
  lemma IntoVerb(name: string, eqlType: string)
    requires IsName(name) && name != []
    ensures TagOfItems([name, "encrypt_into=" + eqlType]) ==
            if IsIdent(eqlType) then Some(Field(name, EncryptInto, [], eqlType)) else None
  {
    IntoSays(eqlType);
    TagOfOne(name, "encrypt_into=" + eqlType);
  }

  /** `index=` derives its indexes alone, and beside `encrypt` also seals. */
  lemma IndexVerbs(name: string, list: string)
    requires IsName(name) && name != []
    ensures TagOfItems([name, "index=" + list]) ==
            if IndexesOf(list).Some? then Some(Field(name, IndexOnly, IndexesOf(list).value, [])) else None
    ensures TagOfItems([name, "encrypt", "index=" + list]) ==
            if IndexesOf(list).Some? then Some(Field(name, EncryptIndex, IndexesOf(list).value, [])) else None
  {
    IndexSays(list);
    WordsSay();
    TagOfOne(name, "index=" + list);
    NameIsNoContext(name);
    TwoItems(Classify, "encrypt", "index=" + list);
    assert [name, "encrypt", "index=" + list][1..] == ["encrypt", "index=" + list];
  }

  /** A field without a name can only be passed through. */
  lemma NamelessVerb(item: string)
    ensures TagOfItems([[], item]) == if item == "passthrough" then Some(Field([], Passthrough, [], [])) else None
  {
    WordsSay();
    TagOfOne([], item);
  }

  /** A context tag names its context, and `opaque` is a flag on it. */
  lemma ContextVerbs(context: string)
    requires context != []
    ensures TagOfItems(["context=" + context]) == Some(Context(context, false))
    ensures TagOfItems(["context=" + context, "opaque"]) == Some(Context(context, true))
  {
    AfterPrefix("context=", context);
    assert ["context=" + context, "opaque"][1..] == ["opaque"];
  }

  // ----- a spelling of every tag -----

  function Parts(t: Tag): (r: seq<string>)
    requires t.Field? && (t.verb.EncryptIndex? || t.verb.IndexOnly? ==> t.indexes != [])
  {
    match t.verb
    case Passthrough => ["passthrough"]
    case Encrypt => ["encrypt"]
    case EncryptIndex => ["encrypt", "index=" + ListText(t.indexes)]
    case IndexOnly => ["index=" + ListText(t.indexes)]
    case EncryptInto => ["encrypt_into=" + t.eqlType]
    case ContextField => ["context_field"]
  }

  function Spelled(t: Tag): (r: string)
    requires IsWellFormed(t)
  {
    match t
    case Omit => "-"
    case Context(context, unread) => Join(if unread then ["context=" + context, "opaque"] else ["context=" + context], ',')
    case Field(name, _, _, _) => Join([name] + Parts(t), ',')
  }

  /** Tags whose texts can stand in a tag: no comma outside parentheses, and indexes as the list grammar has them. */
  ghost predicate IsWritable(t: Tag) {
    && IsWellFormed(t)
    && (t.Context? ==> IsPart("context=" + t.context, ','))
    && (t.Field? ==> IsPart(t.name, ','))
    && (t.Field? && t.indexes != [] ==>
          IndexesOf(ListText(t.indexes)) == Some(t.indexes) && IsPart("index=" + ListText(t.indexes), ','))
  }

  lemma {:induction false} PlainIsPart(s: string)
    requires Free(s, '(') && Free(s, ')') && Free(s, ',')
    ensures IsPart(s, ',')
  {
    if s != [] { PlainIsPart(s[1..]); }
  }

  lemma IntoIsPart(eqlType: string)
    requires IsIdent(eqlType)
    ensures IsPart("encrypt_into=" + eqlType, ',')
  {
    PlainIsPart("encrypt_into=" + eqlType);
  }

  lemma PartsAreParts(t: Tag)
    requires t.Field? && IsWritable(t)
    ensures forall i :: 0 <= i < |Parts(t)| ==> IsPart(Parts(t)[i], ',')
  {
    if t.verb.EncryptInto? {
      IntoIsPart(t.eqlType);
    } else if !t.verb.IndexOnly? {
      WordIsPart(t);
    }
  }

  lemma WordIsPart(t: Tag)
    requires t.Field? && IsWellFormed(t) && !t.verb.EncryptInto? && !t.verb.IndexOnly?
    ensures IsPart(Parts(t)[0], ',')
  {
    PlainIsPart(Parts(t)[0]);
  }

  lemma FieldMeans(t: Tag)
    requires t.Field? && IsWritable(t)
    ensures TagOfItems([t.name] + Parts(t)) == Some(t)
  {
    if t.name == [] {
      NamelessVerb("passthrough");
      assert [t.name] + Parts(t) == [[], "passthrough"];
    } else if t.verb.EncryptInto? {
      IntoVerb(t.name, t.eqlType);
      assert [t.name] + Parts(t) == [t.name, "encrypt_into=" + t.eqlType];
    } else if t.indexes != [] {
      IndexVerbs(t.name, ListText(t.indexes));
      assert [t.name] + ["index=" + ListText(t.indexes)] == [t.name, "index=" + ListText(t.indexes)];
      assert [t.name] + ["encrypt", "index=" + ListText(t.indexes)] == [t.name, "encrypt", "index=" + ListText(t.indexes)];
    } else {
      PlainVerbs(t.name);
      assert [t.name] + Parts(t) == [t.name, Parts(t)[0]];
    }
  }

  /** Every tag that can be written is read back from its spelling. */
  lemma TagReadsBack(t: Tag)
    requires IsWritable(t)
    ensures TagOf(Spelled(t)) == Some(t)
  {
    match t
    case Omit =>
    case Context(context, unread) =>
      var items := if unread then ["context=" + context, "opaque"] else ["context=" + context];
      if unread { PlainIsPart(items[1]); }
      SplitOfJoin(items, ',');
      ContextVerbs(context);
      ContextIsNoDash(items, context);
    case Field(name, _, _, _) =>
      PartsAreParts(t);
      SplitOfJoin([name] + Parts(t), ',');
      NotADash([name] + Parts(t));
      FieldMeans(t);
  }

  lemma ContextIsNoDash(items: seq<string>, context: string)
    requires items != [] && items[0] == "context=" + context
    ensures Join(items, ',') != "-"
  {
    assert Join(items, ',')[0] == 'c';
  }

  lemma ContextIsWritable(items: seq<string>)
    requires items != [] && HasPrefix(items[0], "context=") && ContextTag(items).Some? && IsPart(items[0], ',')
    ensures var t := ContextTag(items).value; t.Context? && IsPart("context=" + t.context, ',')
  {
    assert items[0] == "context=" + items[0][8..];
  }

  lemma ConcludedTag(name: string, seen: Seen)
    requires Conclude(name, seen).Some?
    ensures var t := Conclude(name, seen).value;
            t.Field? && t.name == name && (t.indexes != [] ==> seen.index == Some(t.indexes))
  {
  }

  lemma FieldIsWritable(items: seq<string>)
    requires items != [] && !HasPrefix(items[0], "context=") && TagOfItems(items).Some?
    requires forall i :: 0 <= i < |items| ==> IsPart(items[i], ',')
    ensures var t := TagOfItems(items).value;
            && t.Field? && IsPart(t.name, ',')
            && (t.indexes != [] ==> IndexesOf(ListText(t.indexes)) == Some(t.indexes) && IsPart("index=" + ListText(t.indexes), ','))
  {
    var seen := HeardAll(Classify, items[1..]).value;
    ConcludedTag(items[0], seen);
    if TagOfItems(items).value.indexes != [] { IndexesAreWritable(items[1..], TagOfItems(items).value.indexes); }
  }

  /** A tag that was read can be written. */
  lemma ReadIsWritable(value: string)
    requires TagOf(value).Some?
    ensures IsWritable(TagOf(value).value)
  {
    AcceptedTagsAreWellFormed(value);
    if value != "-" {
      var items := Split(value, ',').value;
      SplitIsExact(value, ',');
      if HasPrefix(items[0], "context=") { ContextIsWritable(items); } else { FieldIsWritable(items); }
    }
  }

  lemma IndexesAreWritable(items: seq<string>, indexes: seq<Index>)
    requires HeardAll(Classify, items).Some? && HeardAll(Classify, items).value.index == Some(indexes)
    requires forall i :: 0 <= i < |items| ==> IsPart(items[i], ',')
    ensures indexes != [] && IndexesOf(ListText(indexes)) == Some(indexes) && IsPart("index=" + ListText(indexes), ',')
  {
    PartsAreASet(Classify, items);
    assert Says(Classify, multiset(items), SaysIndex(indexes));
    var item :| item in multiset(items) && Classify(item) == SaysIndex(indexes);
    assert item in items;
    IndexItem(item, indexes);
    ListReprints(item[6..], indexes);
    ListKeepsDepth(item[6..], indexes, ',');
    SameDepthJoins("index=", "index=", item[6..], ListText(indexes), ',');
  }

  lemma IndexItem(item: string, indexes: seq<Index>)
    requires Classify(item) == SaysIndex(indexes)
    ensures |item| >= 6 && item == "index=" + item[6..] && IndexesOf(item[6..]) == Some(indexes)
  {
  }

  /** Every tag that is read is read again, as the same tag, from its spelling. */
  lemma TagRespells(value: string)
    requires TagOf(value).Some?
    ensures IsWellFormed(TagOf(value).value) && TagOf(Spelled(TagOf(value).value)) == TagOf(value)
  {
    ReadIsWritable(value);
    TagReadsBack(TagOf(value).value);
  }
}
