/** The index part of a stash tag, `equality;match(k=3,m=2048)`: its parser and its printer. */
module IndexGrammar {
  import opened Prelude
  import opened TagText

  datatype IndexName = Equality | Match | Ore | Ope | Json

  datatype Setting = Setting(key: string, value: string)

  datatype Index = Index(name: IndexName, settings: seq<Setting>)

  function Word(n: IndexName): (r: string) {
    match n
    case Equality => "equality"
    case Match => "match"
    case Ore => "ore"
    case Ope => "ope"
    case Json => "json"
  }

  function KnownIndex(word: string): (r: Option<IndexName>)
    ensures r.Some? ==> word == Word(r.value)
  {
    if word == "equality" then Some(Equality)
    else if word == "match" then Some(Match)
    else if word == "ore" then Some(Ore)
    else if word == "ope" then Some(Ope)
    else if word == "json" then Some(Json)
    else None
  }

  predicate IsLetter(c: char) { c == '_' || 'a' <= c <= 'z' || 'A' <= c <= 'Z' }

  predicate IsIdent(s: string) {
    && s != []
    && forall i :: 0 <= i < |s| ==> IsLetter(s[i]) || ('0' <= s[i] <= '9' && i > 0)
  }

  /** By ASCII code: a letter or an underscore, then these or digits. */
  lemma IdentsByCode(c: char)
    ensures IsIdent([c]) <==> c as int == 95 || 65 <= c as int <= 90 || 97 <= c as int <= 122
    ensures IsIdent(['x', c]) <==> c as int == 95 || 65 <= c as int <= 90 || 97 <= c as int <= 122 || 48 <= c as int <= 57
  {
    assert IsIdent([c]) <==> IsLetter([c][0]);
    assert IsIdent(['x', c]) <==> IsLetter(['x', c][1]) || '0' <= ['x', c][1] <= '9';
  }

  /** An identifier goes on with anything that can follow its first character. */
  lemma IdentsGoOn(s: string, c: char)
    requires s != []
    ensures IsIdent(s + [c]) <==> IsIdent(s) && IsIdent(['x', c])
  {
    var t := s + [c];
    assert t[|s|] == c && forall i :: 0 <= i < |s| ==> t[i] == s[i];
    assert IsIdent(['x', c]) <==> IsLetter(['x', c][1]) || '0' <= ['x', c][1] <= '9';
  }

  // ----- parsing -----

  function SettingOf(opt: string): (r: Option<Setting>) {
    var i := Find(opt, '=');
    var key := opt[..i];
    if !IsIdent(key) then None else Some(Setting(key, if i == |opt| then [] else opt[i + 1..]))
  }

  function SettingsOf(opts: seq<string>): (r: Option<seq<Setting>>)
    ensures r.Some? <==> forall i :: 0 <= i < |opts| ==> SettingOf(opts[i]).Some?
    ensures r.Some? ==> |r.value| == |opts| && forall i :: 0 <= i < |opts| ==> SettingOf(opts[i]) == Some(r.value[i])
  {
    if opts == [] then Some([])
    else
      var first, rest := SettingOf(opts[0]), SettingsOf(opts[1..]);
      assert forall i :: 0 < i < |opts| ==> opts[i] == opts[1..][i - 1];
      if first.None? || rest.None? then None else Some([first.value] + rest.value)
  }

  /** The word of an index, and the text between its parentheses. */
  function Body(part: string): (r: string)
    requires Find(part, '(') < |part| && part[|part| - 1] == ')'
  {
    part[Find(part, '(') + 1..|part| - 1]
  }

  function IndexOf(part: string): (r: Option<Index>) {
    var i := Find(part, '(');
    if i < |part| && part[|part| - 1] != ')' then None
    else if KnownIndex(part[..i]).None? then None
    else if i == |part| then Some(Index(KnownIndex(part).value, []))
    else if Body(part) == [] then None
    else
      var settings := SettingsOf(SplitAll(Body(part), ','));
      if settings.None? then None else Some(Index(KnownIndex(part[..i]).value, settings.value))
  }

  function AllIndexes(parts: seq<string>): (r: Option<seq<Index>>)
    ensures r.Some? ==> |r.value| == |parts|
  {
    if parts == [] then Some([])
    else
      var first, rest := IndexOf(parts[0]), AllIndexes(parts[1..]);
      if first.None? || rest.None? then None else Some([first.value] + rest.value)
  }

  predicate NamesDiffer(indexes: seq<Index>) {
    forall i, j :: 0 <= i < j < |indexes| ==> indexes[i].name != indexes[j].name
  }

  function IndexesOf(list: string): (r: Option<seq<Index>>)
    ensures r.Some? ==> r.value != [] && NamesDiffer(r.value)
  {
    var parts := Split(list, ';');
    if parts.None? then None
    else
      var indexes := AllIndexes(parts.value);
      if indexes.None? || !NamesDiffer(indexes.value) then None else indexes
  }

  /** The loop over the options in the parentheses of one index. */
  method ParseSettings(opts: seq<string>) returns (r: Option<seq<Setting>>)
    ensures r == SettingsOf(opts)
  {
    var settings := [];
    for k := 0 to |opts|
      invariant |settings| == k
      invariant forall j :: 0 <= j < k ==> SettingOf(opts[j]) == Some(settings[j])
    {
      var s := SettingOf(opts[k]);
      if s.None? {
        return None;
      }
      settings := settings + [s.value];
    }
    assert SettingsOf(opts).value == settings;
    return Some(settings);
  }

  method ParseIndex(part: string) returns (r: Option<Index>)
    ensures r == IndexOf(part)
  {
    if part == [] {
      return None;
    }
    var name, rest: string := part, [];
    var i := Find(part, '(');
    if i < |part| {
      if part[|part| - 1] != ')' {
        return None;
      }
      name, rest := part[..i], part[i + 1..|part| - 1];
    }
    var known := KnownIndex(name);
    if known.None? {
      return None;
    }
    if rest == [] {
      return if i < |part| then None else Some(Index(known.value, []));
    }
    var settings := ParseSettings(SplitAll(rest, ','));
    return if settings.None? then None else Some(Index(known.value, settings.value));
  }

  /** Refusing a name already seen, one index at a time. */
  function IndexesFrom(parts: seq<string>, seen: set<IndexName>): (r: Option<seq<Index>>) {
    if parts == [] then Some([])
    else
      var idx := IndexOf(parts[0]);
      if idx.None? || idx.value.name in seen then None
      else After([idx.value], IndexesFrom(parts[1..], seen + {idx.value.name}))
  }

  function After(done: seq<Index>, more: Option<seq<Index>>): (r: Option<seq<Index>>) {
    if more.None? then None else Some(done + more.value)
  }

  lemma AfterOne(done: seq<Index>, idx: Index, more: Option<seq<Index>>)
    ensures After(done + [idx], more) == After(done, After([idx], more))
  {
    if more.Some? { assert done + [idx] + more.value == done + ([idx] + more.value); }
  }

  ghost predicate NewNames(indexes: seq<Index>, seen: set<IndexName>) {
    NamesDiffer(indexes) && forall i :: 0 <= i < |indexes| ==> indexes[i].name !in seen
  }

  lemma NewNamesSplit(idx: Index, rest: seq<Index>, seen: set<IndexName>)
    ensures NewNames([idx] + rest, seen) <==> idx.name !in seen && NewNames(rest, seen + {idx.name})
  {
    var all := [idx] + rest;
    assert all[0] == idx && all[1..] == rest;
    assert forall i :: 0 <= i < |rest| ==> all[i + 1] == rest[i];
  }

  /** The names seen catch exactly the lists in which two indexes share a name. */
  lemma {:induction false} SeenCatchesDoubles(parts: seq<string>, seen: set<IndexName>)
    ensures var all := AllIndexes(parts);
            IndexesFrom(parts, seen) == if all.Some? && NewNames(all.value, seen) then all else None
  {
    if parts != [] && IndexOf(parts[0]).Some? {
      var idx, rest := IndexOf(parts[0]).value, AllIndexes(parts[1..]);
      SeenCatchesDoubles(parts[1..], seen + {idx.name});
      if rest.Some? { NewNamesSplit(idx, rest.value, seen); }
    }
  }

  /** The loop over the index list, with the names seen so far. */
  method ParseIndexes(list: string) returns (r: Option<seq<Index>>)
    ensures r == IndexesOf(list)
  {
    var parts := SplitOutsideParens(list, ';');
    if parts.None? {
      return None;
    }
    r := CollectIndexes(parts.value);
    SeenCatchesDoubles(parts.value, {});
  }

  method CollectIndexes(parts: seq<string>) returns (r: Option<seq<Index>>)
    ensures r == IndexesFrom(parts, {})
  {
    var indexes, seen: set<IndexName> := [], {};
    ghost var whole := IndexesFrom(parts, {});
    assert parts[0..] == parts && (whole.Some? ==> [] + whole.value == whole.value);
    for i := 0 to |parts|
      invariant whole == After(indexes, IndexesFrom(parts[i..], seen))
    {
      var idx := ParseIndex(parts[i]);
      assert parts[i..][0] == parts[i] && parts[i..][1..] == parts[i + 1..];
      if idx.None? || idx.value.name in seen {
        return None;
      }
      seen := seen + {idx.value.name};
      AfterOne(indexes, idx.value, IndexesFrom(parts[i + 1..], seen));
      indexes := indexes + [idx.value];
    }
    assert indexes + [] == indexes;
    return Some(indexes);
  }

  // ----- printing -----

  function SettingText(s: Setting): (r: string) {
    if s.value == [] then s.key else s.key + ['='] + s.value
  }

  function SettingTexts(settings: seq<Setting>): (r: seq<string>)
    ensures |r| == |settings| && forall i :: 0 <= i < |r| ==> r[i] == SettingText(settings[i])
  {
    seq(|settings|, i requires 0 <= i < |settings| => SettingText(settings[i]))
  }

  function IndexText(idx: Index): (r: string) {
    if idx.settings == [] then Word(idx.name)
    else Word(idx.name) + "(" + Join(SettingTexts(idx.settings), ',') + ")"
  }

  function ListText(indexes: seq<Index>): (r: string)
    requires indexes != []
  {
    Join(IndexTexts(indexes), ';')
  }

  function IndexTexts(indexes: seq<Index>): (r: seq<string>)
    ensures |r| == |indexes| && forall i :: 0 <= i < |r| ==> r[i] == IndexText(indexes[i])
  {
    seq(|indexes|, i requires 0 <= i < |indexes| => IndexText(indexes[i]))
  }

  // ----- what is printed parses back -----

  lemma BareSetting(key: string)
    requires IsIdent(key)
    ensures SettingOf(key) == Some(Setting(key, []))
  {
    FindNone(key, '=');
    assert key[..|key|] == key;
  }

  lemma ValuedSetting(key: string, value: string)
    requires IsIdent(key)
    ensures SettingOf(key + ['='] + value) == Some(Setting(key, value))
  {
    var opt := key + ['='] + value;
    FindAfter(key, '=', value);
    assert opt[..|key|] == key && opt[|key| + 1..] == value;
  }

  lemma SettingShape(opt: string, s: Setting)
    requires SettingOf(opt) == Some(s)
    ensures if Find(opt, '=') == |opt| then opt == s.key && s.value == [] else opt == s.key + ['='] + s.value
  {
    SettingParts(opt, s);
    CutAtEquals(opt);
  }

  lemma SettingParts(opt: string, s: Setting)
    requires SettingOf(opt) == Some(s)
    ensures var i := Find(opt, '='); s.key == opt[..i] && s.value == if i == |opt| then [] else opt[i + 1..]
  {
  }

  lemma CutAtEquals(opt: string)
    ensures var i := Find(opt, '='); if i == |opt| then opt[..i] == opt else opt == opt[..i] + ['='] + opt[i + 1..]
  {
    var i := Find(opt, '=');
    if i == |opt| { assert opt[..i] == opt; } else { CutAt(opt, i); }
  }

  /** An option prints as it was written, but for a bare `=` at its end, which is dropped. */
  lemma SettingReprints(opt: string, s: Setting)
    requires SettingOf(opt) == Some(s)
    ensures SettingText(s) == opt <==> Find(opt, '=') + 1 != |opt|
    ensures SettingText(s) != opt ==> opt == SettingText(s) + ['=']
  {
    SettingShape(opt, s);
  }

  lemma TextParsesBack(opt: string, s: Setting)
    requires Free(opt, ',') && SettingOf(opt) == Some(s)
    ensures Free(SettingText(s), ',') && SettingText(s) != [] && SettingOf(SettingText(s)) == Some(s)
  {
    SettingShape(opt, s);
    if s.value == [] { BareSetting(s.key); } else { ValuedSetting(s.key, s.value); }
  }

  lemma PiecesOf(idx: Index, rest: string)
    requires rest != [] && IsIndexRest(idx, rest)
    ensures IndexOf(Word(idx.name) + "(" + rest + ")") == Some(idx)
  {
    var word := Word(idx.name);
    var part := word + "(" + rest + ")";
    WordIsPlain(idx.name);
    assert part == word + ['('] + (rest + ")");
    FindAfter(word, '(', rest + ")");
    assert part[..|word|] == word && Body(part) == rest;
  }

  predicate IsIndexRest(idx: Index, rest: string) {
    SettingsOf(SplitAll(rest, ',')) == Some(idx.settings)
  }

  lemma WordIsPlain(n: IndexName)
    ensures KnownIndex(Word(n)) == Some(n)
    ensures Free(Word(n), '(') && Free(Word(n), ')') && Free(Word(n), ';')
  {
  }

  lemma SettingsReprint(rest: string, settings: seq<Setting>)
    requires SettingsOf(SplitAll(rest, ',')) == Some(settings)
    ensures settings != [] && Join(SettingTexts(settings), ',') != []
    ensures SettingsOf(SplitAll(Join(SettingTexts(settings), ','), ',')) == Some(settings)
  {
    var opts, texts := SplitAll(rest, ','), SettingTexts(settings);
    JoinOfSplitAll(rest, ',');
    forall i | 0 <= i < |opts|
      ensures Free(texts[i], ',') && texts[i] != [] && SettingOf(texts[i]) == Some(settings[i])
    {
      TextParsesBack(opts[i], settings[i]);
    }
    SplitAllOfJoin(texts, ',');
    assert SettingsOf(texts).value == settings;
  }

  /** Every index that parses prints as text that parses to it again. */
  lemma IndexReprints(part: string, idx: Index)
    requires IndexOf(part) == Some(idx)
    ensures IndexOf(IndexText(idx)) == Some(idx)
  {
    if idx.settings == [] {
      WordIsPlain(idx.name);
      FindNone(Word(idx.name), '(');
      assert Word(idx.name)[..|Word(idx.name)|] == Word(idx.name);
    } else {
      SettingsReprint(Body(part), idx.settings);
      PiecesOf(idx, Join(SettingTexts(idx.settings), ','));
    }
  }

  lemma {:induction false} AllIndexesAt(parts: seq<string>, indexes: seq<Index>)
    requires |parts| == |indexes|
    ensures AllIndexes(parts) == Some(indexes) <==> forall i :: 0 <= i < |parts| ==> IndexOf(parts[i]) == Some(indexes[i])
  {
    if parts != [] {
      AllIndexesAt(parts[1..], indexes[1..]);
      assert indexes == [indexes[0]] + indexes[1..];
      assert forall i :: 0 < i < |parts| ==> parts[i] == parts[1..][i - 1] && indexes[i] == indexes[1..][i - 1];
    }
  }

  // Printing keeps the parentheses balanced and the separators inside them.

  /** Two texts that leave any depth alike, with their separators hidden alike. */
  ghost predicate SameDepth(a: string, b: string, sep: char) {
    forall d :: CleanDepth(a, sep, d) == CleanDepth(b, sep, d)
  }

  lemma SameDepthJoins(a: string, b: string, x: string, y: string, sep: char)
    requires SameDepth(a, b, sep) && SameDepth(x, y, sep)
    ensures SameDepth(a + x, b + y, sep)
  {
    forall d ensures CleanDepth(a + x, sep, d) == CleanDepth(b + y, sep, d) {
      CleanDepthAppends(a, x, sep, d);
      CleanDepthAppends(b, y, sep, d);
    }
  }

  lemma BareEqualsIsLevel(text: string, sep: char)
    requires sep != '='
    ensures SameDepth(text + ['='], text, sep)
  {
    forall d ensures CleanDepth(text + ['='], sep, d) == CleanDepth(text, sep, d) {
      CleanDepthAppends(text, ['='], sep, d);
    }
  }

  ghost predicate AllSameDepth(xs: seq<string>, ys: seq<string>, sep: char) {
    |xs| == |ys| && forall i :: 0 <= i < |xs| ==> SameDepth(xs[i], ys[i], sep)
  }

  lemma {:induction false} JoinedDepth(xs: seq<string>, ys: seq<string>, c: char, sep: char)
    requires xs != [] && AllSameDepth(xs, ys, sep)
    ensures SameDepth(Join(xs, c), Join(ys, c), sep)
  {
    if |xs| > 1 {
      JoinedDepth(xs[1..], ys[1..], c, sep);
      SameDepthJoins(xs[0], ys[0], [c], [c], sep);
      SameDepthJoins(xs[0] + [c], ys[0] + [c], Join(xs[1..], c), Join(ys[1..], c), sep);
    }
  }

  lemma TextsKeepDepth(opts: seq<string>, settings: seq<Setting>, sep: char)
    requires SettingsOf(opts) == Some(settings) && sep != '='
    ensures AllSameDepth(opts, SettingTexts(settings), sep)
  {
    forall i | 0 <= i < |opts| ensures SameDepth(opts[i], SettingTexts(settings)[i], sep) {
      SettingReprints(opts[i], settings[i]);
      BareEqualsIsLevel(SettingTexts(settings)[i], sep);
    }
  }

  lemma PartShape(part: string, idx: Index)
    requires IndexOf(part) == Some(idx)
    ensures if Find(part, '(') == |part| then part == Word(idx.name) && idx.settings == []
            else part[|part| - 1] == ')' && part == Word(idx.name) + "(" + Body(part) + ")" && IsIndexRest(idx, Body(part))
  {
    var i := Find(part, '(');
    if i == |part| { assert part[..i] == part; } else { OpenShape(part, idx); }
  }

  lemma OpenShape(part: string, idx: Index)
    requires IndexOf(part) == Some(idx) && Find(part, '(') < |part|
    ensures part[|part| - 1] == ')' && part == Word(idx.name) + "(" + Body(part) + ")" && IsIndexRest(idx, Body(part))
  {
    NameIsWord(part, idx);
    OpenParts(part, Word(idx.name));
  }

  lemma NameIsWord(part: string, idx: Index)
    requires IndexOf(part) == Some(idx) && Find(part, '(') < |part|
    ensures part[..Find(part, '(')] == Word(idx.name) && part[|part| - 1] == ')' && IsIndexRest(idx, Body(part))
  {
  }

  lemma OpenParts(part: string, word: string)
    requires Find(part, '(') < |part| && part[|part| - 1] == ')' && part[..Find(part, '(')] == word
    ensures part == word + "(" + Body(part) + ")"
  {
    CutAround(part, Find(part, '('));
  }

  lemma PrintedKeepsDepth(part: string, idx: Index, sep: char)
    requires IndexOf(part) == Some(idx) && sep != '='
    ensures SameDepth(part, IndexText(idx), sep)
  {
    PartShape(part, idx);
    if idx.settings != [] {
      var opts, texts, head := SplitAll(Body(part), ','), SettingTexts(idx.settings), Word(idx.name) + "(";
      JoinOfSplitAll(Body(part), ',');
      TextsKeepDepth(opts, idx.settings, sep);
      JoinedDepth(opts, texts, ',', sep);
      SameDepthJoins(head, head, Body(part), Join(texts, ','), sep);
      SameDepthJoins(head + Body(part), head + Join(texts, ','), ")", ")", sep);
    }
  }

  lemma ListKeepsDepth(list: string, indexes: seq<Index>, sep: char)
    requires IndexesOf(list) == Some(indexes) && sep != '='
    ensures SameDepth(list, ListText(indexes), sep)
  {
    var parts, texts := Split(list, ';').value, IndexTexts(indexes);
    SplitIsExact(list, ';');
    AllIndexesAt(parts, indexes);
    forall i | 0 <= i < |parts| ensures SameDepth(parts[i], texts[i], sep) {
      PrintedKeepsDepth(parts[i], indexes[i], sep);
    }
    JoinedDepth(parts, texts, ';', sep);
  }

  /** Every index list that parses prints as a list that parses to it again. */
  lemma ListReprints(list: string, indexes: seq<Index>)
    requires IndexesOf(list) == Some(indexes)
    ensures IndexesOf(ListText(indexes)) == Some(indexes)
  {
    var parts, texts := Split(list, ';').value, IndexTexts(indexes);
    SplitIsExact(list, ';');
    AllIndexesAt(parts, indexes);
    forall i | 0 <= i < |parts|
      ensures IsPart(texts[i], ';') && IndexOf(texts[i]) == Some(indexes[i])
    {
      PrintedKeepsDepth(parts[i], indexes[i], ';');
      IndexReprints(parts[i], indexes[i]);
    }
    SplitOfJoin(texts, ';');
    AllIndexesAt(texts, indexes);
  }

  lemma SameBody(word: string, a: string, b: string)
    ensures word + "(" + a + ")" == word + "(" + b + ")" <==> a == b
  {
    assert (word + "(" + a + ")")[|word| + 1..|word| + 1 + |a|] == a;
    assert (word + "(" + b + ")")[|word| + 1..|word| + 1 + |b|] == b;
    assert |word + "(" + a + ")"| == |word| + |a| + 2 && |word + "(" + b + ")"| == |word| + |b| + 2;
  }

  lemma TextsAsWritten(opts: seq<string>, settings: seq<Setting>)
    requires SettingsOf(opts) == Some(settings)
    ensures SettingTexts(settings) == opts <==> forall i :: 0 <= i < |opts| ==> Find(opts[i], '=') + 1 != |opts[i]|
  {
    forall i | 0 <= i < |opts| ensures SettingTexts(settings)[i] == opts[i] <==> Find(opts[i], '=') + 1 != |opts[i]| {
      SettingReprints(opts[i], settings[i]);
    }
  }

  /** An index prints exactly as written, unless an option of it was written `key=`. */
  lemma PrintsAsWritten(part: string, idx: Index)
    requires IndexOf(part) == Some(idx)
    ensures IndexText(idx) == part <==> !HasBareEquals(part)
  {
    PartShape(part, idx);
    if idx.settings != [] {
      var opts, texts := SplitAll(Body(part), ','), SettingTexts(idx.settings);
      JoinOfSplitAll(Body(part), ',');
      TextsFree(opts, idx.settings);
      TextsAsWritten(opts, idx.settings);
      JoinIsInjective(texts, opts, ',');
      SameBody(Word(idx.name), Join(texts, ','), Body(part));
    }
  }

  /** Some option between the parentheses ends at its first `=`. */
  predicate HasBareEquals(part: string) {
    && Find(part, '(') < |part| && part[|part| - 1] == ')'
    && var opts := SplitAll(Body(part), ',');
       exists i :: 0 <= i < |opts| && Find(opts[i], '=') + 1 == |opts[i]|
  }

  lemma TextsFree(opts: seq<string>, settings: seq<Setting>)
    requires SettingsOf(opts) == Some(settings) && forall i :: 0 <= i < |opts| ==> Free(opts[i], ',')
    ensures forall i :: 0 <= i < |settings| ==> Free(SettingTexts(settings)[i], ',')
  {
    forall i | 0 <= i < |settings| ensures Free(SettingTexts(settings)[i], ',') {
      TextParsesBack(opts[i], settings[i]);
    }
  }

  /** The five names, as they are written. */
  lemma NamesAsWritten()
    ensures IndexOf("equality") == Some(Index(Equality, [])) && IndexOf("match") == Some(Index(Match, []))
    ensures IndexOf("ore") == Some(Index(Ore, [])) && IndexOf("ope") == Some(Index(Ope, []))
    ensures IndexOf("json") == Some(Index(Json, []))
  {
    NameAlone(Equality);
    NameAlone(Match);
    NameAlone(Ore);
    NameAlone(Ope);
    NameAlone(Json);
  }

  lemma NameAlone(n: IndexName)
    ensures IndexOf(Word(n)) == Some(Index(n, []))
  {
    WordIsPlain(n);
    FindNone(Word(n), '(');
    assert Word(n)[..|Word(n)|] == Word(n);
  }
}
