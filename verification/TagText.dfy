/** Plain text as the stash tag grammar cuts it up: joining, and splitting outside parentheses. */
module TagText {
  import opened Prelude

  // ----- plain text -----

  function Join(parts: seq<string>, sep: char): (r: string)
    requires parts != []
  {
    if |parts| == 1 then parts[0] else parts[0] + [sep] + Join(parts[1..], sep)
  }

  /** Go's `strings.Split` on one character. */
  function SplitAll(s: string, sep: char): (r: seq<string>)
    ensures r != []
  {
    if s == [] then [[]]
    else if s[0] == sep then [[]] + SplitAll(s[1..], sep)
    else var r := SplitAll(s[1..], sep); [[s[0]] + r[0]] + r[1..]
  }

  /** The first place of a character, or the length. */
  function Find(s: string, c: char): (i: nat)
    ensures i <= |s| && (i < |s| ==> s[i] == c) && forall j :: 0 <= j < i ==> s[j] != c
  {
    if s == [] || s[0] == c then 0 else Find(s[1..], c) + 1
  }

  predicate Free(s: string, c: char) { forall i :: 0 <= i < |s| ==> s[i] != c }

  lemma FindAfter(a: string, c: char, b: string)
    requires Free(a, c)
    ensures Find(a + [c] + b, c) == |a|
  {
    var s := a + [c] + b;
    assert s[|a|] == c && forall j :: 0 <= j < |a| ==> s[j] == a[j];
  }

  lemma FindNone(a: string, c: char)
    requires Free(a, c)
    ensures Find(a, c) == |a|
  {
  }

  lemma {:induction false} SplitAllOfJoin(parts: seq<string>, sep: char)
    requires parts != [] && forall i :: 0 <= i < |parts| ==> Free(parts[i], sep)
    ensures SplitAll(Join(parts, sep), sep) == parts
  {
    if |parts| == 1 {
      SplitAllOfFree(parts[0], [], sep);
      assert parts[0] + [] == parts[0] && parts == [parts[0]];
    } else {
      var rest := Join(parts[1..], sep);
      SplitAllOfFree(parts[0], [sep] + rest, sep);
      assert parts[0] + [sep] + rest == parts[0] + ([sep] + rest);
      assert ([sep] + rest)[1..] == rest;
      SplitAllOfJoin(parts[1..], sep);
      assert ([[]] + parts[1..])[1..] == parts[1..] && parts[0] + [] == parts[0];
      assert parts == [parts[0]] + parts[1..];
    }
  }

  /** Text free of the separator goes into the first piece. */
  lemma {:induction false} SplitAllOfFree(a: string, b: string, sep: char)
    requires Free(a, sep)
    ensures SplitAll(a + b, sep) == [a + SplitAll(b, sep)[0]] + SplitAll(b, sep)[1..]
  {
    var rest := SplitAll(b, sep);
    if a == [] {
      assert a + b == b && a + rest[0] == rest[0];
    } else {
      SplitAllOfFree(a[1..], b, sep);
      assert (a + b)[1..] == a[1..] + b;
      assert [a[0]] + (a[1..] + rest[0]) == a + rest[0];
    }
  }

  lemma {:induction false} JoinOfSplitAll(s: string, sep: char)
    ensures Join(SplitAll(s, sep), sep) == s
    ensures forall i :: 0 <= i < |SplitAll(s, sep)| ==> Free(SplitAll(s, sep)[i], sep)
  {
    if s != [] {
      var r := SplitAll(s[1..], sep);
      JoinOfSplitAll(s[1..], sep);
      if s[0] == sep {
        assert ([[]] + r)[1..] == r;
      } else {
        JoinHead([s[0]], r, sep);
      }
    }
  }

  lemma JoinHead(a: string, r: seq<string>, sep: char)
    requires r != []
    ensures Join([a + r[0]] + r[1..], sep) == a + Join(r, sep)
  {
    var q := [a + r[0]] + r[1..];
    if |r| > 1 {
      assert q[1..] == r[1..];
      assert a + (r[0] + [sep] + Join(r[1..], sep)) == a + r[0] + [sep] + Join(r[1..], sep);
    }
  }

  lemma CutAt(s: string, i: nat)
    requires i < |s|
    ensures s == s[..i] + [s[i]] + s[i + 1..]
  {
  }

  lemma CutAround(s: string, i: nat)
    requires i < |s| - 1
    ensures s == s[..i] + [s[i]] + s[i + 1..|s| - 1] + [s[|s| - 1]]
  {
  }

  lemma JoinIsInjective(a: seq<string>, b: seq<string>, sep: char)
    requires a != [] && b != []
    requires forall i :: 0 <= i < |a| ==> Free(a[i], sep)
    requires forall i :: 0 <= i < |b| ==> Free(b[i], sep)
    ensures Join(a, sep) == Join(b, sep) <==> a == b
  {
    SplitAllOfJoin(a, sep);
    SplitAllOfJoin(b, sep);
  }

  // ----- parentheses -----

  /** Depth after reading `s` from depth `d`; none once a `)` has no `(`. */
  function Depth(s: string, d: nat): (r: Option<nat>) {
    if s == [] then Some(d)
    else if s[0] == '(' then Depth(s[1..], d + 1)
    else if s[0] == ')' then (if d == 0 then None else Depth(s[1..], d - 1))
    else Depth(s[1..], d)
  }

  predicate IsBalanced(s: string) { Depth(s, 0) == Some(0) }

  /** Like `Depth`, but none also once the separator shows outside parentheses. */
  function CleanDepth(s: string, sep: char, d: nat): (r: Option<nat>) {
    if s == [] then Some(d)
    else if s[0] == '(' then CleanDepth(s[1..], sep, d + 1)
    else if s[0] == ')' then (if d == 0 then None else CleanDepth(s[1..], sep, d - 1))
    else if s[0] == sep && d == 0 then None
    else CleanDepth(s[1..], sep, d)
  }

  /** Balanced, with no separator outside parentheses. */
  predicate IsPart(s: string, sep: char) { CleanDepth(s, sep, 0) == Some(0) }

  predicate IsSeparator(c: char) { c != '(' && c != ')' }

  lemma {:induction false} CleanDepthAppends(a: string, b: string, sep: char, d: nat)
    ensures CleanDepth(a + b, sep, d) ==
            if CleanDepth(a, sep, d).Some? then CleanDepth(b, sep, CleanDepth(a, sep, d).value) else None
  {
    if a == [] {
      assert a + b == b;
    } else {
      assert (a + b)[1..] == a[1..] + b;
      if a[0] == '(' { CleanDepthAppends(a[1..], b, sep, d + 1); }
      else if a[0] == ')' { if d > 0 { CleanDepthAppends(a[1..], b, sep, d - 1); } }
      else { CleanDepthAppends(a[1..], b, sep, d); }
    }
  }

  // ----- splitting outside parentheses -----

  /** The split of `s` when `cur` is the part begun and `d` the depth it has reached. */
  function SplitFrom(s: string, sep: char, d: nat, cur: string): (r: Option<seq<string>>)
    ensures r.Some? ==> r.value != []
    decreases |s|
  {
    if s == [] then (if d == 0 then Some([cur]) else None)
    else if s[0] == '(' then SplitFrom(s[1..], sep, d + 1, cur + [s[0]])
    else if s[0] == ')' then (if d == 0 then None else SplitFrom(s[1..], sep, d - 1, cur + [s[0]]))
    else if s[0] == sep && d == 0 then
      var more := SplitFrom(s[1..], sep, 0, []);
      if more.None? then None else Some([cur] + more.value)
    else SplitFrom(s[1..], sep, d, cur + [s[0]])
  }

  function Split(s: string, sep: char): (r: Option<seq<string>>)
    ensures r.Some? ==> r.value != []
  {
    SplitFrom(s, sep, 0, [])
  }

  /** The loop over depth and start of the current part. */
  method SplitOutsideParens(s: string, sep: char) returns (r: Option<seq<string>>)
    ensures r == Split(s, sep)
  {
    var parts: seq<string>, depth: nat, start := [], 0, 0;
    ghost var whole := Split(s, sep);
    assert s[0..] == s && s[0..0] == [];
    assert whole.Some? ==> [] + whole.value == whole.value;
    for i := 0 to |s|
      invariant start <= i
      invariant Completes(whole, parts, SplitFrom(s[i..], sep, depth, s[start..i]))
    {
      assert s[i..][0] == s[i] && s[i..][1..] == s[i + 1..];
      assert s[start..i + 1] == s[start..i] + [s[i]];
      if s[i] == '(' {
        depth := depth + 1;
      } else if s[i] == ')' {
        if depth == 0 {
          return None;
        }
        depth := depth - 1;
      } else if s[i] == sep && depth == 0 {
        OnePartMore(whole, parts, s[start..i], SplitFrom(s[i + 1..], sep, 0, []));
        parts := parts + [s[start..i]];
        start := i + 1;
        assert s[start..i + 1] == [];
      }
    }
    if depth != 0 {
      return None;
    }
    assert s[start..|s|] == s[start..];
    return Some(parts + [s[start..]]);
  }

  /** With `done` split off already, what is ahead completes the whole, or is why there is none. */
  ghost predicate Completes(whole: Option<seq<string>>, done: seq<string>, more: Option<seq<string>>) {
    whole == if more.None? then None else Some(done + more.value)
  }

  lemma OnePartMore(whole: Option<seq<string>>, done: seq<string>, part: string, more: Option<seq<string>>)
    requires Completes(whole, done, if more.None? then None else Some([part] + more.value))
    ensures Completes(whole, done + [part], more)
  {
    if more.Some? { assert done + ([part] + more.value) == (done + [part]) + more.value; }
  }

  /** Splitting succeeds exactly on balanced text. */
  lemma {:induction false} SplitsIffBalanced(s: string, sep: char, d: nat, cur: string)
    requires IsSeparator(sep)
    ensures SplitFrom(s, sep, d, cur).Some? <==> Depth(s, d) == Some(0)
    decreases |s|
  {
    if s != [] {
      if s[0] == '(' { SplitsIffBalanced(s[1..], sep, d + 1, cur + [s[0]]); }
      else if s[0] == ')' { if d > 0 { SplitsIffBalanced(s[1..], sep, d - 1, cur + [s[0]]); } }
      else if s[0] == sep && d == 0 { SplitsIffBalanced(s[1..], sep, 0, []); }
      else { SplitsIffBalanced(s[1..], sep, d, cur + [s[0]]); }
    }
  }

  /** The parts join up to the text, and each is balanced with no separator of its own. */
  lemma {:induction false} PartsRejoin(s: string, sep: char, d: nat, cur: string)
    requires IsSeparator(sep) && CleanDepth(cur, sep, 0) == Some(d) && SplitFrom(s, sep, d, cur).Some?
    ensures var parts := SplitFrom(s, sep, d, cur).value;
            Join(parts, sep) == cur + s && forall i :: 0 <= i < |parts| ==> IsPart(parts[i], sep)
    decreases |s|
  {
    if s == [] {
      assert cur + s == cur;
    } else {
      var c := s[0];
      assert s == [c] + s[1..];
      if c == sep && d == 0 {
        PartsRejoin(s[1..], sep, 0, []);
        var more := SplitFrom(s[1..], sep, 0, []).value;
        assert ([cur] + more)[1..] == more;
        assert cur + [sep] + ([] + s[1..]) == cur + s;
      } else {
        CleanDepthAppends(cur, [c], sep, 0);
        var d' := if c == '(' then d + 1 else if c == ')' then d - 1 else d;
        PartsRejoin(s[1..], sep, d', cur + [c]);
        assert (cur + [c]) + s[1..] == cur + s;
      }
    }
  }

  /** Text with no separator of its own is absorbed into the current part. */
  lemma {:induction false} PartIsAbsorbed(p: string, tail: string, sep: char, d: nat, cur: string)
    requires IsSeparator(sep) && CleanDepth(p, sep, d).Some?
    ensures SplitFrom(p + tail, sep, d, cur) == SplitFrom(tail, sep, CleanDepth(p, sep, d).value, cur + p)
  {
    if p == [] {
      assert p + tail == tail && cur + p == cur;
    } else {
      var c := p[0];
      assert (p + tail)[1..] == p[1..] + tail && (cur + [c]) + p[1..] == cur + p;
      var d' := if c == '(' then d + 1 else if c == ')' then d - 1 else d;
      PartIsAbsorbed(p[1..], tail, sep, d', cur + [c]);
    }
  }

  /** Splitting inverts joining: any parts come back as they were. */
  lemma {:induction false} SplitOfJoin(parts: seq<string>, sep: char)
    requires IsSeparator(sep) && parts != [] && forall i :: 0 <= i < |parts| ==> IsPart(parts[i], sep)
    ensures Split(Join(parts, sep), sep) == Some(parts)
  {
    var first := parts[0];
    assert [] + first == first;
    if |parts| == 1 {
      assert first + [] == first && parts == [first];
      PartIsAbsorbed(first, [], sep, 0, []);
    } else {
      var rest := Join(parts[1..], sep);
      assert first + [sep] + rest == first + ([sep] + rest);
      PartIsAbsorbed(first, [sep] + rest, sep, 0, []);
      assert ([sep] + rest)[1..] == rest;
      SplitOfJoin(parts[1..], sep);
      assert parts == [first] + parts[1..];
    }
  }

  /** `splitOutsideParens` in one statement: when it succeeds, and what it then gives. */
  lemma SplitIsExact(s: string, sep: char)
    requires IsSeparator(sep)
    ensures Split(s, sep).Some? <==> IsBalanced(s)
    ensures forall parts :: parts != [] && (forall i :: 0 <= i < |parts| ==> IsPart(parts[i], sep)) && Join(parts, sep) == s
              ==> Split(s, sep) == Some(parts)
    ensures Split(s, sep).Some? ==>
              var parts := Split(s, sep).value;
              Join(parts, sep) == s && forall i :: 0 <= i < |parts| ==> IsPart(parts[i], sep)
  {
    SplitsIffBalanced(s, sep, 0, []);
    if Split(s, sep).Some? {
      PartsRejoin(s, sep, 0, []);
      assert [] + s == s;
    }
    forall parts | parts != [] && (forall i :: 0 <= i < |parts| ==> IsPart(parts[i], sep)) && Join(parts, sep) == s
      ensures Split(s, sep) == Some(parts)
    {
      SplitOfJoin(parts, sep);
    }
  }
}
