/**
 * The text normalisation `process_detail_file` applies to a report's HTML
 * before the keyword gate and the model call: lower-casing, greedy removal of
 * the head and script spans, quote removal (the snapshot that is saved), then
 * deletion of line breaks, whitespace collapsing and tag stripping (the text
 * given to the model). Every `re.sub` is a hand-written function here, with the
 * regular expression's own matching rule as its contract.
 */
module Normalize {
  import opened Wrappers
  import opened Text

  // ---------------------------------------------------------------------------
  // re.sub(open + '.*' + close, '', s, flags=re.DOTALL)
  // ---------------------------------------------------------------------------

  /** One way the pattern `open.*close` can match `s`: `open` at `a`, `close` at `b`. */
  ghost predicate IsSpanMatch(s: string, open: string, close: string, a: int, b: int) {
    Occurs(s, open, a) && Occurs(s, close, b) && a + |open| <= b
  }

  ghost predicate HasSpan(s: string, open: string, close: string) {
    exists a, b :: IsSpanMatch(s, open, close, a, b)
  }

  /**
   * The match a backtracking engine reports: the leftmost start, and for that
   * start the longest extent, since `.*` is greedy.
   */
  ghost predicate IsLeftmostLongest(s: string, open: string, close: string, a: int, b: int) {
    && IsSpanMatch(s, open, close, a, b)
    && forall a', b' :: IsSpanMatch(s, open, close, a', b') ==> a <= a' && (a' == a ==> b' <= b)
  }

  lemma SpanRemovalFacts(s: string, open: string, close: string, a: nat, b: nat)
    requires Occurs(s, open, a) && forall k :: 0 <= k < a ==> !Occurs(s, open, k)
    requires Occurs(s, close, b) && forall k :: b < k <= |s| ==> !Occurs(s, close, k)
    requires a + |open| <= b && close != []
    ensures IsLeftmostLongest(s, open, close, a, b)
    ensures !HasSpan(s[b + |close|..], open, close)
    ensures !HasSpan(s[..a] + s[b + |close|..], open, close)
  {
    var p, q := s[..a], s[b + |close|..];
    forall a', b'
      ensures !IsSpanMatch(q, open, close, a', b')
    {
      if Occurs(q, close, b') {
        OccursInSuffix(s, b + |close|, close, b');
      }
    }
    forall a', b'
      ensures !IsSpanMatch(p + q, open, close, a', b')
    {
      if IsSpanMatch(p + q, open, close, a', b') {
        if b' >= |p| {
          OccursConcatRight(p, q, close, b');
          OccursInSuffix(s, b + |close|, close, b' - |p|);
        } else {
          OccursConcatLeft(p, q, open, a');
          OccursInPrefix(s, a, open, a');
        }
      }
    }
  }

  /**
   * `re.sub(open + '.*' + close, '', s, flags=re.DOTALL)`. Without a match the
   * text is unchanged; otherwise the leftmost-longest match is cut out, and
   * the scan that continues after it finds nothing more. No match survives in
   * the result.
   */
  function RemoveGreedySpan(s: string, open: string, close: string): (r: string)
    requires close != []
    ensures !HasSpan(s, open, close) ==> r == s
    ensures HasSpan(s, open, close) ==> exists a, b ::
      && IsLeftmostLongest(s, open, close, a, b)
      && r == s[..a] + s[b + |close|..]
      && !HasSpan(s[b + |close|..], open, close)
    ensures !HasSpan(r, open, close)
    ensures |r| <= |s|
  {
    var first := FindFrom(s, open, 0);
    var last := FindLast(s, close, |s| + 1);
    if first.Some? && last.Some? && first.value + |open| <= last.value then
      SpanRemovalFacts(s, open, close, first.value, last.value);
      s[..first.value] + s[last.value + |close|..]
    else
      assert !HasSpan(s, open, close) by {
        forall a, b | IsSpanMatch(s, open, close, a, b) ensures false {
        }
      }
      s
  }

  /** Without any occurrence of the closing text nothing is removed. */
  lemma NoCloseNoRemoval(s: string, open: string, close: string)
    requires close != [] && !Contains(s, close)
    ensures RemoveGreedySpan(s, open, close) == s
  {
  }

  // ---------------------------------------------------------------------------
  // Character deletion: re.sub('"', '', s) and re.sub(r'[\n|\r|"]', '', s)
  // ---------------------------------------------------------------------------

  /** Deletes every character of `cs`; every other character keeps its count. */
  function DeleteChars(s: string, cs: set<char>): (r: string)
    ensures |r| <= |s|
    ensures forall i :: 0 <= i < |r| ==> r[i] !in cs
  {
    if s == [] then []
    else
      assert s == [s[0]] + s[1..];
      (if s[0] in cs then [] else [s[0]]) + DeleteChars(s[1..], cs)
  }

  /** Deleting from a concatenation deletes from each part. */
  lemma {:induction false} DeleteCharsConcat(s: string, t: string, cs: set<char>)
    ensures DeleteChars(s + t, cs) == DeleteChars(s, cs) + DeleteChars(t, cs)
  {
    if s == [] {
      assert s + t == t;
    } else {
      var c, rest := s[0], s[1..];
      assert s == [c] + rest;
      assert s + t == [c] + (rest + t);
      DeleteCharsCons(c, rest + t, cs);
      DeleteCharsCons(c, rest, cs);
      DeleteCharsConcat(rest, t, cs);
      var h := if c in cs then [] else [c];
      assert h + (DeleteChars(rest, cs) + DeleteChars(t, cs))
          == (h + DeleteChars(rest, cs)) + DeleteChars(t, cs);
    }
  }

  /**
   * Deletion keeps every other character as often as it occurs and adds
   * nothing: the result is a sub-multiset of the input.
   */
  lemma {:induction false} DeleteCharsCounts(s: string, cs: set<char>)
    ensures forall c :: c !in cs ==> multiset(DeleteChars(s, cs))[c] == multiset(s)[c]
    ensures multiset(DeleteChars(s, cs)) <= multiset(s)
  {
    if s != [] {
      var c, rest := s[0], s[1..];
      assert s == [c] + rest;
      DeleteCharsCons(c, rest, cs);
      DeleteCharsCounts(rest, cs);
      var h := if c in cs then [] else [c];
      assert multiset(DeleteChars(s, cs)) == multiset(h) + multiset(DeleteChars(rest, cs));
      assert multiset(s) == multiset([c]) + multiset(rest);
    }
  }

  /** The first character of the input decides only the first place of the result. */
  lemma DeleteCharsCons(c: char, s: string, cs: set<char>)
    ensures DeleteChars([c] + s, cs) == (if c in cs then [] else [c]) + DeleteChars(s, cs)
  {
    assert ([c] + s)[0] == c && ([c] + s)[1..] == s;
  }

  /**
   * With `DeleteCharsConcat`, these fix the result character by character: a
   * character of the class goes, any other stays in place.
   */
  lemma DeleteCharsUnits(c: char, cs: set<char>)
    ensures DeleteChars([], cs) == []
    ensures DeleteChars([c], cs) == if c in cs then [] else [c]
  {
  }

  /**
   * The character class `[\n|\r|"]`: inside brackets `|` is a literal, so the
   * pipe character is deleted together with line breaks and quotes.
   */
  const LineBreakClass: set<char> := {'\n', '|', '\r', '"'}

  // ---------------------------------------------------------------------------
  // re.sub(r'\s+', ' ', s)
  // ---------------------------------------------------------------------------

  /** The characters of `s` that are not whitespace, in order. */
  function NonSpace(s: string): string {
    if s == [] then [] else (if IsSpace(s[0]) then [] else [s[0]]) + NonSpace(s[1..])
  }

  lemma {:induction false} NonSpaceSkipsRun(s: string, k: nat)
    requires k <= |s|
    requires forall i :: 0 <= i < k ==> IsSpace(s[i])
    ensures NonSpace(s[k..]) == NonSpace(s)
  {
    if k > 0 {
      assert s[1..][k - 1..] == s[k..];
      NonSpaceSkipsRun(s[1..], k - 1);
    }
  }

  /**
   * Every maximal run of whitespace becomes one space: the result holds no
   * whitespace but `' '`, never two spaces in a row, and the same non-space
   * characters in the same order.
   */
  function CollapseWhitespace(s: string): (r: string)
    decreases |s|
    ensures |r| <= |s|
    ensures r == [] <==> s == []
    ensures r != [] ==> (r[0] == ' ' <==> IsSpace(s[0]))
    ensures forall i :: 0 <= i < |r| ==> IsSpace(r[i]) ==> r[i] == ' '
    ensures forall i :: 0 <= i < |r| ==> r[i] == ' ' || r[i] in s
    ensures forall i :: 0 <= i < |r| - 1 ==> !(r[i] == ' ' && r[i + 1] == ' ')
    ensures NonSpace(r) == NonSpace(s)
  {
    if s == [] then []
    else if IsSpace(s[0]) then
      var k := SpaceRunEnd(s, 1);
      var rest := CollapseWhitespace(s[k..]);
      NonSpaceSkipsRun(s, k);
      assert ([' '] + rest)[1..] == rest;
      assert forall i :: 0 <= i < |rest| ==> rest[i] == ' ' || rest[i] in s by {
        forall i | 0 <= i < |rest| && rest[i] != ' '
          ensures rest[i] in s
        {
          assert rest[i] in s[k..];
        }
      }
      [' '] + rest
    else
      var rest := CollapseWhitespace(s[1..]);
      assert ([s[0]] + rest)[1..] == rest;
      assert forall i :: 0 <= i < |rest| ==> rest[i] == ' ' || rest[i] in s by {
        forall i | 0 <= i < |rest| && rest[i] != ' '
          ensures rest[i] in s
        {
          assert rest[i] in s[1..];
        }
      }
      [s[0]] + rest
  }

  /** Position `i` starts a whitespace run or holds a non-space character. */
  predicate KeptInCollapse(s: string, i: nat)
    requires i < |s|
  {
    !(IsSpace(s[i]) && i > 0 && IsSpace(s[i - 1]))
  }

  /** The character position `i` contributes when kept. */
  function CollapsedChar(c: char): char {
    if IsSpace(c) then ' ' else c
  }

  /** The positions from `i` on, filtered by `KeptInCollapse` and mapped by `CollapsedChar`. */
  function CollapseFrom(s: string, i: nat): string
    decreases |s| - i
  {
    if i >= |s| then []
    else (if KeptInCollapse(s, i) then [CollapsedChar(s[i])] else []) + CollapseFrom(s, i + 1)
  }

  /**
   * An independent definition of `re.sub(r'\s+', ' ', s)`: the first
   * character of every whitespace run becomes a space, the rest of the run
   * goes, every other character stays.
   */
  function CollapseRef(s: string): string {
    CollapseFrom(s, 0)
  }

  /** Past the first position of a slice, the filter sees the same neighbours. */
  lemma {:induction false} CollapseFromShift(s: string, d: nat, i: nat)
    requires d < i <= |s|
    ensures CollapseFrom(s, i) == CollapseFrom(s[d..], i - d)
    decreases |s| - i
  {
    var t := s[d..];
    if i < |s| {
      assert t[i - d] == s[i] && t[i - d - 1] == s[i - 1];
      assert KeptInCollapse(t, i - d) == KeptInCollapse(s, i);
      CollapseFromShift(s, d, i + 1);
      assert CollapseFrom(t, i - d)
          == (if KeptInCollapse(t, i - d) then [CollapsedChar(t[i - d])] else []) + CollapseFrom(t, i + 1 - d);
    } else {
      assert |t| == i - d;
    }
  }

  /** A slice starting at a kept position is filtered like the suffix of the whole. */
  lemma CollapseFromSlice(s: string, d: nat)
    requires d <= |s|
    requires d < |s| ==> KeptInCollapse(s, d)
    ensures CollapseFrom(s, d) == CollapseRef(s[d..])
  {
    if d < |s| {
      CollapseFromShift(s, d, d + 1);
    }
  }

  /** The rest of a whitespace run contributes nothing. */
  lemma {:induction false} CollapseSkipsRun(s: string, i: nat, k: nat)
    requires 1 <= i <= k <= |s|
    requires forall m :: i - 1 <= m < k ==> IsSpace(s[m])
    ensures CollapseFrom(s, i) == CollapseFrom(s, k)
    decreases k - i
  {
    if i < k {
      CollapseSkipsRun(s, i + 1, k);
    }
  }

  /** `CollapseWhitespace` is exactly the reference filter-map. */
  lemma {:induction false} CollapseWhitespaceIsReference(s: string)
    ensures CollapseWhitespace(s) == CollapseRef(s)
    decreases |s|
  {
    if s != [] {
      if IsSpace(s[0]) {
        var k := SpaceRunEnd(s, 1);
        CollapseSkipsRun(s, 1, k);
        CollapseFromSlice(s, k);
        CollapseWhitespaceIsReference(s[k..]);
      } else {
        CollapseFromSlice(s, 1);
        CollapseWhitespaceIsReference(s[1..]);
      }
    }
  }

  // ---------------------------------------------------------------------------
  // re.sub(r'<[^>]+>', '', s)
  // ---------------------------------------------------------------------------

  /** The pattern `<[^>]+>` matches `s[p..e + 1]`. */
  ghost predicate TagAt(s: string, p: int, e: int) {
    && 0 <= p && p + 2 <= e < |s|
    && s[p] == '<' && s[e] == '>'
    && forall k :: p < k < e ==> s[k] != '>'
  }

  lemma TagShift(c: char, t: string, p: int, e: int)
    requires TagAt([c] + t, p, e) && p >= 1
    ensures TagAt(t, p - 1, e - 1)
  {
    var s := [c] + t;
    forall k | p - 1 < k < e - 1
      ensures t[k] != '>'
    {
      assert t[k] == s[k + 1];
    }
  }

  ghost predicate NoTag(s: string) {
    forall p, e :: !TagAt(s, p, e)
  }

  /** `s` opens a tag the pattern `<[^>]+>` removes. */
  predicate OpensTag(s: string) {
    |s| >= 2 && s[0] == '<' && s[1] != '>' && FindChar(s, '>', 1) < |s|
  }

  lemma KeptFirstFacts(s: string, rest: string)
    requires s != [] && !OpensTag(s)
    requires |rest| <= |s| - 1
    requires forall i :: 0 <= i < |rest| ==> rest[i] in s[1..]
    requires NoTag(rest)
    requires |s| >= 2 && s[1] != '<' ==> rest != [] && rest[0] == s[1]
    ensures forall i :: 0 <= i < |[s[0]] + rest| ==> ([s[0]] + rest)[i] in s
    ensures NoTag([s[0]] + rest)
  {
    var r := [s[0]] + rest;
    forall i | 1 <= i < |r|
      ensures r[i] in s
    {
      assert r[i] == rest[i - 1] && rest[i - 1] in s[1..];
    }
    forall p, e
      ensures !TagAt(r, p, e)
    {
      if p >= 1 && TagAt(r, p, e) {
        TagShift(s[0], rest, p, e);
      } else if p == 0 && 2 <= e < |r| && r[0] == '<' && r[e] == '>' {
        assert r[e] == rest[e - 1] && rest[e - 1] in s[1..];
        var j :| 1 <= j < |s| && s[j] == '>';
        assert FindChar(s, '>', 1) <= j;
        assert r[1] == '>';
      }
    }
  }

  lemma SkippedTagFacts(s: string, k: nat, r: string)
    requires k <= |s|
    requires forall i :: 0 <= i < |r| ==> r[i] in s[k..]
    ensures forall i :: 0 <= i < |r| ==> r[i] in s
  {
    forall i | 0 <= i < |r|
      ensures r[i] in s
    {
      var j' :| 0 <= j' < |s[k..]| && s[k..][j'] == r[i];
      assert s[k + j'] == r[i];
    }
  }

  /**
   * Left-to-right tag removal as `re.sub` performs it: at a `<` followed by at
   * least one character that is not `>` and then a `>`, the tag up to the
   * first `>` goes; any other character stays. No tag survives, no character
   * is invented, and text that does not open a tag keeps its first character.
   */
  function StripTags(s: string): (r: string)
    decreases |s|
    ensures |r| <= |s|
    ensures forall i :: 0 <= i < |r| ==> r[i] in s
    ensures NoTag(r)
    ensures s != [] && s[0] != '<' ==> r != [] && r[0] == s[0]
  {
    if s == [] then []
    else if OpensTag(s) then
      var e := FindChar(s, '>', 1);
      var r := StripTags(s[e + 1..]);
      SkippedTagFacts(s, e + 1, r);
      r
    else
      var rest := StripTags(s[1..]);
      KeptFirstFacts(s, rest);
      [s[0]] + rest
  }

  /** Text before the first `<` is kept as it is. */
  lemma {:induction false} StripTagsKeepsText(p: string, s: string)
    requires '<' !in p
    ensures StripTags(p + s) == p + StripTags(s)
  {
    if p != [] {
      var u := p + s;
      assert u[0] == p[0] && u[1..] == p[1..] + s;
      assert !OpensTag(u);
      assert StripTags(u) == [p[0]] + StripTags(p[1..] + s);
      assert '<' !in p[1..];
      StripTagsKeepsText(p[1..], s);
      assert [p[0]] + (p[1..] + StripTags(s)) == p + StripTags(s);
    } else {
      assert p + s == s;
    }
  }

  /** A tag `<t>` with non-empty `t` free of `>` is removed whole, and the scan goes on after it. */
  lemma StripTagsRemovesTag(t: string, s: string)
    requires |t| > 0 && '>' !in t
    ensures StripTags("<" + t + ">" + s) == StripTags(s)
  {
    var u := "<" + t + ">" + s;
    assert u[0] == '<' && u[1] == t[0] && u[|t| + 1] == '>';
    assert forall k :: 1 <= k <= |t| ==> u[k] == t[k - 1];
    var e := FindChar(u, '>', 1);
    assert e == |t| + 1;
    assert u[e + 1..] == s;
  }

  /** `<>` is no tag: both characters stay. */
  lemma StripTagsKeepsEmptyBrackets(s: string)
    ensures StripTags("<>" + s) == "<>" + StripTags(s)
  {
    var u := "<>" + s;
    var v := ">" + s;
    assert u[0] == '<' && u[1] == '>' && u[1..] == v;
    assert !OpensTag(u);
    assert StripTags(u) == "<" + StripTags(v);
    assert v[0] == '>' && v[1..] == s;
    assert !OpensTag(v);
    assert StripTags(v) == ">" + StripTags(s);
  }

  /** A `<` with no `>` after it is no tag: it stays. */
  lemma StripTagsKeepsUnclosed(s: string)
    requires '>' !in s
    ensures StripTags("<" + s) == "<" + StripTags(s)
  {
    var u := "<" + s;
    assert u[1..] == s;
    assert forall k :: 1 <= k < |u| ==> u[k] == s[k - 1];
  }

  /** Text without `<` holds no tag: stripping leaves it unchanged. */
  lemma {:induction false} StripTagsPlainText(s: string)
    requires '<' !in s
    ensures StripTags(s) == s
  {
    if s != [] {
      assert '<' !in s[1..];
      StripTagsPlainText(s[1..]);
    }
  }

  // ---------------------------------------------------------------------------
  // The normalisation of data_extract.py:109-134
  // ---------------------------------------------------------------------------

  const HtmlOpen := "<html"
  const HeadClose := "</head>"
  const ScriptOpen := "<script"
  const ScriptClose := "</script>"

  /**
   * The snapshot stored as `html_content`: lower-cased, the first-`<html` to
   * last-`</head>` span and then the first-`<script` to last-`</script>` span
   * cut out, every double quote deleted.
   */
  function CleanHtml(html: string): (r: string)
    ensures '"' !in r
    ensures |r| <= |html|
    ensures !Contains(Lower(html), HeadClose) && !Contains(Lower(html), ScriptClose)
      ==> r == DeleteChars(Lower(html), {'"'})
  {
    var lowered := Lower(html);
    var noHead := RemoveGreedySpan(lowered, HtmlOpen, HeadClose);
    var noScript := RemoveGreedySpan(noHead, ScriptOpen, ScriptClose);
    assert !Contains(lowered, HeadClose) && !Contains(lowered, ScriptClose) ==> noScript == lowered by {
      if !Contains(lowered, HeadClose) && !Contains(lowered, ScriptClose) {
        NoCloseNoRemoval(lowered, HtmlOpen, HeadClose);
        NoCloseNoRemoval(noHead, ScriptOpen, ScriptClose);
      }
    }
    var r := DeleteChars(noScript, {'"'});
    assert forall i :: 0 <= i < |r| ==> r[i] != '"';
    r
  }

  /** The model's input: line breaks, pipes and quotes deleted, whitespace collapsed, tags stripped. */
  function ModelInput(cleaned: string): (t: string)
    ensures |t| <= |cleaned|
    ensures forall i :: 0 <= i < |t| ==> t[i] !in LineBreakClass
    ensures forall i :: 0 <= i < |t| ==> IsSpace(t[i]) ==> t[i] == ' '
  {
    var deleted := DeleteChars(cleaned, LineBreakClass);
    var collapsed := CollapseWhitespace(deleted);
    var t := StripTags(collapsed);
    ModelInputChars(deleted, collapsed, t);
    t
  }

  lemma ModelInputChars(deleted: string, collapsed: string, t: string)
    requires forall i :: 0 <= i < |deleted| ==> deleted[i] !in LineBreakClass
    requires forall i :: 0 <= i < |collapsed| ==> IsSpace(collapsed[i]) ==> collapsed[i] == ' '
    requires forall i :: 0 <= i < |collapsed| ==> collapsed[i] == ' ' || collapsed[i] in deleted
    requires forall i :: 0 <= i < |t| ==> t[i] in collapsed
    ensures forall i :: 0 <= i < |t| ==> t[i] !in LineBreakClass && (IsSpace(t[i]) ==> t[i] == ' ')
  {
    forall i | 0 <= i < |t|
      ensures t[i] !in LineBreakClass && (IsSpace(t[i]) ==> t[i] == ' ')
    {
      var j :| 0 <= j < |collapsed| && collapsed[j] == t[i];
      if collapsed[j] != ' ' {
        var k :| 0 <= k < |deleted| && deleted[k] == collapsed[j];
      }
    }
  }

  /** The text record of one report body: the saved snapshot and the model input with its keyword flags. */
  datatype NormalizedText = NormalizedText(
    cleanedHtml: string,
    collapsedText: string,
    hasUpgradeKeyword: bool,
    hasDowngradeKeyword: bool)

  /**
   * data_extract.py:109-134. The model input contains no line break, pipe or
   * quote, no whitespace but the plain space, and is never longer than the
   * saved snapshot; the flags are case-insensitive substring tests on it.
   */
  function NormalizeReport(html: string): (n: NormalizedText)
    ensures '"' !in n.cleanedHtml
    ensures |n.collapsedText| <= |n.cleanedHtml| <= |html|
    ensures forall i :: 0 <= i < |n.collapsedText| ==>
      && n.collapsedText[i] !in LineBreakClass
      && (IsSpace(n.collapsedText[i]) ==> n.collapsedText[i] == ' ')
    ensures n.hasUpgradeKeyword <==> exists i :: Occurs(Lower(n.collapsedText), "upgrade", i)
    ensures n.hasDowngradeKeyword <==> exists i :: Occurs(Lower(n.collapsedText), "downgrade", i)
  {
    var cleaned := CleanHtml(html);
    var text := ModelInput(cleaned);
    NormalizedText(cleaned, text, Contains(Lower(text), "upgrade"), Contains(Lower(text), "downgrade"))
  }
}
