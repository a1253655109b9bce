/**
 * The Nitter RSS adapter (lib/x.ts): HTML entity decoding, tag stripping,
 * extraction of the first `<tag>…</tag>` body, splitting a feed into
 * `<item>` blocks, the fixed AI keyword filter, and the loop over mirrors.
 * Regular expressions are modelled directly as the scans they perform.
 */
module Feed {
  import opened Base
  import opened Text

  /** A candidate post as parsed from a feed. */
  datatype RssItem = RssItem(id: string, url: string, content: string, createdAt: Option<string>)

  const NitterInstances: seq<string> := [
    "https://nitter.net",
    "https://nitter.poast.org",
    "https://nitter.lacontrevoie.fr"
  ]

  const AiKeywords: seq<string> := [
    "ai", "a.i.", "人工智能", "大模型", "模型", "机器学习", "深度学习",
    "llm", "gpt", "openai", "anthropic", "claude", "gemini", "aigc"
  ]

  // ---------------------------------------------------------------------------
  // decodeHtml

  /** `s.replace(/pat/g, rep)` for a literal `pat`: left to right, without overlaps. */
  function ReplaceAll(s: string, pat: string, rep: string): string
    requires pat != []
    decreases |s|
  {
    if |s| < |pat| then s
    else if s[..|pat|] == pat then rep + ReplaceAll(s[|pat|..], pat, rep)
    else [s[0]] + ReplaceAll(s[1..], pat, rep)
  }

  /** The eight entity replacements, applied in this order, `&amp;` first. */
  function DecodeHtml(s: string): string {
    var s1 := ReplaceAll(s, "&amp;", "&");
    var s2 := ReplaceAll(s1, "&lt;", "<");
    var s3 := ReplaceAll(s2, "&gt;", ">");
    var s4 := ReplaceAll(s3, "&quot;", "\"");
    var s5 := ReplaceAll(s4, "&#39;", "'");
    var s6 := ReplaceAll(s5, "&#x2F;", "/");
    var s7 := ReplaceAll(s6, "&#x60;", "`");
    ReplaceAll(s7, "&#x3D;", "=")
  }

  /** A text in which the first character of `pat` never occurs is left alone. */
  lemma {:induction false} ReplaceAllUntouched(s: string, pat: string, rep: string)
    requires pat != [] && pat[0] !in s
    ensures ReplaceAll(s, pat, rep) == s
    decreases |s|
  {
    if |s| >= |pat| {
      assert s[..|pat|][0] == s[0];
      assert s[0] in s;
      ReplaceAllUntouched(s[1..], pat, rep);
    }
  }

  /** Replacing by something no longer than the pattern never lengthens the text. */
  lemma {:induction false} ReplaceAllShrinks(s: string, pat: string, rep: string)
    requires pat != [] && |rep| <= |pat|
    ensures |ReplaceAll(s, pat, rep)| <= |s|
    decreases |s|
  {
    if |s| >= |pat| {
      if s[..|pat|] == pat {
        ReplaceAllShrinks(s[|pat|..], pat, rep);
      } else {
        ReplaceAllShrinks(s[1..], pat, rep);
      }
    }
  }

  /** Every occurrence of `c` in `s` written as `pat` (as an encoder writes `&` as `&amp;`). */
  function EscapeChar(s: string, c: char, pat: string): (r: string)
    requires pat != []
    ensures c !in s ==> r == s
    ensures |r| >= |s|
    ensures c in s ==> |r| >= |pat|
    decreases |s|
  {
    if s == [] then []
    else
      assert c in s && s[0] != c ==> c in s[1..];
      (if s[0] == c then pat else [s[0]]) + EscapeChar(s[1..], c, pat)
  }

  /**
   * Replacing `pat` by `c` undoes escaping `c` as `pat`, whenever `pat`
   * starts with `c`: the `&amp;` step of DecodeHtml inverts the escaping of `&`.
   */
  lemma {:induction false} ReplaceAllUnescapes(s: string, c: char, pat: string)
    requires pat != [] && pat[0] == c
    ensures ReplaceAll(EscapeChar(s, c, pat), pat, [c]) == s
    decreases |s|
  {
    var e := EscapeChar(s, c, pat);
    if s == [] {
    } else if |e| < |pat| {
      assert c !in s;
    } else if s[0] == c {
      assert e == pat + EscapeChar(s[1..], c, pat);
      assert e[..|pat|] == pat && e[|pat|..] == EscapeChar(s[1..], c, pat);
      ReplaceAllUnescapes(s[1..], c, pat);
    } else {
      assert e == [s[0]] + EscapeChar(s[1..], c, pat);
      assert e[..|pat|][0] == s[0];
      assert e[1..] == EscapeChar(s[1..], c, pat);
      ReplaceAllUnescapes(s[1..], c, pat);
    }
  }

  /** Text without `&` holds no entity, and decoding returns it unchanged. */
  lemma DecodeHtmlPlainText(s: string)
    requires '&' !in s
    ensures DecodeHtml(s) == s
  {
    ReplaceAllUntouched(s, "&amp;", "&");
    ReplaceAllUntouched(s, "&lt;", "<");
    ReplaceAllUntouched(s, "&gt;", ">");
    ReplaceAllUntouched(s, "&quot;", "\"");
    ReplaceAllUntouched(s, "&#39;", "'");
    ReplaceAllUntouched(s, "&#x2F;", "/");
    ReplaceAllUntouched(s, "&#x60;", "`");
    ReplaceAllUntouched(s, "&#x3D;", "=");
  }

  /** Every entity is longer than the character it stands for. */
  lemma DecodeHtmlShrinks(s: string)
    ensures |DecodeHtml(s)| <= |s|
  {
    var s1 := ReplaceAll(s, "&amp;", "&");
    var s2 := ReplaceAll(s1, "&lt;", "<");
    var s3 := ReplaceAll(s2, "&gt;", ">");
    var s4 := ReplaceAll(s3, "&quot;", "\"");
    var s5 := ReplaceAll(s4, "&#39;", "'");
    var s6 := ReplaceAll(s5, "&#x2F;", "/");
    var s7 := ReplaceAll(s6, "&#x60;", "`");
    ReplaceAllShrinks(s, "&amp;", "&");
    ReplaceAllShrinks(s1, "&lt;", "<");
    ReplaceAllShrinks(s2, "&gt;", ">");
    ReplaceAllShrinks(s3, "&quot;", "\"");
    ReplaceAllShrinks(s4, "&#39;", "'");
    ReplaceAllShrinks(s5, "&#x2F;", "/");
    ReplaceAllShrinks(s6, "&#x60;", "`");
    ReplaceAllShrinks(s7, "&#x3D;", "=");
  }

  /**
   * Because `&amp;` is replaced first, a doubly encoded entity is decoded
   * twice: the text `&lt;`, encoded as `&amp;lt;`, comes out as `<`.
   */
  lemma DecodeHtmlDecodesTwice()
    ensures DecodeHtml("&amp;lt;") == "<"
  {
    var s := "&amp;lt;";
    assert s[..5] == "&amp;";
    assert s[5..] == "lt;";
    assert ReplaceAll("lt;", "&amp;", "&") == "lt;";
    var s1 := ReplaceAll(s, "&amp;", "&");
    assert s1 == "&lt;";
    assert s1[..4] == "&lt;";
    assert s1[4..] == [];
    var s2 := ReplaceAll(s1, "&lt;", "<");
    assert s2 == "<";
  }

  // ---------------------------------------------------------------------------
  // stripHtml

  /** No `<` is followed, anywhere later, by a `>`: no tag is left. */
  ghost predicate NoTag(s: string) {
    forall i, j :: 0 <= i < j < |s| && s[i] == '<' ==> s[j] != '>'
  }

  /** Every whitespace character is a plain space and none is followed by another. */
  ghost predicate Collapsed(s: string) {
    forall i :: 0 <= i < |s| && IsSpace(s[i]) ==> s[i] == ' ' && (i + 1 < |s| ==> !IsSpace(s[i + 1]))
  }

  /** `s.replace(/<[^>]*>/g, " ")`: each `<` up to the next `>` becomes one space. */
  function TagsToSpaces(s: string): string
    decreases |s|
  {
    if s == [] then []
    else if s[0] == '<' && '>' in s then " " + TagsToSpaces(s[IndexOf(s, '>') + 1..])
    else [s[0]] + TagsToSpaces(s[1..])
  }

  /** `s.replace(/\s+/g, " ")`: each run of whitespace becomes one space. */
  function CollapseSpaces(s: string): string
    decreases |s|
  {
    if s == [] then []
    else if IsSpace(s[0]) then
      var rest := TrimStart(s);
      " " + CollapseSpaces(rest)
    else [s[0]] + CollapseSpaces(s[1..])
  }

  function StripHtml(s: string): string {
    Trim(CollapseSpaces(TagsToSpaces(s)))
  }

  lemma {:induction false} TagsToSpacesWithoutClose(s: string)
    requires '>' !in s
    ensures TagsToSpaces(s) == s
    decreases |s|
  {
    if s != [] {
      TagsToSpacesWithoutClose(s[1..]);
    }
  }

  lemma {:induction false} TagsToSpacesNoTag(s: string)
    ensures NoTag(TagsToSpaces(s))
    decreases |s|
  {
    if s == [] {
    } else if s[0] == '<' && '>' in s {
      TagsToSpacesNoTag(s[IndexOf(s, '>') + 1..]);
    } else if s[0] == '<' {
      TagsToSpacesWithoutClose(s);
    } else {
      TagsToSpacesNoTag(s[1..]);
    }
  }

  /** A text that already holds no tag is left as it is. */
  lemma {:induction false} TagsToSpacesOfNoTag(s: string)
    requires NoTag(s)
    ensures TagsToSpaces(s) == s
    decreases |s|
  {
    if s != [] {
      if s[0] == '<' {
        assert '>' !in s[1..];
        TagsToSpacesWithoutClose(s);
      } else {
        TagsToSpacesOfNoTag(s[1..]);
      }
    }
  }

  lemma {:induction false} CollapseSpacesHead(s: string)
    requires s != []
    ensures CollapseSpaces(s) != []
    ensures CollapseSpaces(s)[0] == if IsSpace(s[0]) then ' ' else s[0]
  {
  }

  /** Collapsing keeps out every non-whitespace character the text does not hold. */
  lemma {:induction false} CollapseSpacesAbsent(s: string, c: char)
    requires !IsSpace(c) && c !in s
    ensures c !in CollapseSpaces(s)
    decreases |s|
  {
    if s != [] {
      if IsSpace(s[0]) {
        CollapseSpacesAbsent(TrimStart(s), c);
      } else {
        CollapseSpacesAbsent(s[1..], c);
      }
    }
  }

  lemma {:induction false} CollapseSpacesCollapsed(s: string)
    ensures Collapsed(CollapseSpaces(s))
    decreases |s|
  {
    if s != [] {
      var rest := if IsSpace(s[0]) then TrimStart(s) else s[1..];
      CollapseSpacesCollapsed(rest);
      if IsSpace(s[0]) && rest != [] {
        CollapseSpacesHead(rest);
      }
    }
  }

  lemma {:induction false} CollapseSpacesNoTag(s: string)
    requires NoTag(s)
    ensures NoTag(CollapseSpaces(s))
    decreases |s|
  {
    if s != [] {
      if IsSpace(s[0]) {
        CollapseSpacesNoTag(TrimStart(s));
      } else {
        CollapseSpacesNoTag(s[1..]);
        if s[0] == '<' {
          assert '>' !in s[1..];
          CollapseSpacesAbsent(s[1..], '>');
        }
      }
    }
  }

  /** A text already collapsed is left as it is. */
  lemma {:induction false} CollapseSpacesOfCollapsed(s: string)
    requires Collapsed(s)
    ensures CollapseSpaces(s) == s
    decreases |s|
  {
    if s != [] {
      if IsSpace(s[0]) {
        var rest := TrimStart(s);
        assert rest == s[1..] by {
          assert |s| - |rest| >= 1;
          assert |s| > 1 ==> !IsSpace(s[1]);
        }
        CollapseSpacesOfCollapsed(rest);
      } else {
        CollapseSpacesOfCollapsed(s[1..]);
      }
    }
  }

  /** The text `stripHtml` returns: no tag, no whitespace at the ends, no run of whitespace. */
  lemma StripHtmlClean(s: string)
    ensures Trimmed(StripHtml(s)) && Collapsed(StripHtml(s)) && NoTag(StripHtml(s))
  {
    var t := TagsToSpaces(s);
    TagsToSpacesNoTag(s);
    CollapseSpacesCollapsed(t);
    CollapseSpacesNoTag(t);
    TrimClean(CollapseSpaces(t));
  }

  lemma TrimClean(c: string)
    requires Collapsed(c) && NoTag(c)
    ensures Collapsed(Trim(c)) && NoTag(Trim(c))
  {
    var i := LeadingSpaces(c);
    SliceClean(c, i, i + |Trim(c)|);
  }

  lemma SliceClean(s: string, i: nat, j: nat)
    requires i <= j <= |s| && Collapsed(s) && NoTag(s)
    ensures Collapsed(s[i..j]) && NoTag(s[i..j])
  {
    var t := s[i..j];
    forall a | 0 <= a < |t| && IsSpace(t[a])
      ensures t[a] == ' ' && (a + 1 < |t| ==> !IsSpace(t[a + 1]))
    {
      assert t[a] == s[i + a];
      if a + 1 < |t| {
        assert t[a + 1] == s[i + a + 1];
      }
    }
    forall a, b | 0 <= a < b < |t| && t[a] == '<'
      ensures t[b] != '>'
    {
      assert t[a] == s[i + a] && t[b] == s[i + b];
    }
  }

  /** Stripping a stripped text changes nothing. */
  lemma StripHtmlIdempotent(s: string)
    ensures StripHtml(StripHtml(s)) == StripHtml(s)
  {
    var r := StripHtml(s);
    StripHtmlClean(s);
    TagsToSpacesOfNoTag(r);
    CollapseSpacesOfCollapsed(r);
  }

  // ---------------------------------------------------------------------------
  // Matches of `open[\s\S]*?close` for non-empty literal delimiters: the
  // first one (`extractTag`) and all of them (`parseRss`).

  /** `xml[s..e]` is one match of `open[\s\S]*?close`: the shortest one starting at `s`. */
  ghost predicate BlockAt(xml: string, open: string, close: string, s: int, e: int) {
    && MatchAt(xml, open, s) && s + |open| + |close| <= e && MatchAt(xml, close, e - |close|)
    && forall k :: s + |open| <= k < e - |close| ==> !MatchAt(xml, close, k)
  }

  ghost predicate NoOpenIn(xml: string, open: string, a: int, b: int) {
    forall k :: a <= k < b ==> !MatchAt(xml, open, k)
  }

  /** No complete block starts at or after `from`. */
  ghost predicate NoBlockFrom(xml: string, open: string, close: string, from: int) {
    forall i, j :: from <= i && MatchAt(xml, open, i) && MatchAt(xml, close, j) ==> j < i + |open|
  }

  /**
   * `spans` are the matches of the global pattern from index `from` on: each
   * is the shortest block at the first opening delimiter not inside an
   * earlier block, they follow one another in document order, and no
   * complete block starts after the last one.
   */
  ghost predicate GlobalMatches(xml: string, open: string, close: string, from: nat, spans: seq<(nat, nat)>) {
    && (forall k :: 0 <= k < |spans| ==> from <= spans[k].0 && BlockAt(xml, open, close, spans[k].0, spans[k].1))
    && (spans != [] ==> NoOpenIn(xml, open, from, spans[0].0))
    && (forall k :: 0 < k < |spans| ==> spans[k - 1].1 <= spans[k].0 && NoOpenIn(xml, open, spans[k - 1].1, spans[k].0))
    && NoBlockFrom(xml, open, close, if spans == [] then from else spans[|spans| - 1].1)
  }

  /**
   * The next match of `open[\s\S]*?close` at or after `from`, as the span of
   * indices it covers: the first opening delimiter, then the first closing
   * delimiter after it.
   */
  function NextBlock(xml: string, open: string, close: string, from: nat): (r: Option<(nat, nat)>)
    requires open != [] && close != []
    ensures r.Some? ==> from <= r.value.0 && r.value.0 + |open| + |close| <= r.value.1 <= |xml|
  {
    var i := Find(xml, open, from);
    if i.None? then None
    else
      var j := Find(xml, close, i.value + |open|);
      if j.None? then None else Some((i.value, j.value + |close|))
  }

  /** The spans of the successive blocks of `xml` from index `from` on. */
  function Spans(xml: string, open: string, close: string, from: nat): seq<(nat, nat)>
    requires open != [] && close != []
    decreases |xml| - from
  {
    match NextBlock(xml, open, close, from)
    case None => []
    case Some(b) => [b] + Spans(xml, open, close, b.1)
  }

  /** The block `NextBlock` finds is the shortest one at the first opening delimiter. */
  lemma FoundBlock(xml: string, open: string, close: string, from: nat)
    requires open != [] && close != []
    requires NextBlock(xml, open, close, from).Some?
    ensures var b := NextBlock(xml, open, close, from).value;
      from <= b.0 && BlockAt(xml, open, close, b.0, b.1) && NoOpenIn(xml, open, from, b.0)
  {
    var i := Find(xml, open, from).value;
    var j := Find(xml, close, i + |open|).value;
    FindLeftmost(xml, open, from);
    FindLeftmost(xml, close, i + |open|);
    assert NextBlock(xml, open, close, from).value == (i, j + |close|);
    assert forall k :: i + |open| <= k < j ==> !MatchAt(xml, close, k);
  }

  /** When `NextBlock` finds nothing, no complete block starts at or after `from`. */
  lemma NoBlock(xml: string, open: string, close: string, from: nat)
    requires open != [] && close != []
    requires NextBlock(xml, open, close, from).None?
    ensures NoBlockFrom(xml, open, close, from)
  {
    FindLeftmost(xml, open, from);
    if Find(xml, open, from).Some? {
      var i := Find(xml, open, from).value;
      FindLeftmost(xml, close, i + |open|);
      forall i', j' | from <= i' && MatchAt(xml, open, i') && MatchAt(xml, close, j')
        ensures j' < i' + |open|
      {
        assert i <= i';
      }
    }
  }

  /** One more block in front of the matches that follow it. */
  lemma SpansCons(xml: string, open: string, close: string, from: nat, i: nat, e: nat, rest: seq<(nat, nat)>)
    requires from <= i && BlockAt(xml, open, close, i, e) && NoOpenIn(xml, open, from, i)
    requires GlobalMatches(xml, open, close, e, rest)
    ensures GlobalMatches(xml, open, close, from, [(i, e)] + rest)
  {
    var spans := [(i, e)] + rest;
    forall k | 0 < k < |spans|
      ensures from <= spans[k].0 && BlockAt(xml, open, close, spans[k].0, spans[k].1)
      ensures spans[k - 1].1 <= spans[k].0 && NoOpenIn(xml, open, spans[k - 1].1, spans[k].0)
    {
      assert spans[k] == rest[k - 1];
      if k > 1 {
        assert spans[k - 1] == rest[k - 2];
      }
    }
    if rest != [] {
      assert spans[|spans| - 1] == rest[|rest| - 1];
    }
  }

  /** `Spans` computes the global leftmost-shortest matches. */
  lemma {:induction false} SpansMatch(xml: string, open: string, close: string, from: nat)
    requires open != [] && close != []
    ensures GlobalMatches(xml, open, close, from, Spans(xml, open, close, from))
    decreases |xml| - from
  {
    match NextBlock(xml, open, close, from)
    case None =>
      NoBlock(xml, open, close, from);
    case Some(b) =>
      FoundBlock(xml, open, close, from);
      SpansMatch(xml, open, close, b.1);
      SpansCons(xml, open, close, from, b.0, b.1, Spans(xml, open, close, b.1));
  }

  /** Every span lies within `xml`, at or after `from`. */
  ghost predicate WithinFrom(xml: string, from: nat, spans: seq<(nat, nat)>) {
    forall k :: 0 <= k < |spans| ==> from <= spans[k].0 <= spans[k].1 <= |xml|
  }

  lemma {:induction false} SpansBounds(xml: string, open: string, close: string, from: nat)
    requires open != [] && close != []
    ensures WithinFrom(xml, from, Spans(xml, open, close, from))
    decreases |xml| - from
  {
    match NextBlock(xml, open, close, from)
    case None =>
    case Some(b) =>
      var rest := Spans(xml, open, close, b.1);
      SpansBounds(xml, open, close, b.1);
      var spans := Spans(xml, open, close, from);
      assert spans == [b] + rest;
      forall k | 0 < k < |spans|
        ensures from <= spans[k].0 <= spans[k].1 <= |xml|
      {
        assert spans[k] == rest[k - 1];
      }
  }

  // ---------------------------------------------------------------------------
  // extractTag

  function OpenTag(tag: string): string { "<" + tag + ">" }
  function CloseTag(tag: string): string { "</" + tag + ">" }

  /** `<tag>` at index `i` of `xml`, letters compared without regard to case. */
  ghost predicate OpenAt(xml: string, tag: string, i: int) {
    MatchAt(Lower(xml), Lower(OpenTag(tag)), i)
  }

  ghost predicate CloseAt(xml: string, tag: string, j: int) {
    MatchAt(Lower(xml), Lower(CloseTag(tag)), j)
  }

  /**
   * `xml.match(new RegExp("<tag>([\s\S]*?)</tag>", "i"))?.[1]`: the body of
   * the leftmost `<tag>` that has a closing tag after it, up to the nearest
   * such closing tag; nothing when no opening tag is followed by a closing one.
   */
  function ExtractTag(xml: string, tag: string): Option<string> {
    var open := Lower(OpenTag(tag));
    var close := Lower(CloseTag(tag));
    match NextBlock(Lower(xml), open, close, 0)
    case None => None
    case Some(b) => Some(xml[b.0 + |open|..b.1 - |close|])
  }

  /** `ExtractTag` finds nothing exactly when no opening tag is followed by a closing one. */
  lemma ExtractTagAbsent(xml: string, tag: string)
    ensures ExtractTag(xml, tag).None? <==>
      forall i, j :: OpenAt(xml, tag, i) && CloseAt(xml, tag, j) ==> j < i + |OpenTag(tag)|
  {
    var lx := Lower(xml);
    var open := Lower(OpenTag(tag));
    var close := Lower(CloseTag(tag));
    assert |open| == |OpenTag(tag)|;
    if NextBlock(lx, open, close, 0).None? {
      NoBlock(lx, open, close, 0);
    } else {
      FoundBlock(lx, open, close, 0);
      var b := NextBlock(lx, open, close, 0).value;
      assert OpenAt(xml, tag, b.0) && CloseAt(xml, tag, b.1 - |close|);
    }
  }

  /**
   * What `ExtractTag` finds is the body between the leftmost opening tag and
   * the nearest closing tag after it: the leftmost, then shortest, match of
   * the pattern.
   */
  lemma ExtractTagLeftmostShortest(xml: string, tag: string)
    requires ExtractTag(xml, tag).Some?
    ensures exists i, j ::
      && OpenAt(xml, tag, i) && CloseAt(xml, tag, j) && i + |OpenTag(tag)| <= j
      && ExtractTag(xml, tag).value == xml[i + |OpenTag(tag)|..j]
      && (forall i' :: 0 <= i' < i ==> !OpenAt(xml, tag, i'))
      && (forall j' :: i + |OpenTag(tag)| <= j' < j ==> !CloseAt(xml, tag, j'))
  {
    var lx := Lower(xml);
    var open := Lower(OpenTag(tag));
    var close := Lower(CloseTag(tag));
    assert |open| == |OpenTag(tag)|;
    FoundBlock(lx, open, close, 0);
    var b := NextBlock(lx, open, close, 0).value;
    var i, j := b.0, b.1 - |close|;
    assert OpenAt(xml, tag, i) && CloseAt(xml, tag, j) && i + |OpenTag(tag)| <= j;
    assert ExtractTag(xml, tag).value == xml[i + |OpenTag(tag)|..j];
    assert forall i' :: 0 <= i' < i ==> !OpenAt(xml, tag, i');
    assert forall j' :: i + |OpenTag(tag)| <= j' < j ==> !CloseAt(xml, tag, j');
  }

  // ---------------------------------------------------------------------------
  // parseRss

  const ItemOpen: string := "<item>"
  const ItemClose: string := "</item>"

  /**
   * The spans of the `<item>` blocks of `xml`: the matches of
   * `/<item>[\s\S]*?<\/item>/g`, in document order, each within `xml`.
   */
  function ItemSpans(xml: string): (spans: seq<(nat, nat)>)
    ensures GlobalMatches(xml, ItemOpen, ItemClose, 0, spans)
    ensures forall k :: 0 <= k < |spans| ==> spans[k].0 <= spans[k].1 <= |xml|
  {
    SpansMatch(xml, ItemOpen, ItemClose, 0);
    SpansBounds(xml, ItemOpen, ItemClose, 0);
    Spans(xml, ItemOpen, ItemClose, 0)
  }

  /** `xml.match(/<item>[\s\S]*?<\/item>/g) ?? []`. */
  function ItemBlocks(xml: string): (blocks: seq<string>)
    ensures |blocks| == |ItemSpans(xml)|
    ensures forall k :: 0 <= k < |blocks| ==> blocks[k] == xml[ItemSpans(xml)[k].0..ItemSpans(xml)[k].1]
  {
    var spans := ItemSpans(xml);
    seq(|spans|, k requires 0 <= k < |spans| => xml[spans[k].0..spans[k].1])
  }

  /** The mapping of one `<item>` block to a candidate post. */
  function ParseItem(block: string): (item: RssItem)
    ensures item.id == Trim(ExtractTag(block, "guid").GetOr(ExtractTag(block, "link").GetOr("")))
    ensures item.url == Trim(ExtractTag(block, "link").GetOr(""))
    ensures item.createdAt == ExtractTag(block, "pubDate")
    ensures var title := ExtractTag(block, "title").GetOr("");
      item.content == StripHtml(DecodeHtml(if title != "" then title else ExtractTag(block, "description").GetOr("")))
    ensures Trimmed(item.id) && Trimmed(item.url)
    ensures Trimmed(item.content) && Collapsed(item.content) && NoTag(item.content)
  {
    var title := ExtractTag(block, "title").GetOr("");
    var description := ExtractTag(block, "description").GetOr("");
    var link := ExtractTag(block, "link").GetOr("");
    var guid := ExtractTag(block, "guid").GetOr(link);
    var pubDate := ExtractTag(block, "pubDate");
    var contentRaw := if title != "" then title else description;
    StripHtmlClean(DecodeHtml(contentRaw));
    RssItem(Trim(guid), Trim(link), StripHtml(DecodeHtml(contentRaw)), pubDate)
  }

  /** One candidate per `<item>` block, in document order. */
  function ParseRss(xml: string): (items: seq<RssItem>)
    ensures |items| == |ItemBlocks(xml)|
    ensures forall k :: 0 <= k < |items| ==> items[k] == ParseItem(ItemBlocks(xml)[k])
  {
    var blocks := ItemBlocks(xml);
    seq(|blocks|, k requires 0 <= k < |blocks| => ParseItem(blocks[k]))
  }

  // ---------------------------------------------------------------------------
  // isAiRelated

  /** `AI_KEYWORDS.some((keyword) => text.toLowerCase().includes(keyword))`. */
  function IsAiRelated(text: string): bool {
    exists k :: 0 <= k < |AiKeywords| && Contains(Lower(text), AiKeywords[k])
  }

  /** The filter ignores letter case. */
  lemma IsAiRelatedIgnoresCase(text: string)
    ensures IsAiRelated(text) == IsAiRelated(Lower(text))
  {
    LowerIdempotent(text);
  }

  /** The two letters "ai" anywhere, in any case, make a text relevant: even "said". */
  lemma {:induction false} ContainsAiIsRelated(text: string, k: nat)
    requires MatchAt(Lower(text), "ai", k)
    ensures IsAiRelated(text)
  {
    assert AiKeywords[0] == "ai";
    ContainsAt(Lower(text), "ai", k);
  }

  lemma SaidIsAiRelated()
    ensures IsAiRelated("said")
  {
    assert Lower("said")[1..3] == "ai";
    ContainsAiIsRelated("said", 1);
  }

  lemma LlmAnnouncementIsAiRelated()
    ensures IsAiRelated("We launched a new LLM today")
  {
    var low := Lower("We launched a new LLM today");
    assert low[18..21] == "llm";
    assert AiKeywords[7] == "llm";
    ContainsAt(low, "llm", 18);
  }

  lemma WeatherIsNotAiRelated()
    ensures !IsAiRelated("weather update")
  {
    var t := "weather update";
    assert Lower(t) == t;
    forall k | 0 <= k < |AiKeywords|
      ensures !Contains(t, AiKeywords[k])
    {
      var missing := ['i', 'i', '人', '大', '模', '机', '深', 'l', 'g', 'o', 'n', 'c', 'g', 'i'];
      assert missing[k] in AiKeywords[k];
      NotContainsMissingChar(t, AiKeywords[k], missing[k]);
    }
  }

  // ---------------------------------------------------------------------------
  // fetchRss

  /** What one `fetch` call gives back: a response with a status, or an exception. */
  datatype HttpOutcome = Response(status: int, body: string) | NetworkError(reason: string)

  /** What `fetchRss` throws: the error of the last mirror tried. */
  datatype FetchError = BadStatus(status: int) | Unreachable(reason: string)

  /** `res.ok`: a status in the range 200 to 299. */
  predicate IsOk(o: HttpOutcome) {
    o.Response? && 200 <= o.status <= 299
  }

  function ErrorOf(o: HttpOutcome): FetchError
    requires !IsOk(o)
  {
    if o.Response? then BadStatus(o.status) else Unreachable(o.reason)
  }

  function FeedUrl(base: string, handle: string): string {
    base + "/" + handle + "/rss"
  }

  /** The answer the `k`-th mirror gives for `handle`. */
  function MirrorAnswer(http: string -> HttpOutcome, handle: string, k: nat): HttpOutcome
    requires k < |NitterInstances|
  {
    http(FeedUrl(NitterInstances[k], handle))
  }

  /** The outcome of trying the mirrors from the `k`-th on: the first success, else the last error. */
  function FirstOk(http: string -> HttpOutcome, handle: string, k: nat): Result<seq<RssItem>, FetchError>
    requires k < |NitterInstances|
    decreases |NitterInstances| - k
  {
    var a := MirrorAnswer(http, handle, k);
    if IsOk(a) then Ok(ParseRss(a.body))
    else if k + 1 == |NitterInstances| then Err(ErrorOf(a))
    else FirstOk(http, handle, k + 1)
  }

  /** What `fetchRss(handle)` resolves to (`Ok`) or throws (`Err`). */
  function RssOutcome(http: string -> HttpOutcome, handle: string): Result<seq<RssItem>, FetchError> {
    FirstOk(http, handle, 0)
  }

  /**
   * Tries the mirrors in their listed order and returns the parse of the
   * first successful response; a non-2xx status counts as a failure. When
   * every mirror fails, fails with the last mirror's error. `http` stands
   * for the network.
   */
  method FetchRss(handle: string, http: string -> HttpOutcome) returns (r: Result<seq<RssItem>, FetchError>)
    ensures r.Ok? <==> exists k :: 0 <= k < |NitterInstances| && IsOk(MirrorAnswer(http, handle, k))
    ensures r.Ok? ==> exists k ::
      && 0 <= k < |NitterInstances| && IsOk(MirrorAnswer(http, handle, k))
      && (forall k' :: 0 <= k' < k ==> !IsOk(MirrorAnswer(http, handle, k')))
      && r.value == ParseRss(MirrorAnswer(http, handle, k).body)
    ensures r.Err? ==> r.error == ErrorOf(MirrorAnswer(http, handle, |NitterInstances| - 1))
    ensures r == RssOutcome(http, handle)
  {
    var lastError: Option<FetchError> := None;
    var i := 0;
    while i < |NitterInstances|
      invariant 0 <= i <= |NitterInstances|
      invariant forall k :: 0 <= k < i ==> !IsOk(MirrorAnswer(http, handle, k))
      invariant i == 0 <==> lastError.None?
      invariant i > 0 ==> lastError == Some(ErrorOf(MirrorAnswer(http, handle, i - 1)))
      invariant i < |NitterInstances| ==> RssOutcome(http, handle) == FirstOk(http, handle, i)
      invariant i > 0 ==> RssOutcome(http, handle) == FirstOk(http, handle, i - 1)
    {
      var res := http(FeedUrl(NitterInstances[i], handle));
      if IsOk(res) {
        assert IsOk(MirrorAnswer(http, handle, i));
        return Ok(ParseRss(res.body));
      }
      lastError := Some(ErrorOf(res));
      i := i + 1;
    }
    return Err(lastError.value);
  }
}
