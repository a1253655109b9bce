/**
 * `normalizeHandle` (lib/normalize.ts): turns what a user typed — a handle,
 * `@handle`, or a profile URL — into a bare handle. `new URL(...)` is an
 * oracle `parseUrl` that gives the URL's pathname, or nothing when the
 * constructor throws.
 */
module Normalize {
  import opened Base
  import opened Text
  import opened Seqs

  /** `s.replace(/^@/, "")`: one leading `@` removed. */
  function StripAt(s: string): string {
    if s != [] && s[0] == '@' then s[1..] else s
  }

  function StartsWith(s: string, prefix: string): bool {
    |prefix| <= |s| && s[..|prefix|] == prefix
  }

  /** `s.split(sep)`: the pieces between the separators, empty ones included. */
  function Split(s: string, sep: char): (parts: seq<string>)
    ensures |parts| > 0
    ensures forall k :: 0 <= k < |parts| ==> sep !in parts[k]
    decreases |s|
  {
    if sep !in s then [s]
    else
      var i := IndexOf(s, sep);
      [s[..i]] + Split(s[i + 1..], sep)
  }

  /** `parts.join(sep)`. */
  function Join(parts: seq<string>, sep: char): string
    decreases |parts|
  {
    if |parts| <= 1 then (if parts == [] then [] else parts[0])
    else parts[0] + [sep] + Join(parts[1..], sep)
  }

  /** Splitting loses nothing: joining the pieces again gives back the text. */
  lemma {:induction false} JoinSplit(s: string, sep: char)
    ensures Join(Split(s, sep), sep) == s
    decreases |s|
  {
    if sep in s {
      var i := IndexOf(s, sep);
      var rest := Split(s[i + 1..], sep);
      JoinSplit(s[i + 1..], sep);
      assert Split(s, sep)[1..] == rest;
      assert s == s[..i] + [sep] + s[i + 1..];
    }
  }

  function NonEmpty(s: string): bool { s != [] }

  /** `url.pathname.split("/").filter(Boolean)`. */
  function PathSegments(path: string): seq<string> {
    Filter(Split(path, '/'), NonEmpty)
  }

  /** The handle after the URL step: the first path segment, when there is one. */
  function FromUrl(handle: string, parseUrl: string -> Option<string>): string {
    if !StartsWith(handle, "http") then handle
    else match parseUrl(handle)
      case None => handle
      case Some(path) =>
        var parts := PathSegments(path);
        if |parts| > 0 then parts[0] else handle
  }

  function NormalizeHandle(input: string, parseUrl: string -> Option<string>): (r: string)
    ensures Trimmed(r)
    ensures AllSpace(input) ==> r == ""
  {
    var handle := Trim(input);
    if handle == "" then ""
    else Trim(StripAt(FromUrl(StripAt(handle), parseUrl)))
  }

  /** Input that is neither `@…` nor `http…` once trimmed comes back merely trimmed. */
  lemma PlainHandleIsTrimmed(input: string, parseUrl: string -> Option<string>)
    requires var t := Trim(input); t == [] || (t[0] != '@' && !StartsWith(t, "http"))
    ensures NormalizeHandle(input, parseUrl) == Trim(input)
  {
  }

  /** A URL without a path segment, or one `new URL` rejects, keeps the handle it had after the `@` step. */
  lemma UrlWithoutSegmentIsKept(input: string, parseUrl: string -> Option<string>)
    requires var h := StripAt(Trim(input)); Trim(input) != [] && StartsWith(h, "http")
    requires var h := StripAt(Trim(input)); parseUrl(h).None? || PathSegments(parseUrl(h).value) == []
    ensures NormalizeHandle(input, parseUrl) == Trim(StripAt(StripAt(Trim(input))))
  {
  }

  /** Splitting at the first separator. */
  lemma SplitAtFirst(seg: string, rest: string, sep: char)
    requires sep !in seg
    ensures Split(seg + [sep] + rest, sep) == [seg] + Split(rest, sep)
  {
    var s := seg + [sep] + rest;
    assert s[|seg|] == sep;
    var i := IndexOf(s, sep);
    assert s[..|seg|] == seg;
    assert i == |seg|;
    assert s[i + 1..] == rest;
  }

  /**
   * An `http…` input that `new URL` accepts, with a non-empty segment in its
   * pathname, becomes that first segment, with a leading `@` and edge
   * whitespace removed.
   */
  lemma UrlGivesFirstSegment(input: string, parseUrl: string -> Option<string>, path: string)
    requires var h := StripAt(Trim(input)); Trim(input) != [] && StartsWith(h, "http")
    requires parseUrl(StripAt(Trim(input))) == Some(path) && PathSegments(path) != []
    ensures NormalizeHandle(input, parseUrl) == Trim(StripAt(PathSegments(path)[0]))
  {
  }

  /** The usual profile URL: a pathname `/seg` of one plain segment yields `seg`. */
  lemma {:induction false} ProfileUrlGivesHandle(input: string, parseUrl: string -> Option<string>, seg: string)
    requires var h := StripAt(Trim(input)); Trim(input) != [] && StartsWith(h, "http")
    requires parseUrl(StripAt(Trim(input))) == Some("/" + seg)
    requires seg != [] && '/' !in seg && seg[0] != '@' && Trimmed(seg)
    ensures NormalizeHandle(input, parseUrl) == seg
  {
    SplitAtFirst([], seg, '/');
    assert Split(seg, '/') == [seg];
    assert "/" + seg == [] + ['/'] + seg;
    assert Split("/" + seg, '/') == [[]] + [seg];
    FilterConcat([[]], [seg], NonEmpty);
    assert PathSegments("/" + seg) == [seg];
    UrlGivesFirstSegment(input, parseUrl, "/" + seg);
  }

  /** `https://x.com/elonmusk`, whose pathname is `/elonmusk`, gives "elonmusk". */
  lemma ProfileUrlExample(input: string, parseUrl: string -> Option<string>)
    requires input == "https://x.com/elonmusk"
    requires parseUrl(input) == Some("/elonmusk")
    ensures NormalizeHandle(input, parseUrl) == "elonmusk"
  {
    var seg := "elonmusk";
    assert Trimmed(input) by {
      assert input[0] == 'h' && input[|input| - 1] == 'k';
    }
    assert StartsWith(input, "http") by {
      assert input[..4] == "http";
    }
    assert Trimmed(seg) by {
      assert seg[0] == 'e' && seg[|seg| - 1] == 'k';
    }
    assert "/elonmusk" == "/" + seg;
    ProfileUrlGivesHandle(input, parseUrl, seg);
  }

  /**
   * A pathname `/seg/rest`, the segment plain, yields `seg` whatever follows
   * the second `/`.
   */
  lemma {:induction false} NestedUrlGivesFirstSegment(input: string, parseUrl: string -> Option<string>, path: string, k: nat)
    requires var h := StripAt(Trim(input)); Trim(input) != [] && StartsWith(h, "http")
    requires parseUrl(StripAt(Trim(input))) == Some(path)
    requires 1 < k < |path| && path[0] == '/' && path[k] == '/' && '/' !in path[1..k]
    requires path[1] != '@' && Trimmed(path[1..k])
    ensures NormalizeHandle(input, parseUrl) == path[1..k]
  {
    var seg, rest := path[1..k], path[k + 1..];
    assert path == "/" + seg + "/" + rest;
    FirstPathSegment(seg, rest);
    UrlGivesFirstSegment(input, parseUrl, path);
  }

  lemma FirstPathSegment(seg: string, rest: string)
    requires seg != [] && '/' !in seg
    ensures var parts := PathSegments("/" + seg + "/" + rest); parts != [] && parts[0] == seg
  {
    var path := "/" + seg + "/" + rest;
    assert path == [] + ['/'] + (seg + "/" + rest);
    SplitAtFirst([], seg + "/" + rest, '/');
    SplitAtFirst(seg, rest, '/');
    var pieces := Split(path, '/');
    assert pieces == [[]] + ([seg] + Split(rest, '/'));
    FilterConcat([[]], [seg] + Split(rest, '/'), NonEmpty);
    FilterConcat([seg], Split(rest, '/'), NonEmpty);
  }

  /** `@` in front of a plain handle is dropped. */
  lemma AtIsDropped(input: string, parseUrl: string -> Option<string>)
    requires |input| > 1 && input[0] == '@'
    requires var h := input[1..]; Trimmed(h) && h[0] != '@' && !StartsWith(h, "http")
    ensures NormalizeHandle(input, parseUrl) == input[1..]
  {
    assert input[|input| - 1] == input[1..][|input| - 2];
    assert Trim(input) == input;
  }

  lemma AtHandle(parseUrl: string -> Option<string>)
    ensures NormalizeHandle("@elonmusk", parseUrl) == "elonmusk"
  {
    var input := "@elonmusk";
    var h := input[1..];
    assert h[0] == 'e' && h[|h| - 1] == 'k';
    assert !StartsWith(h, "http") by {
      assert h[..4][0] != "http"[0];
    }
    AtIsDropped(input, parseUrl);
  }
}
