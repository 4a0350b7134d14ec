/**
 * The helper functions of the quest generator: `sanitize_id`, `html_escape`,
 * `lines_to_list` and `list_to_lines`.
 */
module Helpers {
  import opened StrLib

  // ---------------------------------------------------------------------------
  // sanitize_id
  // ---------------------------------------------------------------------------

  /** The characters allowed in an anchor id: a-z, 0-9, '_' and '-'. */
  predicate IsIdChar(c: char) {
    ('a' <= c <= 'z') || ('0' <= c <= '9') || c == '_' || c == '-'
  }

  predicate AllIdChars(s: string) {
    forall i :: 0 <= i < |s| ==> IsIdChar(s[i])
  }

  ghost predicate NoDoubleDash(s: string) {
    forall i, j :: 0 <= i && j == i + 1 && j < |s| ==> !(s[i] == '-' && s[j] == '-')
  }

  /** An id in the form `sanitize_id` produces: non-empty, over a-z0-9_-,
      no '-' at either end and no "--". */
  ghost predicate IsCleanId(s: string) {
    |s| > 0 && AllIdChars(s) && s[0] != '-' && s[|s| - 1] != '-' && NoDoubleDash(s)
  }

  /** `str.lower()` on ASCII letters and the German umlauts; every other
      character is left as it is. */
  function LowerChar(c: char): char {
    if 'A' <= c <= 'Z' then (c as int + 32) as char
    else if c == 'Ä' then 'ä'
    else if c == 'Ö' then 'ö'
    else if c == 'Ü' then 'ü'
    else if c == 'ẞ' then 'ß'
    else c
  }

  function Lower(s: string): (r: string)
    ensures |r| == |s|
  {
    seq(|s|, i requires 0 <= i < |s| => LowerChar(s[i]))
  }

  /** The four `replace` calls for ä, ö, ü and ß. */
  function Transliterate(s: string): string {
    ReplaceChar(ReplaceChar(ReplaceChar(ReplaceChar(s, 'ä', "ae"), 'ö', "oe"), 'ü', "ue"), 'ß', "ss")
  }

  function DropNonId(s: string): (r: string)
    ensures |r| <= |s| && r == s[|s| - |r|..]
    ensures r == [] || IsIdChar(r[0])
  {
    if s == [] || IsIdChar(s[0]) then s else DropNonId(s[1..])
  }

  /** `re.sub(r"[^a-z0-9\-_]+", "-", s)`: each maximal run of characters outside
      a-z0-9_- becomes a single '-'. */
  function ReplaceNonIdRuns(s: string): (r: string)
    ensures AllIdChars(r)
    ensures |r| == 0 <==> |s| == 0
    decreases |s|
  {
    if s == [] then []
    else if IsIdChar(s[0]) then [s[0]] + ReplaceNonIdRuns(s[1..])
    else "-" + ReplaceNonIdRuns(DropNonId(s[1..]))
  }

  function DropDashes(s: string): (r: string)
    ensures |r| <= |s| && r == s[|s| - |r|..]
    ensures r == [] || r[0] != '-'
  {
    if s == [] || s[0] != '-' then s else DropDashes(s[1..])
  }

  /** `re.sub(r"-{2,}", "-", s)`: each run of two or more '-' becomes one '-'. */
  function CollapseDashes(s: string): (r: string)
    ensures (r == []) == (s == []) && (r != [] ==> r[0] == s[0])
    decreases |s|
  {
    if s == [] then []
    else if s[0] == '-' then "-" + CollapseDashes(DropDashes(s[1..]))
    else [s[0]] + CollapseDashes(s[1..])
  }

  /** Collapsing keeps the alphabet. */
  lemma {:induction false} CollapseDashesIdChars(s: string)
    requires AllIdChars(s)
    ensures AllIdChars(CollapseDashes(s))
    decreases |s|
  {
    if s != [] {
      var t := if s[0] == '-' then DropDashes(s[1..]) else s[1..];
      assert t == s[|s| - |t|..];
      CollapseDashesIdChars(t);
      AllIdCharsPrepend(s[0], CollapseDashes(t));
    }
  }

  lemma AllIdCharsPrepend(c: char, s: string)
    requires IsIdChar(c) && AllIdChars(s)
    ensures AllIdChars([c] + s)
  {
  }

  /** Collapsing leaves no "--" behind. */
  lemma {:induction false} CollapseDashesSingle(s: string)
    ensures NoDoubleDash(CollapseDashes(s))
    decreases |s|
  {
    if s != [] {
      var t := if s[0] == '-' then DropDashes(s[1..]) else s[1..];
      CollapseDashesSingle(t);
      NoDoubleDashPrepend(s[0], CollapseDashes(t));
    }
  }

  lemma NoDoubleDashPrepend(c: char, s: string)
    requires NoDoubleDash(s) && (c == '-' ==> s == [] || s[0] != '-')
    ensures NoDoubleDash([c] + s)
  {
  }

  /** `s.strip("-")`. */
  function TrimDashes(s: string): (r: string)
    ensures AllIdChars(s) ==> AllIdChars(r)
    ensures NoDoubleDash(s) ==> NoDoubleDash(r)
    ensures r == [] || (r[0] != '-' && r[|r| - 1] != '-')
    decreases |s|
  {
    if s == [] then []
    else if s[0] == '-' then TrimDashes(s[1..])
    else if s[|s| - 1] == '-' then TrimDashes(s[..|s| - 1])
    else s
  }

  /** `sanitize_id(raw)`: every result is a clean anchor id, whatever the input. */
  function SanitizeId(raw: string): (r: string)
    ensures IsCleanId(r)
  {
    var u := ReplaceNonIdRuns(Transliterate(Lower(Strip(raw))));
    CollapseDashesIdChars(u);
    CollapseDashesSingle(u);
    var t := TrimDashes(CollapseDashes(u));
    if t == [] then NodeFallbackIsClean(); "node" else t
  }

  lemma NodeFallbackIsClean()
    ensures IsCleanId("node")
  {
    var s := "node";
    assert forall i :: 0 <= i < |s| ==> s[i] != '-';
  }

  lemma {:induction false} ReplaceNonIdRunsKeepsIds(s: string)
    requires AllIdChars(s)
    ensures ReplaceNonIdRuns(s) == s
  {
    if s != [] {
      ReplaceNonIdRunsKeepsIds(s[1..]);
    }
  }

  lemma {:induction false} CollapseDashesKeepsSingles(s: string)
    requires NoDoubleDash(s)
    ensures CollapseDashes(s) == s
  {
    if s != [] {
      if s[0] == '-' && |s| > 1 {
        assert s[1] != '-';
        assert DropDashes(s[1..]) == s[1..];
      }
      CollapseDashesKeepsSingles(s[1..]);
    }
  }

  /** A clean id is a fixed point of sanitize_id. */
  lemma SanitizeIdKeepsCleanIds(s: string)
    requires IsCleanId(s)
    ensures SanitizeId(s) == s
  {
    CleanIdPrepared(s);
    ReplaceNonIdRunsKeepsIds(s);
    CollapseDashesKeepsSingles(s);
  }

  /** Stripping, lowering and transliterating leave a clean id as it is. */
  lemma CleanIdPrepared(s: string)
    requires IsCleanId(s)
    ensures Transliterate(Lower(Strip(s))) == s
  {
    assert !IsSpace(s[0]) && !IsSpace(s[|s| - 1]);
    StripCharacterization(s);
    assert Lower(s) == s;
    CleanIdTransliterated(s);
  }

  lemma CleanIdTransliterated(s: string)
    requires AllIdChars(s)
    ensures Transliterate(s) == s
  {
    ReplaceCharAbsent(s, 'ä', "ae");
    ReplaceCharAbsent(s, 'ö', "oe");
    ReplaceCharAbsent(s, 'ü', "ue");
    ReplaceCharAbsent(s, 'ß', "ss");
  }

  /** sanitize_id is idempotent. */
  lemma SanitizeIdIdempotent(raw: string)
    ensures SanitizeId(SanitizeId(raw)) == SanitizeId(raw)
  {
    SanitizeIdKeepsCleanIds(SanitizeId(raw));
  }

  // ---------------------------------------------------------------------------
  // html_escape
  // ---------------------------------------------------------------------------

  /** `html_escape(s)`: the three `replace` calls, '&' first. */
  function HtmlEscape(s: string): string {
    ReplaceChar(ReplaceChar(ReplaceChar(s, '&', "&amp;"), '<', "&lt;"), '>', "&gt;")
  }

  /** What one character becomes under html_escape. */
  function EscapeChar(c: char): string {
    if c == '&' then "&amp;" else if c == '<' then "&lt;" else if c == '>' then "&gt;" else [c]
  }

  /** The reverse direction: "&lt;", "&gt;" and "&amp;" turned back into
      characters, reading left to right. */
  function HtmlUnescape(s: string): string
    decreases |s|
  {
    if |s| >= 4 && s[..4] == "&lt;" then "<" + HtmlUnescape(s[4..])
    else if |s| >= 4 && s[..4] == "&gt;" then ">" + HtmlUnescape(s[4..])
    else if |s| >= 5 && s[..5] == "&amp;" then "&" + HtmlUnescape(s[5..])
    else if s == [] then []
    else [s[0]] + HtmlUnescape(s[1..])
  }

  predicate HasMarkupChar(s: string) {
    '&' in s || '<' in s || '>' in s
  }

  /** The chained replaces escape each character on its own: because '&' is
      replaced first, the '&' of "&lt;" and "&gt;" is never escaped twice. */
  lemma HtmlEscapeCharwise(s: string)
    requires s != []
    ensures HtmlEscape(s) == EscapeChar(s[0]) + HtmlEscape(s[1..])
  {
    assert s == [s[0]] + s[1..];
    HtmlEscapeAppend([s[0]], s[1..]);
    HtmlEscapeSingle(s[0]);
  }

  lemma HtmlEscapeAppend(a: string, b: string)
    ensures HtmlEscape(a + b) == HtmlEscape(a) + HtmlEscape(b)
  {
    ReplaceCharAppend(a, b, '&', "&amp;");
    var a1, b1 := ReplaceChar(a, '&', "&amp;"), ReplaceChar(b, '&', "&amp;");
    ReplaceCharAppend(a1, b1, '<', "&lt;");
    ReplaceCharAppend(ReplaceChar(a1, '<', "&lt;"), ReplaceChar(b1, '<', "&lt;"), '>', "&gt;");
  }

  lemma HtmlEscapeSingle(c: char)
    ensures HtmlEscape([c]) == EscapeChar(c)
  {
    var a := ReplaceChar([c], '&', "&amp;");
    ReplaceCharSingle(c, '&', "&amp;");
    if c == '&' {
      assert '<' !in a && '>' !in a;
      ReplaceCharAbsent(a, '<', "&lt;");
      ReplaceCharAbsent(a, '>', "&gt;");
    } else {
      var b := ReplaceChar(a, '<', "&lt;");
      ReplaceCharSingle(c, '<', "&lt;");
      if c == '<' {
        assert '>' !in b;
        ReplaceCharAbsent(b, '>', "&gt;");
      } else {
        ReplaceCharSingle(c, '>', "&gt;");
      }
    }
  }

  /** The escaped text contains no '<' and no '>', so it can never open or
      close a tag. */
  lemma {:induction false} HtmlEscapeNoAngles(s: string)
    ensures '<' !in HtmlEscape(s) && '>' !in HtmlEscape(s)
    decreases |s|
  {
    if s != [] {
      HtmlEscapeCharwise(s);
      HtmlEscapeNoAngles(s[1..]);
    }
  }

  /** Escaped text adds no tag to the page it is put in. */
  lemma EscapedTags(s: string)
    ensures Tags(HtmlEscape(s)) == 0
  {
    HtmlEscapeNoAngles(s);
    NoTags(HtmlEscape(s));
  }

  /** Text without '&', '<' and '>' is left as it is. */
  lemma {:induction false} HtmlEscapePlainText(s: string)
    requires !HasMarkupChar(s)
    ensures HtmlEscape(s) == s
    decreases |s|
  {
    if s != [] {
      HtmlEscapeCharwise(s);
      HtmlEscapePlainText(s[1..]);
      assert s == [s[0]] + s[1..];
    }
  }

  lemma UnescapeOne(c: char, rest: string)
    ensures HtmlUnescape(EscapeChar(c) + rest) == [c] + HtmlUnescape(rest)
  {
    var e := EscapeChar(c) + rest;
    if c == '&' {
      assert e[..5] == "&amp;" && e[5..] == rest;
      assert e[..4] != "&lt;" && e[..4] != "&gt;" by { assert e[1] == 'a'; }
    } else if c == '<' {
      assert e[..4] == "&lt;" && e[4..] == rest;
    } else if c == '>' {
      assert e[..4] == "&gt;" && e[4..] == rest;
      assert e[..4] != "&lt;" by { assert e[1] == 'g'; }
    } else {
      assert e[0] == c && e[1..] == rest;
      assert |e| >= 4 ==> e[..4] != "&lt;" && e[..4] != "&gt;" by { assert e[0] != '&'; }
      assert |e| >= 5 ==> e[..5] != "&amp;" by { assert e[0] != '&'; }
    }
  }

  /** Unescaping the escaped text gives back the original. */
  lemma {:induction false} HtmlEscapeRoundTrip(s: string)
    ensures HtmlUnescape(HtmlEscape(s)) == s
    decreases |s|
  {
    if s == [] {
      assert HtmlEscape(s) == [];
    } else {
      HtmlEscapeCharwise(s);
      UnescapeOne(s[0], HtmlEscape(s[1..]));
      HtmlEscapeRoundTrip(s[1..]);
      assert s == [s[0]] + s[1..];
    }
  }

  /** A clean id needs no escaping. */
  lemma CleanIdNeedsNoEscape(s: string)
    requires IsCleanId(s)
    ensures HtmlEscape(s) == s
  {
    assert !HasMarkupChar(s);
    HtmlEscapePlainText(s);
  }

  // ---------------------------------------------------------------------------
  // lines_to_list / list_to_lines
  // ---------------------------------------------------------------------------

  /** `text.splitlines()`, except that every line-break character ends a line
      on its own ("\r\n" gives an empty line between) and an empty or
      break-terminated text gives a final empty line. These extra lines are all
      empty, so `lines_to_list`, which drops blank lines, is not affected. */
  function SplitLines(s: string): (r: seq<string>)
    ensures |r| >= 1
    ensures forall k :: 0 <= k < |r| ==> NoLineBreak(r[k])
  {
    if s == [] then [[]]
    else if IsLineBreak(s[0]) then [[]] + SplitLines(s[1..])
    else
      var t := SplitLines(s[1..]);
      [[s[0]] + t[0]] + t[1..]
  }

  /** `[ln.strip() for ln in lines if ln.strip()]` */
  function KeepNonBlank(lines: seq<string>): seq<string>
  {
    if lines == [] then []
    else (if Strip(lines[0]) != [] then [Strip(lines[0])] else []) + KeepNonBlank(lines[1..])
  }

  /** A list item as `lines_to_list` produces it: non-empty, no surrounding
      whitespace and no line break. */
  predicate IsListItem(x: string) {
    x != [] && IsStripped(x) && NoLineBreak(x)
  }

  /** `lines_to_list(text)`: the trimmed non-blank lines of `text`. */
  function LinesToList(text: string): (r: seq<string>)
    ensures forall k :: 0 <= k < |r| ==> IsListItem(r[k])
  {
    var lines := SplitLines(text);
    KeepNonBlankItems(lines);
    KeepNonBlank(lines)
  }

  lemma {:induction false} KeepNonBlankItems(lines: seq<string>)
    requires forall k :: 0 <= k < |lines| ==> NoLineBreak(lines[k])
    ensures forall k :: 0 <= k < |KeepNonBlank(lines)| ==> IsListItem(KeepNonBlank(lines)[k])
  {
    if lines != [] {
      var head := if Strip(lines[0]) != [] then [Strip(lines[0])] else [];
      StripCharacterization(lines[0]);
      StripNoLineBreak(lines[0]);
      assert forall k :: 0 <= k < |head| ==> IsListItem(head[k]);
      KeepNonBlankItems(lines[1..]);
      var tail := KeepNonBlank(lines[1..]);
      assert KeepNonBlank(lines) == head + tail;
      forall k | 0 <= k < |head + tail|
        ensures IsListItem((head + tail)[k])
      {
        if k < |head| {
          assert (head + tail)[k] == head[k];
        } else {
          assert (head + tail)[k] == tail[k - |head|];
        }
      }
    }
  }

  /** `list_to_lines(items)`: the items joined with "\n". */
  function ListToLines(items: seq<string>): string {
    Join(items, "\n")
  }

  lemma {:induction false} SplitLinesPrefix(x: string, rest: string)
    requires NoLineBreak(x)
    ensures SplitLines(x + rest) == [x + SplitLines(rest)[0]] + SplitLines(rest)[1..]
    decreases |x|
  {
    if x == [] {
      assert x + rest == rest;
      var t := SplitLines(rest);
      assert x + t[0] == t[0];
      assert [t[0]] + t[1..] == t;
    } else {
      assert (x + rest)[0] == x[0] && (x + rest)[1..] == x[1..] + rest;
      SplitLinesPrefix(x[1..], rest);
      assert [x[0]] + (x[1..] + SplitLines(rest)[0]) == x + SplitLines(rest)[0];
    }
  }

  lemma {:induction false} SplitLinesJoin(xs: seq<string>)
    requires |xs| >= 1
    requires forall k :: 0 <= k < |xs| ==> NoLineBreak(xs[k])
    ensures SplitLines(ListToLines(xs)) == xs
    decreases |xs|
  {
    if |xs| == 1 {
      SplitLinesPrefix(xs[0], []);
      assert xs[0] + [] == xs[0];
    } else {
      var tail := Join(xs[1..], "\n");
      SplitLinesJoin(xs[1..]);
      assert ListToLines(xs) == xs[0] + ("\n" + tail);
      SplitLinesPrefix(xs[0], "\n" + tail);
      assert ("\n" + tail)[0] == '\n' && ("\n" + tail)[1..] == tail;
      assert SplitLines("\n" + tail) == [[]] + xs[1..];
      assert xs[0] + [] == xs[0];
      assert [xs[0]] + xs[1..] == xs;
    }
  }

  lemma {:induction false} KeepNonBlankKeepsItems(xs: seq<string>)
    requires forall k :: 0 <= k < |xs| ==> IsListItem(xs[k])
    ensures KeepNonBlank(xs) == xs
  {
    if xs != [] {
      StripCharacterization(xs[0]);
      KeepNonBlankKeepsItems(xs[1..]);
      assert [xs[0]] + xs[1..] == xs;
    }
  }

  /** Writing a list of items into a text field and reading it back gives the
      same list, provided every item is non-empty, trimmed and on one line. */
  lemma LinesRoundTrip(xs: seq<string>)
    requires forall k :: 0 <= k < |xs| ==> IsListItem(xs[k])
    ensures LinesToList(ListToLines(xs)) == xs
  {
    if xs == [] {
      assert SplitLines(ListToLines(xs)) == [[]];
      assert Strip([]) == [];
    } else {
      SplitLinesJoin(xs);
      KeepNonBlankKeepsItems(xs);
    }
  }

  /** Reading back what was written from a read list changes nothing: a list
      field survives a round through its text widget. */
  lemma LinesToListStable(text: string)
    ensures LinesToList(ListToLines(LinesToList(text))) == LinesToList(text)
  {
    LinesRoundTrip(LinesToList(text));
  }
}
