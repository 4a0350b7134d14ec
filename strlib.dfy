/**
 * The few behaviours of Python's `str` type that the quest generator relies on:
 * whitespace and line-break classes, strip/rstrip, single-character replace,
 * splitlines and join, plus a predicate saying that a string contains given
 * pieces one after the other (used to state the layout of rendered HTML).
 */
module StrLib {

  /** Python's `str.isspace()`, character by character. */
  predicate IsSpace(c: char) {
    c == ' ' || ('\t' <= c <= '\r') || ('\U{1c}' <= c <= '\U{1f}')
    || c == '\U{85}' || c == '\U{a0}' || c == '\U{1680}'
    || ('\U{2000}' <= c <= '\U{200a}')
    || c == '\U{2028}' || c == '\U{2029}' || c == '\U{202f}' || c == '\U{205f}' || c == '\U{3000}'
  }

  /** The line boundaries recognised by Python's `str.splitlines()`. */
  predicate IsLineBreak(c: char) {
    c == '\n' || c == '\r' || c == '\U{0b}' || c == '\U{0c}'
    || c == '\U{1c}' || c == '\U{1d}' || c == '\U{1e}'
    || c == '\U{85}' || c == '\U{2028}' || c == '\U{2029}'
  }

  predicate NoLineBreak(s: string) {
    forall j :: 0 <= j < |s| ==> !IsLineBreak(s[j])
  }

  /** `s.rstrip()`: the longest prefix of `s` that does not end in whitespace. */
  function RStrip(s: string): (r: string)
    ensures |r| <= |s|
    ensures r == [] || !IsSpace(r[|r| - 1])
  {
    if s == [] || !IsSpace(s[|s| - 1]) then s else RStrip(s[..|s| - 1])
  }

  /** rstrip() keeps a prefix and removes only whitespace after it. */
  lemma {:induction false} RStripRemovesTrailingSpace(s: string)
    ensures RStrip(s) == s[..|RStrip(s)|]
    ensures forall i :: |RStrip(s)| <= i < |s| ==> IsSpace(s[i])
  {
    if s != [] && IsSpace(s[|s| - 1]) {
      RStripRemovesTrailingSpace(s[..|s| - 1]);
    }
  }

  /** `s.lstrip()`: the longest suffix of `s` that does not start with whitespace. */
  function LStrip(s: string): (r: string)
    ensures |r| <= |s|
    ensures r == [] || !IsSpace(r[0])
  {
    if s == [] || !IsSpace(s[0]) then s else LStrip(s[1..])
  }

  /** lstrip() keeps a suffix and removes only whitespace before it. */
  lemma {:induction false} LStripRemovesLeadingSpace(s: string)
    ensures LStrip(s) == s[|s| - |LStrip(s)|..]
    ensures forall i :: 0 <= i < |s| - |LStrip(s)| ==> IsSpace(s[i])
  {
    if s != [] && IsSpace(s[0]) {
      LStripRemovesLeadingSpace(s[1..]);
    }
  }

  /** `s.strip()`. */
  function Strip(s: string): (r: string)
  {
    LStrip(RStrip(s))
  }

  /** A string that `strip()` leaves alone: empty, or no whitespace at either end. */
  predicate IsStripped(s: string) {
    s == [] || (!IsSpace(s[0]) && !IsSpace(s[|s| - 1]))
  }

  /** strip() removes whitespace at both ends and nothing else: it leaves a string
      alone exactly when that string has no surrounding whitespace, and its result
      never has any. */
  lemma StripCharacterization(s: string)
    ensures IsStripped(Strip(s))
    ensures Strip(s) == s <==> IsStripped(s)
    ensures |Strip(s)| <= |s|
  {
    var t := RStrip(s);
    var r := LStrip(t);
    RStripRemovesTrailingSpace(s);
    LStripRemovesLeadingSpace(t);
    if r != [] {
      assert r[|r| - 1] == t[|t| - 1];
    }
    if IsStripped(s) && s != [] {
      assert t == s;
    }
  }

  lemma StripIdempotent(s: string)
    ensures Strip(Strip(s)) == Strip(s)
  {
    StripCharacterization(s);
    StripCharacterization(Strip(s));
  }

  /** Every character of `Strip(s)` is a character of `s`. */
  lemma StripKeepsChars(s: string, j: int)
    requires 0 <= j < |Strip(s)|
    ensures exists i :: 0 <= i < |s| && s[i] == Strip(s)[j]
  {
    var t := RStrip(s);
    var r := LStrip(t);
    RStripRemovesTrailingSpace(s);
    LStripRemovesLeadingSpace(t);
    assert r[j] == t[|t| - |r| + j] == s[|t| - |r| + j];
  }

  lemma StripNoLineBreak(s: string)
    requires NoLineBreak(s)
    ensures NoLineBreak(Strip(s))
  {
    forall j | 0 <= j < |Strip(s)|
      ensures !IsLineBreak(Strip(s)[j])
    {
      StripKeepsChars(s, j);
    }
  }

  /** `s.replace(c, rep)` for a one-character pattern `c`. */
  function ReplaceChar(s: string, c: char, rep: string): (r: string)
  {
    if s == [] then [] else (if s[0] == c then rep else [s[0]]) + ReplaceChar(s[1..], c, rep)
  }

  lemma ReplaceCharSingle(x: char, c: char, rep: string)
    ensures ReplaceChar([x], c, rep) == if x == c then rep else [x]
  {
    assert [x][1..] == [];
  }

  lemma {:induction false} ReplaceCharAbsent(s: string, c: char, rep: string)
    requires c !in s
    ensures ReplaceChar(s, c, rep) == s
  {
    if s != [] {
      ReplaceCharAbsent(s[1..], c, rep);
    }
  }

  lemma {:induction false} ReplaceCharAppend(a: string, b: string, c: char, rep: string)
    ensures ReplaceChar(a + b, c, rep) == ReplaceChar(a, c, rep) + ReplaceChar(b, c, rep)
  {
    if a != [] {
      assert (a + b)[0] == a[0] && (a + b)[1..] == a[1..] + b;
      ReplaceCharAppend(a[1..], b, c, rep);
    } else {
      assert a + b == b;
    }
  }

  /** `sep.join(parts)`. */
  function Join(parts: seq<string>, sep: string): string
  {
    if |parts| == 0 then []
    else if |parts| == 1 then parts[0]
    else parts[0] + sep + Join(parts[1..], sep)
  }

  /** `t` stands in `s` at position `i`. */
  predicate OccursAt(s: string, i: int, t: string) {
    0 <= i && i + |t| <= |s| && s[i..i + |t|] == t
  }

  /** `s` contains the pieces `ts`, in this order and without overlapping. */
  ghost predicate InOrder(s: string, ts: seq<string>)
    decreases |ts|
  {
    ts == [] || exists i :: OccursAt(s, i, ts[0]) && InOrder(s[i + |ts[0]|..], ts[1..])
  }

  lemma InOrderSingle(t: string)
    ensures InOrder(t, [t])
  {
    assert [t][0] == t && [t][1..] == [];
    assert OccursAt(t, 0, t) && InOrder(t[|t|..], []);
  }

  lemma {:induction false} InOrderPrepend(u: string, s: string, ts: seq<string>)
    requires InOrder(s, ts)
    ensures InOrder(u + s, ts)
  {
    if ts != [] {
      var i :| OccursAt(s, i, ts[0]) && InOrder(s[i + |ts[0]|..], ts[1..]);
      var j := |u| + i;
      assert (u + s)[j..j + |ts[0]|] == s[i..i + |ts[0]|];
      assert (u + s)[j + |ts[0]|..] == s[i + |ts[0]|..];
      assert OccursAt(u + s, j, ts[0]);
    }
  }

  lemma {:induction false} InOrderConcat(a: string, b: string, xs: seq<string>, ys: seq<string>)
    requires InOrder(a, xs) && InOrder(b, ys)
    ensures InOrder(a + b, xs + ys)
    decreases |xs|
  {
    if xs == [] {
      assert xs + ys == ys;
      InOrderPrepend(a, b, ys);
    } else {
      var i :| OccursAt(a, i, xs[0]) && InOrder(a[i + |xs[0]|..], xs[1..]);
      InOrderConcat(a[i + |xs[0]|..], b, xs[1..], ys);
      OccursAtAppend(a, b, i, xs[0]);
      InOrderCons(a + b, i, xs[0], xs[1..] + ys);
      assert [xs[0]] + (xs[1..] + ys) == xs + ys;
    }
  }

  /** A piece found in `a` is found at the same place in `a + b`. */
  lemma OccursAtAppend(a: string, b: string, i: int, t: string)
    requires OccursAt(a, i, t)
    ensures OccursAt(a + b, i, t) && (a + b)[i + |t|..] == a[i + |t|..] + b
  {
    assert (a + b)[i..i + |t|] == a[i..i + |t|];
  }

  /** A first piece found at `i`, followed by the rest after it. */
  lemma InOrderCons(s: string, i: int, t: string, ts: seq<string>)
    requires OccursAt(s, i, t) && InOrder(s[i + |t|..], ts)
    ensures InOrder(s, [t] + ts)
  {
    assert ([t] + ts)[0] == t && ([t] + ts)[1..] == ts;
  }

  /** Anything may follow the pieces. */
  lemma InOrderAppend(s: string, u: string, ts: seq<string>)
    requires InOrder(s, ts)
    ensures InOrder(s + u, ts)
  {
    InOrderConcat(s, u, ts, []);
    assert ts + [] == ts;
  }

  /** Pieces may be forgotten from the front of the list. */
  lemma {:induction false} InOrderDropFirst(s: string, ts: seq<string>)
    requires ts != [] && InOrder(s, ts)
    ensures InOrder(s, ts[1..])
  {
    var i :| OccursAt(s, i, ts[0]) && InOrder(s[i + |ts[0]|..], ts[1..]);
    InOrderPrepend(s[..i + |ts[0]|], s[i + |ts[0]|..], ts[1..]);
    assert s[..i + |ts[0]|] + s[i + |ts[0]|..] == s;
  }

  /** Pieces may be forgotten from the end of the list. */
  lemma {:induction false} InOrderPrefix(s: string, xs: seq<string>, ys: seq<string>)
    requires InOrder(s, xs + ys)
    ensures InOrder(s, xs)
    decreases |xs|
  {
    if xs != [] {
      var i :| OccursAt(s, i, (xs + ys)[0]) && InOrder(s[i + |(xs + ys)[0]|..], (xs + ys)[1..]);
      assert (xs + ys)[0] == xs[0] && (xs + ys)[1..] == xs[1..] + ys;
      InOrderPrefix(s[i + |xs[0]|..], xs[1..], ys);
    }
  }

  /** A whole run of pieces may be forgotten from the front of the list. */
  lemma {:induction false} InOrderSuffix(s: string, xs: seq<string>, ys: seq<string>)
    requires InOrder(s, xs + ys)
    ensures InOrder(s, ys)
    decreases |xs|
  {
    if xs == [] {
      assert xs + ys == ys;
    } else {
      InOrderDropFirst(s, xs + ys);
      assert (xs + ys)[1..] == xs[1..] + ys;
      InOrderSuffix(s, xs[1..], ys);
    }
  }

  /** The first piece alone. */
  lemma InOrderFirst(s: string, ts: seq<string>)
    requires ts != [] && InOrder(s, ts)
    ensures InOrder(s, [ts[0]])
  {
    var i :| OccursAt(s, i, ts[0]) && InOrder(s[i + |ts[0]|..], ts[1..]);
    assert [ts[0]][0] == ts[0] && [ts[0]][1..] == [];
    assert InOrder(s[i + |ts[0]|..], [ts[0]][1..]);
  }

  /** A string holds whatever stands in its middle. */
  lemma InOrderMiddle(a: string, x: string, b: string)
    ensures InOrder(a + x + b, [x])
  {
    InOrderSingle(x);
    InOrderPrepend(a, x, [x]);
    InOrderAppend(a + x, b, [x]);
  }

  /** A joined string holds its parts in order. */
  lemma {:induction false} InOrderJoin(parts: seq<string>, sep: string)
    ensures InOrder(Join(parts, sep), parts)
  {
    if |parts| == 1 {
      InOrderSingle(parts[0]);
    } else if |parts| > 1 {
      InOrderJoin(parts[1..], sep);
      InOrderSingle(parts[0]);
      InOrderPrepend(sep, Join(parts[1..], sep), parts[1..]);
      InOrderConcat(parts[0], sep + Join(parts[1..], sep), [parts[0]], parts[1..]);
      assert [parts[0]] + parts[1..] == parts;
      assert parts[0] + (sep + Join(parts[1..], sep)) == Join(parts, sep);
    }
  }

  /** A joined string holds, in order, one given piece of each of its parts. */
  lemma {:induction false} InOrderJoinEach(parts: seq<string>, sep: string, pieces: seq<string>)
    requires |pieces| == |parts|
    requires forall i :: 0 <= i < |parts| ==> InOrder(parts[i], [pieces[i]])
    ensures InOrder(Join(parts, sep), pieces)
  {
    if |parts| == 1 {
      assert pieces == [pieces[0]];
    } else if |parts| > 1 {
      InOrderJoinEach(parts[1..], sep, pieces[1..]);
      InOrderPrepend(sep, Join(parts[1..], sep), pieces[1..]);
      InOrderConcat(parts[0], sep + Join(parts[1..], sep), [pieces[0]], pieces[1..]);
      assert [pieces[0]] + pieces[1..] == pieces;
      assert parts[0] + (sep + Join(parts[1..], sep)) == Join(parts, sep);
    }
  }

  // ------------------------------------------------------------ tag counting

  /** How many `<` a text holds: every tag of the page opens with one, so a
      text with none cannot add markup. */
  function Tags(s: string): nat {
    if s == [] then 0 else Tags(s[..|s| - 1]) + (if s[|s| - 1] == '<' then 1 else 0)
  }

  /** The count is the number of `<` characters in the string. */
  lemma {:induction false} TagsCount(s: string)
    ensures Tags(s) == multiset(s)['<']
  {
    if s != [] {
      TagsCount(s[..|s| - 1]);
      assert s == s[..|s| - 1] + [s[|s| - 1]];
    }
  }

  lemma {:induction false} TagsAppend(a: string, b: string)
    ensures Tags(a + b) == Tags(a) + Tags(b)
    decreases |b|
  {
    if b == [] {
      assert a + b == a;
    } else {
      TagsAppend(a, b[..|b| - 1]);
      assert (a + b)[..|a + b| - 1] == a + b[..|b| - 1];
    }
  }

  lemma TagsAppend3(a: string, b: string, c: string)
    ensures Tags(a + b + c) == Tags(a) + Tags(b) + Tags(c)
  {
    TagsAppend(a, b);
    TagsAppend(a + b, c);
  }

  /** The `<` counts of a list of pieces, added up. */
  function TagsOf(parts: seq<string>): nat {
    if parts == [] then 0 else Tags(parts[0]) + TagsOf(parts[1..])
  }

  lemma NoTags(s: string)
    requires '<' !in s
    ensures Tags(s) == 0
  {
    TagsCount(s);
  }

  lemma {:induction false} TagsOfAppend(a: seq<string>, b: seq<string>)
    ensures TagsOf(a + b) == TagsOf(a) + TagsOf(b)
  {
    if a != [] {
      assert (a + b)[1..] == a[1..] + b;
      TagsOfAppend(a[1..], b);
    } else {
      assert a + b == b;
    }
  }

  /** Pieces that each hold `k` tags hold `k` times their number together. */
  lemma {:induction false} TagsOfUniform(parts: seq<string>, k: nat)
    requires forall i :: 0 <= i < |parts| ==> Tags(parts[i]) == k
    ensures TagsOf(parts) == k * |parts|
  {
    if parts != [] {
      TagsOfUniform(parts[1..], k);
    }
  }

  /** A separator without tags adds none to a join. */
  lemma {:induction false} JoinTags(parts: seq<string>, sep: string)
    requires Tags(sep) == 0
    ensures Tags(Join(parts, sep)) == TagsOf(parts)
  {
    if |parts| == 1 {
      assert parts[1..] == [];
    } else if |parts| > 1 {
      JoinTags(parts[1..], sep);
      TagsAppend3(parts[0], sep, Join(parts[1..], sep));
    }
  }

  /** Parts that each hold `k` tags, joined by a separator without tags. */
  lemma UniformJoinTags(parts: seq<string>, sep: string, k: nat)
    requires Tags(sep) == 0
    requires forall i :: 0 <= i < |parts| ==> Tags(parts[i]) == k
    ensures Tags(Join(parts, sep)) == k * |parts|
  {
    JoinTags(parts, sep);
    TagsOfUniform(parts, k);
  }

  /** Between a fixed head and tail, the parts add their own tags. */
  lemma FramedJoinTagsOf(head: seq<string>, parts: seq<string>, tail: seq<string>, sep: string)
    requires Tags(sep) == 0
    ensures Tags(Join(head + parts + tail, sep)) == Tags(Join(head + tail, sep)) + TagsOf(parts)
  {
    JoinTags(head + parts + tail, sep);
    JoinTags(head + tail, sep);
    TagsOfAppend(head + parts, tail);
    TagsOfAppend(head, parts);
    TagsOfAppend(head, tail);
  }

  /** Between a fixed head and tail, parts of `k` tags each add `k` apiece. */
  lemma FramedJoinTags(head: seq<string>, parts: seq<string>, tail: seq<string>, sep: string, k: nat)
    requires Tags(sep) == 0
    requires forall i :: 0 <= i < |parts| ==> Tags(parts[i]) == k
    ensures Tags(Join(head + parts + tail, sep)) == Tags(Join(head + tail, sep)) + k * |parts|
  {
    FramedJoinTagsOf(head, parts, tail, sep);
    TagsOfUniform(parts, k);
  }

  /** The first two parts of a join of three or more, written out. */
  lemma JoinFirstTwo(parts: seq<string>, sep: string)
    requires |parts| >= 3
    ensures Join(parts, sep) == parts[0] + sep + parts[1] + sep + Join(parts[2..], sep)
  {
    assert parts[1..][0] == parts[1] && parts[1..][1..] == parts[2..];
  }

  /** Tags of a five-piece concatenation, piece by piece. */
  lemma FrameTags(a: string, b: string, c: string, d: string, e: string)
    ensures Tags(a + b + c + d + e) == Tags(a) + Tags(b) + Tags(c) + Tags(d) + Tags(e)
  {
    TagsAppend3(a, b, c);
    TagsAppend3(a + b + c, d, e);
  }

  /** One more piece of `a` tags, `m` more when it is `marked`. */
  lemma TagsOfCount(parts: seq<string>, a: nat, m: nat, marked: bool, n: nat, u: nat)
    requires parts != []
    requires Tags(parts[0]) == a + if marked then m else 0
    requires TagsOf(parts[1..]) == a * n + m * u
    ensures TagsOf(parts) == a * (n + 1) + m * (u + if marked then 1 else 0)
  {
  }

  lemma SingleTags(x: string, y: string)
    requires Tags(x) == Tags(y)
    ensures TagsOf([x]) == TagsOf([y])
  {
  }
}
