/**
 * The pieces of JavaScript semantics that the component handlers rely on:
 * optional values and truthiness, and the String methods they call
 * (`split`, `trim`, `startsWith`, `includes`, `indexOf`, `replace`,
 * `toUpperCase`, `toLowerCase`). Strings are sequences of characters
 * (Unicode scalar values), not of the UTF-16 code units JavaScript counts.
 */
module Js {

  datatype Option<T> = None | Some(value: T)

  /** Truthiness of an optional string: `undefined`, `null` and "" are falsy. */
  predicate Truthy(s: Option<string>) {
    s.Some? && s.value != ""
  }

  /** Truthiness of an optional number: `null`, `undefined` and 0 are falsy. */
  predicate TruthyNum(n: Option<int>) {
    n.Some? && n.value != 0
  }

  /** `a || b` for an optional string and a string default. */
  function OrElse(a: Option<string>, b: string): (r: string)
    ensures Truthy(a) ==> r == a.value
    ensures !Truthy(a) ==> r == b
  {
    match a
    case Some(v) => if v != "" then v else b
    case None => b
  }

  /** `s.startsWith(p)` */
  predicate StartsWith(s: string, p: string) {
    |p| <= |s| && s[..|p|] == p
  }

  /** `sub` occurs in `s` at index `i`. */
  predicate OccursAt(s: string, sub: string, i: int) {
    0 <= i && i + |sub| <= |s| && s[i..i + |sub|] == sub
  }

  /** `s.includes(sub)` */
  predicate Includes(s: string, sub: string) {
    exists i | 0 <= i <= |s| - |sub| :: OccursAt(s, sub, i)
  }

  /** The first index at or after `from` at which `sub` occurs. */
  function IndexOfFrom(s: string, sub: string, from: nat): (r: Option<nat>)
    ensures r.Some? ==> from <= r.value && OccursAt(s, sub, r.value)
                        && forall j :: from <= j < r.value ==> !OccursAt(s, sub, j)
    ensures r.None? ==> forall j :: from <= j ==> !OccursAt(s, sub, j)
    decreases |s| - from
  {
    if from + |sub| > |s| then None
    else if OccursAt(s, sub, from) then Some(from)
    else IndexOfFrom(s, sub, from + 1)
  }

  /** `s.indexOf(sub)`, with -1 for "not found" written as None: the first index at which `sub` occurs. */
  function IndexOf(s: string, sub: string): (r: Option<nat>)
    ensures r.Some? ==> OccursAt(s, sub, r.value) && forall j :: 0 <= j < r.value ==> !OccursAt(s, sub, j)
    ensures r.None? <==> !Includes(s, sub)
  {
    IndexOfFrom(s, sub, 0)
  }

  /**
   * The text `replace` inserts for a replacement string (the GetSubstitution
   * operation of ECMAScript, for a string pattern, which has no capture
   * groups): `$$` gives '$', `$&` the matched text, "$`" the text before the
   * match and `$'` the text after it; every other character, any other '$'
   * included, is copied.
   */
  function Substitution(rep: string, matched: string, before: string, after: string): string
    decreases |rep|
  {
    if |rep| == 0 then ""
    else if rep[0] == '$' && |rep| >= 2 && rep[1] in "$&`'" then
      var piece := if rep[1] == '$' then "$" else if rep[1] == '&' then matched else if rep[1] == '`' then before else after;
      piece + Substitution(rep[2..], matched, before, after)
    else [rep[0]] + Substitution(rep[1..], matched, before, after)
  }

  /** A replacement without '$' is inserted as it stands. */
  lemma {:induction false} SubstitutionPlain(rep: string, matched: string, before: string, after: string)
    requires '$' !in rep
    ensures Substitution(rep, matched, before, after) == rep
    decreases |rep|
  {
    if |rep| > 0 {
      assert rep[0] in rep;
      assert forall c :: c in rep[1..] ==> c in rep;
      SubstitutionPlain(rep[1..], matched, before, after);
      assert rep == [rep[0]] + rep[1..];
    }
  }

  /**
   * `s.replace(pat, rep)` with a string pattern: only the first occurrence is
   * replaced, by the expanded replacement, and nothing happens when there is none.
   */
  function ReplaceFirst(s: string, pat: string, rep: string): string {
    match IndexOf(s, pat)
    case None => s
    case Some(i) => s[..i] + Substitution(rep, pat, s[..i], s[i + |pat|..]) + s[i + |pat|..]
  }

  /** What `ReplaceFirst` leaves and what it substitutes, in terms of the first occurrence. */
  lemma ReplaceFirstSpec(s: string, pat: string, rep: string)
    ensures !Includes(s, pat) ==> ReplaceFirst(s, pat, rep) == s
    ensures Includes(s, pat) ==>
      exists i :: OccursAt(s, pat, i) && (forall j :: 0 <= j < i ==> !OccursAt(s, pat, j))
               && ReplaceFirst(s, pat, rep) == s[..i] + Substitution(rep, pat, s[..i], s[i + |pat|..]) + s[i + |pat|..]
  {
    match IndexOf(s, pat)
    case None =>
    case Some(i) =>
      assert OccursAt(s, pat, i) && (forall j :: 0 <= j < i ==> !OccursAt(s, pat, j));
  }

  /** `$&` puts the matched text back, and `$$` stands for one '$'. */
  lemma SubstitutionPatterns(matched: string, before: string, after: string)
    ensures Substitution("$&", matched, before, after) == matched
    ensures Substitution("a$$b", matched, before, after) == "a$b"
    ensures Substitution("$`|$'", matched, before, after) == before + "|" + after
  {
    assert "$&"[2..] == "";
    assert "a$$b"[1..] == "$$b" && "$$b"[2..] == "b" && "b"[1..] == "";
    assert "$`|$'"[2..] == "|$'" && "|$'"[1..] == "$'" && "$'"[2..] == "";
  }

  /** The separator-free pieces of `s` between occurrences of `c`: `s.split(c)` for a one-character separator. */
  function Split(s: string, c: char): (parts: seq<string>)
    ensures |parts| >= 1
    ensures forall k :: 0 <= k < |parts| ==> c !in parts[k]
    ensures Join(parts, c) == s
    decreases |s|
  {
    if |s| == 0 then [""]
    else
      var rest := Split(s[1..], c);
      if s[0] == c then
        JoinCons("", rest, c);
        [""] + rest
      else
        JoinHead(s[0], rest, c);
        [[s[0]] + rest[0]] + rest[1..]
  }

  /** `parts.join(c)`: the inverse of `Split`. */
  function Join(parts: seq<string>, c: char): string
    decreases |parts|
  {
    if |parts| == 0 then ""
    else if |parts| == 1 then parts[0]
    else parts[0] + [c] + Join(parts[1..], c)
  }

  lemma JoinCons(p: string, parts: seq<string>, c: char)
    requires |parts| >= 1
    ensures Join([p] + parts, c) == p + [c] + Join(parts, c)
  {
    assert ([p] + parts)[1..] == parts;
  }

  lemma JoinHead(ch: char, parts: seq<string>, c: char)
    requires |parts| >= 1
    ensures Join([[ch] + parts[0]] + parts[1..], c) == [ch] + Join(parts, c)
  {
    var q := [[ch] + parts[0]] + parts[1..];
    if |parts| > 1 {
      assert q[1..] == parts[1..];
    }
  }

  /** `s.split(c)[0]`: the text before the first `c`, or all of `s` when there is none. */
  function BeforeFirst(s: string, c: char): string {
    Split(s, c)[0]
  }

  /** `s.split(c).pop()` (equivalently `parts[parts.length - 1]`): the text after the last `c`, or all of `s`. */
  function AfterLast(s: string, c: char): string {
    var parts := Split(s, c);
    parts[|parts| - 1]
  }

  /** `BeforeFirst` is the longest `c`-free prefix of `s`. */
  lemma {:induction false} BeforeFirstSpec(s: string, c: char)
    ensures var r := BeforeFirst(s, c);
      |r| <= |s| && s[..|r|] == r && c !in r && (r == s || s[|r|] == c)
    decreases |s|
  {
    if |s| > 0 {
      BeforeFirstSpec(s[1..], c);
    }
  }

  /** `AfterLast` is the longest `c`-free suffix of `s`. */
  lemma {:induction false} AfterLastSpec(s: string, c: char)
    ensures var r := AfterLast(s, c);
      |r| <= |s| && s[|s| - |r|..] == r && c !in r && (r == s || s[|s| - |r| - 1] == c)
    decreases |s|
  {
    if |s| > 0 {
      AfterLastSpec(s[1..], c);
      var rest := Split(s[1..], c);
      if s[0] != c && |rest| == 1 {
        assert AfterLast(s, c) == [s[0]] + rest[0];
      }
    }
  }

  /** A string without the separator is one piece. */
  lemma {:induction false} SplitNoSeparator(s: string, c: char)
    requires c !in s
    ensures Split(s, c) == [s]
    decreases |s|
  {
    if |s| > 0 {
      SplitNoSeparator(s[1..], c);
      assert [s[0]] + s[1..] == s;
    }
  }

  /** A separator after a separator-free piece starts a new piece. */
  lemma {:induction false} SplitCons(a: string, c: char, s: string)
    requires c !in a
    ensures Split(a + [c] + s, c) == [a] + Split(s, c)
    decreases |a|
  {
    var t := a + [c] + s;
    if |a| == 0 {
      assert t[0] == c && t[1..] == s;
    } else {
      assert t[0] == a[0] && t[1..] == a[1..] + [c] + s;
      SplitCons(a[1..], c, s);
      assert [a[0]] + a[1..] == a;
    }
  }

  /** `Split` undoes `Join` when no piece holds the separator. */
  lemma {:induction false} SplitJoin(parts: seq<string>, c: char)
    requires |parts| >= 1
    requires forall k :: 0 <= k < |parts| ==> c !in parts[k]
    ensures Split(Join(parts, c), c) == parts
    decreases |parts|
  {
    if |parts| == 1 {
      SplitNoSeparator(parts[0], c);
    } else {
      SplitJoin(parts[1..], c);
      SplitCons(parts[0], c, Join(parts[1..], c));
      assert parts == [parts[0]] + parts[1..];
    }
  }

  /** `s.slice(s.indexOf(c) + 1)` when `c` occurs: the text after the first `c`; "" when it does not. */
  function AfterFirst(s: string, c: char): string
    decreases |s|
  {
    if |s| == 0 then ""
    else if s[0] == c then s[1..]
    else AfterFirst(s[1..], c)
  }

  /** The text after the first separator is recovered by `AfterFirst` when the text before it holds none. */
  lemma {:induction false} AfterFirstOf(pre: string, c: char, suf: string)
    requires c !in pre
    ensures AfterFirst(pre + [c] + suf, c) == suf
    decreases |pre|
  {
    var s := pre + [c] + suf;
    if |pre| == 0 {
      assert s[0] == c && s[1..] == suf;
    } else {
      assert s[0] == pre[0] && s[1..] == pre[1..] + [c] + suf;
      AfterFirstOf(pre[1..], c, suf);
    }
  }

  /** The text before the first separator is recovered by `BeforeFirst` when it holds no separator. */
  lemma {:induction false} BeforeFirstOf(pre: string, c: char, suf: string)
    requires c !in pre
    ensures BeforeFirst(pre + [c] + suf, c) == pre
    decreases |pre|
  {
    var s := pre + [c] + suf;
    if |pre| == 0 {
      assert s[0] == c;
    } else {
      assert s[0] == pre[0] && s[1..] == pre[1..] + [c] + suf;
      BeforeFirstOf(pre[1..], c, suf);
      assert [pre[0]] + pre[1..] == pre;
    }
  }

  /** The text after the last separator is recovered by `AfterLast` when it holds no separator. */
  lemma {:induction false} AfterLastOf(pre: string, c: char, suf: string)
    requires c !in suf
    ensures |Split(pre + [c] + suf, c)| >= 2
    ensures AfterLast(pre + [c] + suf, c) == suf
    decreases |pre|
  {
    var s := pre + [c] + suf;
    if |pre| == 0 {
      assert s[0] == c && s[1..] == suf;
      SplitNoSeparator(suf, c);
    } else {
      assert s[1..] == pre[1..] + [c] + suf;
      AfterLastOf(pre[1..], c, suf);
    }
  }

  /** When the first character of `pat` does not occur in `pre`, the first occurrence of `pat` in `pre + pat + post` is right after `pre`. */
  lemma IndexOfAfter(pre: string, pat: string, post: string, rep: string)
    requires |pat| > 0 && pat[0] !in pre
    ensures IndexOf(pre + pat + post, pat) == Some(|pre|)
    ensures ReplaceFirst(pre + pat + post, pat, rep) == pre + Substitution(rep, pat, pre, post) + post
  {
    var s := pre + pat + post;
    assert s[|pre|..|pre| + |pat|] == pat;
    assert OccursAt(s, pat, |pre|);
    var i := IndexOf(s, pat).value;
    assert s[i..i + |pat|][0] == s[i] == pat[0];
    assert i == |pre|;
    assert s[..|pre|] == pre && s[|pre| + |pat|..] == post;
  }

  /** Replacing the first occurrence by `$&` gives the string back. */
  lemma ReplaceByMatchedIsIdentity(pre: string, pat: string, post: string)
    requires |pat| > 0 && pat[0] !in pre
    ensures ReplaceFirst(pre + pat + post, pat, "$&") == pre + pat + post
  {
    IndexOfAfter(pre, pat, post, "$&");
    SubstitutionPatterns(pat, pre, post);
  }

  /** The decimal digits of `n`, as string concatenation with a number prints them. */
  function NatToString(n: nat): (r: string)
    ensures |r| >= 1 && forall k :: 0 <= k < |r| ==> '0' <= r[k] <= '9'
    decreases n
  {
    if n < 10 then [DigitChar(n)] else NatToString(n / 10) + [DigitChar(n % 10)]
  }

  function DigitChar(d: nat): (r: char)
    requires d < 10
    ensures '0' <= r <= '9'
  {
    match d
    case 0 => '0' case 1 => '1' case 2 => '2' case 3 => '3' case 4 => '4'
    case 5 => '5' case 6 => '6' case 7 => '7' case 8 => '8' case _ => '9'
  }

  /** The characters `String.prototype.trim` removes: WhiteSpace and LineTerminator of ECMAScript. */
  predicate IsSpace(ch: char) {
    ch == ' ' || ch == '\t' || ch == '\n' || ch == '\r' || ch == '\U{000B}' || ch == '\U{000C}'
    || ch == '\U{00A0}' || ch == '\U{1680}' || ('\U{2000}' <= ch <= '\U{200A}')
    || ch == '\U{2028}' || ch == '\U{2029}' || ch == '\U{202F}' || ch == '\U{205F}'
    || ch == '\U{3000}' || ch == '\U{FEFF}'
  }

  function TrimStart(s: string): string
    decreases |s|
  {
    if |s| > 0 && IsSpace(s[0]) then TrimStart(s[1..]) else s
  }

  function TrimEnd(s: string): string
    decreases |s|
  {
    if |s| > 0 && IsSpace(s[|s| - 1]) then TrimEnd(s[..|s| - 1]) else s
  }

  /** `s.trim()` */
  function Trim(s: string): string {
    TrimEnd(TrimStart(s))
  }

  lemma {:induction false} TrimStartSpec(s: string)
    ensures var r := TrimStart(s);
      |r| <= |s| && r == s[|s| - |r|..] && (r == "" || !IsSpace(r[0]))
      && forall k :: 0 <= k < |s| - |r| ==> IsSpace(s[k])
    decreases |s|
  {
    if |s| > 0 && IsSpace(s[0]) {
      TrimStartSpec(s[1..]);
    }
  }

  lemma {:induction false} TrimEndSpec(s: string)
    ensures var r := TrimEnd(s);
      |r| <= |s| && r == s[..|r|] && (r == "" || !IsSpace(r[|r| - 1]))
      && forall k :: |r| <= k < |s| ==> IsSpace(s[k])
    decreases |s|
  {
    if |s| > 0 && IsSpace(s[|s| - 1]) {
      TrimEndSpec(s[..|s| - 1]);
    }
  }

  /** The trimmed text is a slice of `s` with no white space at either end, and only white space was cut away. */
  lemma TrimSpec(s: string)
    ensures var r := Trim(s);
      exists i, j :: 0 <= i <= j <= |s| && r == s[i..j]
        && (forall k :: 0 <= k < i ==> IsSpace(s[k]))
        && (forall k :: j <= k < |s| ==> IsSpace(s[k]))
    ensures Trim(s) == "" || (!IsSpace(Trim(s)[0]) && !IsSpace(Trim(s)[|Trim(s)| - 1]))
  {
    var a := TrimStart(s);
    TrimStartSpec(s);
    TrimEndSpec(a);
    var i := |s| - |a|;
    var j := i + |TrimEnd(a)|;
    assert Trim(s) == s[i..j];
    forall k | j <= k < |s| ensures IsSpace(s[k]) {
      assert s[k] == a[k - i];
    }
    if TrimEnd(a) != "" {
      assert TrimEnd(a)[0] == a[0];
    }
  }

  /** `!s.trim()`: a string is blank exactly when every character is white space. */
  lemma TrimEmptyIffBlank(s: string)
    ensures Trim(s) == "" <==> forall k :: 0 <= k < |s| ==> IsSpace(s[k])
  {
    TrimSpec(s);
    var i, j :| 0 <= i <= j <= |s| && Trim(s) == s[i..j]
      && (forall k :: 0 <= k < i ==> IsSpace(s[k]))
      && (forall k :: j <= k < |s| ==> IsSpace(s[k]));
    if Trim(s) != "" {
      assert Trim(s)[0] == s[i];
    }
  }

  /** Leading white space of `s + t` is that of `s`, unless `s` is all white space. */
  lemma {:induction false} TrimStartAppend(s: string, t: string)
    ensures TrimStart(s) != "" ==> TrimStart(s + t) == TrimStart(s) + t
    ensures TrimStart(s) == "" ==> TrimStart(s + t) == TrimStart(t)
    decreases |s|
  {
    if |s| > 0 {
      assert (s + t)[1..] == s[1..] + t;
      if IsSpace(s[0]) {
        TrimStartAppend(s[1..], t);
      }
    } else {
      assert s + t == t;
    }
  }

  /** A space appended to a string changes nothing once it is trimmed. */
  lemma TrimAppendSpace(s: string)
    ensures Trim(s + " ") == Trim(s)
  {
    TrimStartAppend(s, " ");
    var a := TrimStart(s);
    if a != "" {
      assert (a + " ")[..|a|] == a;
    }
  }

  /** Nor does a space put in front of it. */
  lemma TrimPrependSpace(s: string)
    ensures Trim(" " + s) == Trim(s)
  {
    assert (" " + s)[1..] == s;
  }

  /** `toUpperCase` of one code unit; only the ASCII letters are mapped. */
  function UpperAscii(ch: char): (r: char)
    ensures 'a' <= ch <= 'z' ==> 'A' <= r <= 'Z'
    ensures !('a' <= ch <= 'z') ==> r == ch
  {
    if 'a' <= ch <= 'z' then (ch as int - 32) as char else ch
  }

  /** `toLowerCase`; only the ASCII letters are mapped. */
  function LowerAscii(s: string): (r: string)
    ensures |r| == |s|
    ensures forall k :: 0 <= k < |s| ==> ('A' <= s[k] <= 'Z' ==> r[k] as int == s[k] as int + 32)
    ensures forall k :: 0 <= k < |s| ==> (!('A' <= s[k] <= 'Z') ==> r[k] == s[k])
    decreases |s|
  {
    if |s| == 0 then ""
    else [if 'A' <= s[0] <= 'Z' then (s[0] as int + 32) as char else s[0]] + LowerAscii(s[1..])
  }

  /** Lower-casing twice is lower-casing once. */
  lemma LowerAsciiIdempotent(s: string)
    ensures LowerAscii(LowerAscii(s)) == LowerAscii(s)
  {
    var r := LowerAscii(s);
    assert forall k :: 0 <= k < |r| ==> !('A' <= r[k] <= 'Z');
  }
}
