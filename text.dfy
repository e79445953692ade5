/**
 * The parts of Python's `str` that the scripts use, on `seq<char>`:
 * whitespace (the characters for which `str.isspace()` holds), `strip` with and
 * without an argument, ASCII lower-casing, `replace`, `find`, `split` and `join`.
 */
module Text {
  import opened Options

  /** `c.isspace()`: the code points Python classes as whitespace. */
  predicate IsSpace(c: char) {
    ('\U{0009}' <= c <= '\U{000D}') || ('\U{001C}' <= c <= '\U{0020}') || c == '\U{0085}' || c == '\U{00A0}'
    || c == '\U{1680}' || ('\U{2000}' <= c <= '\U{200A}') || c == '\U{2028}' || c == '\U{2029}'
    || c == '\U{202F}' || c == '\U{205F}' || c == '\U{3000}'
  }

  /** Whitespace at neither end: the shape of every result of `strip()`. */
  predicate Stripped(s: string) {
    s == [] || (!IsSpace(s[0]) && !IsSpace(s[|s| - 1]))
  }

  predicate AllSpace(s: string) {
    forall i :: 0 <= i < |s| ==> IsSpace(s[i])
  }

  /** `s.lstrip()` */
  function TrimStart(s: string): (r: string)
    ensures |r| <= |s|
    ensures r == [] || !IsSpace(r[0])
    ensures |s| > 0 && IsSpace(s[0]) ==> |r| < |s|
  {
    if |s| > 0 && IsSpace(s[0]) then TrimStart(s[1..]) else s
  }

  /** `lstrip()` removes a prefix made only of whitespace. */
  lemma {:induction false} TrimStartRemovesSpace(s: string)
    ensures TrimStart(s) == s[|s| - |TrimStart(s)|..]
    ensures forall i :: 0 <= i < |s| - |TrimStart(s)| ==> IsSpace(s[i])
    decreases |s|
  {
    if |s| > 0 && IsSpace(s[0]) {
      TrimStartRemovesSpace(s[1..]);
      assert s[1..][|s| - 1 - |TrimStart(s)|..] == s[|s| - |TrimStart(s)|..];
    }
  }

  /** `s.rstrip()` */
  function TrimEnd(s: string): (r: string)
    ensures |r| <= |s|
    ensures r == [] || !IsSpace(r[|r| - 1])
  {
    if |s| > 0 && IsSpace(s[|s| - 1]) then TrimEnd(s[..|s| - 1]) else s
  }

  /** `rstrip()` removes a suffix made only of whitespace. */
  lemma {:induction false} TrimEndRemovesSpace(s: string)
    ensures TrimEnd(s) == s[..|TrimEnd(s)|]
    ensures forall i :: |TrimEnd(s)| <= i < |s| ==> IsSpace(s[i])
    decreases |s|
  {
    if |s| > 0 && IsSpace(s[|s| - 1]) {
      var p := s[..|s| - 1];
      TrimEndRemovesSpace(p);
      var m := |TrimEnd(p)|;
      assert TrimEnd(s) == TrimEnd(p);
      assert forall i :: 0 <= i < |p| ==> p[i] == s[i];
      assert p[..m] == s[..m];
    }
  }

  /** `s.strip()`: the input without its leading and trailing whitespace. */
  function Strip(s: string): (r: string)
    ensures Stripped(r)
    ensures |r| <= |s|
  {
    var t := TrimStart(s);
    TrimEndPrefix(t);
    TrimEnd(t)
  }

  /** `strip()` gives `""` exactly on a text made only of whitespace. */
  lemma StripEmpty(s: string)
    ensures Strip(s) == [] <==> AllSpace(s)
  {
    var t := TrimStart(s);
    TrimStartRemovesSpace(s);
    TrimEndRemovesSpace(t);
  }

  /** Stripping only removes characters. */
  lemma StripSubset(s: string, x: char)
    ensures x in Strip(s) ==> x in s
  {
    var t := TrimStart(s);
    var r := TrimEnd(t);
    TrimStartRemovesSpace(s);
    TrimEndRemovesSpace(t);
    if x in r {
      var i :| 0 <= i < |r| && r[i] == x;
      assert t[i] == x;
      assert s[|s| - |t| + i] == x;
    }
  }

  /** `lstrip()` keeps a suffix of its input. */
  lemma {:induction false} TrimStartSuffix(s: string)
    ensures TrimStart(s) == s[|s| - |TrimStart(s)|..]
    decreases |s|
  {
    if |s| > 0 && IsSpace(s[0]) {
      TrimStartSuffix(s[1..]);
      assert s[1..][|s| - 1 - |TrimStart(s)|..] == s[|s| - |TrimStart(s)|..];
    }
  }

  /** `rstrip()` keeps a prefix of its input. */
  lemma {:induction false} TrimEndPrefix(s: string)
    ensures TrimEnd(s) == s[..|TrimEnd(s)|]
    decreases |s|
  {
    if |s| > 0 && IsSpace(s[|s| - 1]) {
      var p := s[..|s| - 1];
      TrimEndPrefix(p);
      assert p[..|TrimEnd(p)|] == s[..|TrimEnd(p)|];
    }
  }

  /** `strip()` keeps one contiguous part of its input, starting at `a`. */
  lemma StripSlice(s: string) returns (a: nat)
    ensures a + |Strip(s)| <= |s|
    ensures Strip(s) == s[a..a + |Strip(s)|]
  {
    var t := TrimStart(s);
    TrimStartSuffix(s);
    TrimEndPrefix(t);
    a := |s| - |t|;
    SliceOfSuffix(s, a, |TrimEnd(t)|);
  }

  lemma SliceOfSuffix(s: string, a: nat, m: nat)
    requires a + m <= |s|
    ensures s[a..][..m] == s[a..a + m]
  {
  }

  /** `lstrip()` only removes characters. */
  lemma TrimStartSubset(s: string, x: char)
    ensures x in TrimStart(s) ==> x in s
  {
    TrimStartRemovesSpace(s);
  }

  /** `strip()` leaves a string that has no whitespace at its ends as it is. */
  lemma StripStripped(s: string)
    requires Stripped(s)
    ensures Strip(s) == s
  {
  }

  /** Whitespace in front of a stripped text is all that `strip()` removes. */
  lemma StripAfterSpaces(ws: string, t: string)
    requires AllSpace(ws) && Stripped(t)
    ensures Strip(ws + t) == t
  {
    TrimStartSpaces(ws, t);
    StripStripped(t);
  }

  /** `strip()` is idempotent. */
  lemma StripIdempotent(s: string)
    ensures Strip(Strip(s)) == Strip(s)
  {
    StripStripped(Strip(s));
  }

  /** `s.lstrip(c)` for a single character `c`. */
  function TrimCharStart(s: string, c: char): (r: string)
    ensures |r| <= |s| && r == s[|s| - |r|..]
    ensures r == [] || r[0] != c
  {
    if |s| > 0 && s[0] == c then TrimCharStart(s[1..], c) else s
  }

  /** `s.rstrip(c)` for a single character `c`. */
  function TrimCharEnd(s: string, c: char): (r: string)
    ensures |r| <= |s| && r == s[..|r|]
    ensures r == [] || r[|r| - 1] != c
  {
    if |s| > 0 && s[|s| - 1] == c then TrimCharEnd(s[..|s| - 1], c) else s
  }

  /** `s.strip(c)` for a single character `c`. */
  function TrimChar(s: string, c: char): (r: string)
    ensures |r| <= |s|
    ensures r == [] || (r[0] != c && r[|r| - 1] != c)
  {
    var t := TrimCharStart(s, c);
    assert t == [] || t[0] != c;
    TrimCharEnd(t, c)
  }

  /** `str.lower()` restricted to ASCII letters; every other character is kept. */
  function LowerChar(c: char): char {
    if 'A' <= c <= 'Z' then (c as int + 32) as char else c
  }

  function Lower(s: string): string {
    seq(|s|, i requires 0 <= i < |s| => LowerChar(s[i]))
  }

  /** `s.replace(pat, rep)`: every non-overlapping occurrence of `pat`, scanning from the left. */
  function ReplaceAll(s: string, pat: string, rep: string): string
    requires pat != []
    decreases |s|
  {
    if s == [] then []
    else if pat <= s then rep + ReplaceAll(s[|pat|..], pat, rep)
    else [s[0]] + ReplaceAll(s[1..], pat, rep)
  }

  /** An occurrence at the very start is replaced, and the rest is scanned after it. */
  lemma ReplaceLeading(pat: string, s: string, rep: string)
    requires pat != []
    ensures ReplaceAll(pat + s, pat, rep) == rep + ReplaceAll(s, pat, rep)
    ensures rep == [] ==> ReplaceAll(pat + s, pat, rep) == ReplaceAll(s, pat, rep)
  {
    assert pat <= pat + s;
    assert (pat + s)[|pat|..] == s;
  }

  /** Replacing by the empty text never lengthens. */
  lemma {:induction false} ReplaceByNothingShorter(s: string, pat: string)
    requires pat != []
    ensures |ReplaceAll(s, pat, [])| <= |s|
    decreases |s|
  {
    if s != [] {
      if pat <= s {
        ReplaceByNothingShorter(s[|pat|..], pat);
      } else {
        ReplaceByNothingShorter(s[1..], pat);
      }
    }
  }

  /** A pattern that does not occur leaves the string as it is. */
  lemma {:induction false} ReplaceNone(s: string, pat: string, rep: string)
    requires pat != [] && !Contains(s, pat)
    ensures ReplaceAll(s, pat, rep) == s
    decreases |s|
  {
    if s != [] {
      assert !OccursAt(s, pat, 0);
      forall j: nat
        ensures OccursAt(s[1..], pat, j) ==> OccursAt(s, pat, j + 1)
      {
        if j + |pat| <= |s[1..]| {
          assert s[1..][j..j + |pat|] == s[j + 1..j + 1 + |pat|];
        }
      }
      ReplaceNone(s[1..], pat, rep);
    }
  }

  /** A pattern whose first character does not occur leaves the string as it is. */
  lemma {:induction false} ReplaceAbsent(s: string, pat: string, rep: string)
    requires pat != [] && pat[0] !in s
    ensures ReplaceAll(s, pat, rep) == s
    decreases |s|
  {
    if s != [] {
      assert s[0] in s;
      assert !(pat <= s);
      assert forall x :: x in s[1..] ==> x in s;
      ReplaceAbsent(s[1..], pat, rep);
    }
  }

  /** After replacing a single character by a text without it, the character is gone. */
  lemma {:induction false} ReplaceCharGone(s: string, c: char, rep: string)
    requires c !in rep
    ensures c !in ReplaceAll(s, [c], rep)
    decreases |s|
  {
    if s != [] {
      if [c] <= s {
        ReplaceCharGone(s[1..], c, rep);
      } else {
        ReplaceCharGone(s[1..], c, rep);
      }
    }
  }

  /** Replacing one character by one character keeps the length. */
  lemma {:induction false} ReplaceCharLength(s: string, c: char, d: char)
    ensures |ReplaceAll(s, [c], [d])| == |s|
    decreases |s|
  {
    if s != [] {
      ReplaceCharLength(s[1..], c, d);
    }
  }

  /** Replacing by the empty text only removes characters. */
  lemma {:induction false} ReplaceByNothingSubset(s: string, pat: string, x: char)
    requires pat != []
    ensures x in ReplaceAll(s, pat, []) ==> x in s
    decreases |s|
  {
    if s != [] {
      if pat <= s {
        ReplaceByNothingSubset(s[|pat|..], pat, x);
        assert forall y :: y in s[|pat|..] ==> y in s;
      } else {
        ReplaceByNothingSubset(s[1..], pat, x);
        assert forall y :: y in s[1..] ==> y in s;
      }
    }
  }

  /** `sub` occurs in `s` starting at index `j`. */
  predicate OccursAt(s: string, sub: string, j: nat) {
    j + |sub| <= |s| && s[j..j + |sub|] == sub
  }

  /** `s.find(sub)`: the first index at which `sub` occurs, if any. */
  function IndexOf(s: string, sub: string): (r: Option<nat>)
    ensures r.Some? ==> OccursAt(s, sub, r.value)
    ensures r.Some? ==> forall j: nat :: j < r.value ==> !OccursAt(s, sub, j)
    ensures r.None? ==> forall j: nat :: !OccursAt(s, sub, j)
  {
    assert OccursAt(s, sub, 0) <==> sub <= s;
    if sub <= s then Some(0)
    else if s == [] then None
    else
      assert forall j: nat :: 0 < j ==> (OccursAt(s, sub, j) <==> OccursAt(s[1..], sub, j - 1));
      match IndexOf(s[1..], sub)
      case None =>
        None
      case Some(i) =>
        Some(i + 1)
  }

  /** `sub in s` */
  predicate Contains(s: string, sub: string) {
    IndexOf(s, sub).Some?
  }

  /** `s.split(sep, 1)` / `s.partition(sep)`: the text before and after the first `sep`. */
  function SplitOnce(s: string, sep: string): (r: Option<(string, string)>)
    ensures r.None? <==> !Contains(s, sep)
    ensures r.Some? ==> r.value.0 + sep + r.value.1 == s
    ensures r.Some? ==> forall j: nat :: j < |r.value.0| ==> !OccursAt(s, sep, j)
  {
    match IndexOf(s, sep)
    case None => None
    case Some(i) =>
      assert s == s[..i] + s[i..i + |sep|] + s[i + |sep|..];
      Some((s[..i], s[i + |sep|..]))
  }

  /** `s.partition(sep)` without the separator: the text before and after the first `sep`, or `s` and `""`. */
  function Partition(s: string, sep: string): (r: (string, string))
    ensures Contains(s, sep) ==> r.0 + sep + r.1 == s
    ensures !Contains(s, sep) ==> r == (s, [])
    ensures Contains(s, sep) ==> forall j: nat :: j < |r.0| ==> !OccursAt(s, sep, j)
  {
    match SplitOnce(s, sep)
    case None => (s, [])
    case Some(parts) => parts
  }

  /** A one-character text occurs in `s` exactly when that character does. */
  lemma ContainsChar(s: string, c: char)
    ensures Contains(s, [c]) <==> c in s
  {
    if c in s {
      var j :| 0 <= j < |s| && s[j] == c;
      assert s[j..j + 1] == [c];
      assert OccursAt(s, [c], j);
    }
    if Contains(s, [c]) {
      var i := IndexOf(s, [c]).value;
      assert s[i..i + 1] == [c];
      assert s[i] == c;
    }
  }

  /** `s.split(c, 1)[1] if c in s else ""`: what follows the first `c`, or nothing. */
  function AfterFirst(s: string, c: char): (r: string)
    ensures c !in s ==> r == []
    ensures c in s ==> |r| < |s| && s == s[..|s| - |r| - 1] + [c] + r && c !in s[..|s| - |r| - 1]
  {
    ContainsChar(s, c);
    match SplitOnce(s, [c])
    case None => []
    case Some(parts) =>
      assert forall j :: 0 <= j < |parts.0| ==> parts.0[j] != c by {
        forall j | 0 <= j < |parts.0|
          ensures parts.0[j] != c
        {
          assert !OccursAt(s, [c], j);
          assert s[j..j + 1] == [s[j]];
          assert s[j] == (parts.0 + [c] + parts.1)[j];
        }
      }
      assert s[..|parts.0|] == parts.0;
      parts.1
  }

  /** The summed lengths of some texts. */
  function TotalLength(parts: seq<string>): nat
    decreases |parts|
  {
    if parts == [] then 0 else TotalLength(parts[..|parts| - 1]) + |parts[|parts| - 1]|
  }

  /** `sep.join(parts)`: the parts in order with one `sep` between each two. */
  function Join(sep: string, parts: seq<string>): (r: string)
    ensures parts != [] ==> |parts[|parts| - 1]| <= |r| && r[|r| - |parts[|parts| - 1]|..] == parts[|parts| - 1]
    decreases |parts|
  {
    if parts == [] then []
    else if |parts| == 1 then parts[0]
    else Join(sep, parts[..|parts| - 1]) + sep + parts[|parts| - 1]
  }

  /** The joined text is as long as its parts together plus one separator between each two. */
  lemma {:induction false} JoinLength(sep: string, parts: seq<string>)
    requires parts != []
    ensures |Join(sep, parts)| == TotalLength(parts) + (|parts| - 1) * |sep|
    decreases |parts|
  {
    if |parts| > 1 {
      var init := parts[..|parts| - 1];
      JoinLength(sep, init);
      assert (|parts| - 1) * |sep| == (|init| - 1) * |sep| + |sep|;
    }
  }

  /** The joined text begins with the first part. */
  lemma {:induction false} JoinStartsWithFirst(sep: string, parts: seq<string>)
    requires parts != []
    ensures parts[0] <= Join(sep, parts)
    decreases |parts|
  {
    if |parts| > 1 {
      JoinStartsWithFirst(sep, parts[..|parts| - 1]);
    }
  }

  /** Joining non-empty parts that have no whitespace at their ends gives such a text too. */
  lemma JoinStripped(sep: string, parts: seq<string>)
    requires forall i :: 0 <= i < |parts| ==> parts[i] != [] && Stripped(parts[i])
    ensures Stripped(Join(sep, parts))
  {
    if parts != [] {
      JoinStartsWithFirst(sep, parts);
      var j := Join(sep, parts);
      assert j[0] == parts[0][0];
      var last := parts[|parts| - 1];
      assert |parts| > 1 ==> j == Join(sep, parts[..|parts| - 1]) + sep + last;
      assert j[|j| - 1] == last[|last| - 1];
    }
  }

  /** The longest prefix without whitespace. */
  function WordPrefix(s: string): (w: string)
    ensures w <= s
    ensures forall i :: 0 <= i < |w| ==> !IsSpace(w[i])
    ensures |w| == |s| || IsSpace(s[|w|])
    ensures s != [] && !IsSpace(s[0]) ==> w != []
  {
    if s == [] || IsSpace(s[0]) then [] else [s[0]] + WordPrefix(s[1..])
  }

  predicate NoSpace(s: string) {
    forall i :: 0 <= i < |s| ==> !IsSpace(s[i])
  }

  /** `s.split()` with no separator: the maximal runs of non-whitespace characters, in order. */
  function Words(s: string): (r: seq<string>)
    ensures forall i :: 0 <= i < |r| ==> r[i] != [] && NoSpace(r[i])
    decreases |s|
  {
    var t := TrimStart(s);
    if t == [] then []
    else
      var w := WordPrefix(t);
      [w] + Words(t[|w|..])
  }

  /** Leading whitespace does not change what `lstrip()` gives. */
  lemma {:induction false} TrimStartSpaces(ws: string, t: string)
    requires AllSpace(ws)
    ensures TrimStart(ws + t) == TrimStart(t)
    decreases |ws|
  {
    if ws != [] {
      assert (ws + t)[0] == ws[0] && IsSpace(ws[0]);
      assert (ws + t)[1..] == ws[1..] + t;
      TrimStartSpaces(ws[1..], t);
    } else {
      assert ws + t == t;
    }
  }

  /** The word in front of whitespace (or the end) is the whole run. */
  lemma {:induction false} WordPrefixOf(w: string, rest: string)
    requires NoSpace(w)
    requires rest == [] || IsSpace(rest[0])
    ensures WordPrefix(w + rest) == w
    decreases |w|
  {
    if w == [] {
      assert w + rest == rest;
    } else {
      assert (w + rest)[1..] == w[1..] + rest;
      WordPrefixOf(w[1..], rest);
    }
  }

  /** `s.split()` is empty exactly when `s` is blank. */
  lemma WordsEmpty(s: string)
    ensures Words(s) == [] <==> AllSpace(s)
  {
    TrimStartRemovesSpace(s);
    var t := TrimStart(s);
    if t != [] {
      assert s[|s| - |t|] == t[0];
    }
  }

  /** Leading whitespace is dropped, and a word up to the next whitespace is the first of the list. */
  lemma WordsCons(ws: string, w: string, rest: string)
    requires AllSpace(ws) && w != [] && NoSpace(w)
    requires rest == [] || IsSpace(rest[0])
    ensures Words(ws + w + rest) == [w] + Words(rest)
  {
    var s := ws + w + rest;
    assert s == ws + (w + rest);
    TrimStartSpaces(ws, w + rest);
    assert TrimStart(s) == w + rest;
    WordPrefixOf(w, rest);
    assert (w + rest)[|w|..] == rest;
  }

  /** A text `u` made of whitespace followed by a rest `r` that does not start with whitespace. */
  lemma SpaceThenRest(u: string, r: string)
    requires |r| <= |u|
    requires r == u[|u| - |r|..]
    requires forall i :: 0 <= i < |u| - |r| ==> IsSpace(u[i])
    requires r == [] || !IsSpace(r[0])
    requires u == [] || IsSpace(u[0])
    ensures u == u[..|u| - |r|] + r
    ensures AllSpace(u[..|u| - |r|])
    ensures r != [] ==> |r| < |u|
    ensures AllSpace(u) ==> r == []
  {
    var k := |u| - |r|;
    if r != [] {
      assert r[0] == u[k];
    }
  }

  /** The middle of a text cut into three parts. */
  lemma ThreeParts(t: string, w: string, u: string, sep: string, r: string)
    requires t == w + u && u == sep + r
    ensures |w| + |r| <= |t| && t[|w|..|t| - |r|] == sep && t == w + sep + r
  {
    assert t[|w|..|t| - |r|] == sep;
  }

  /**
   * `s.split(maxsplit=1)[1]`, or `""` when there is no second part: once the leading
   * whitespace and the first word are gone, the rest without its leading whitespace.
   */
  function RestAfterFirstWord(s: string): (r: string)
    ensures r == [] || !IsSpace(r[0])
    ensures AllSpace(TrimStart(s)[|WordPrefix(TrimStart(s))|..]) ==> r == []
    ensures var t := TrimStart(s); var w := WordPrefix(t);
            && |w| + |r| <= |t|
            && t == w + t[|w|..|t| - |r|] + r
            && AllSpace(t[|w|..|t| - |r|])
            && (r != [] ==> t[|w|..|t| - |r|] != [])
  {
    var t := TrimStart(s);
    var w := WordPrefix(t);
    var u := t[|w|..];
    var r := TrimStart(u);
    TrimStartRemovesSpace(u);
    assert u == [] || IsSpace(u[0]) by {
      assert u == [] || u[0] == t[|w|];
    }
    SpaceThenRest(u, r);
    assert t == w + u;
    ThreeParts(t, w, u, u[..|u| - |r|], r);
    r
  }

  /** `re.sub(r'\s+', ' ', s)`: every run of whitespace becomes one space. */
  function CollapseSpaces(s: string): (r: string)
    decreases |s|
  {
    if s == [] then []
    else if IsSpace(s[0]) then [' '] + CollapseSpaces(TrimStart(s))
    else [s[0]] + CollapseSpaces(s[1..])
  }

  /** Collapsing keeps a leading non-space character in front. */
  lemma CollapseHead(s: string)
    requires s != [] && !IsSpace(s[0])
    ensures CollapseSpaces(s) != [] && CollapseSpaces(s)[0] == s[0]
  {
  }

  /** Collapsing brings in no character but the space. */
  lemma {:induction false} CollapseSpacesSubset(s: string, x: char)
    ensures x in CollapseSpaces(s) ==> x == ' ' || x in s
    decreases |s|
  {
    if s != [] {
      if IsSpace(s[0]) {
        CollapseSpacesSubset(TrimStart(s), x);
        TrimStartSubset(s, x);
      } else {
        CollapseSpacesSubset(s[1..], x);
        assert x in s[1..] ==> x in s;
      }
    }
  }

  /** After collapsing, the only whitespace is a single space, and never two in a row. */
  lemma {:induction false} CollapseSpacesShape(s: string)
    ensures forall i :: 0 <= i < |CollapseSpaces(s)| && IsSpace(CollapseSpaces(s)[i]) ==> CollapseSpaces(s)[i] == ' '
    ensures forall i :: 0 <= i < |CollapseSpaces(s)| - 1 && CollapseSpaces(s)[i] == ' ' ==> CollapseSpaces(s)[i + 1] != ' '
    decreases |s|
  {
    if s != [] {
      if IsSpace(s[0]) {
        var t := TrimStart(s);
        CollapseSpacesShape(t);
        if t != [] {
          CollapseHead(t);
        }
      } else {
        CollapseSpacesShape(s[1..]);
      }
    }
  }

  /** Only single spaces as whitespace. */
  predicate SingleSpaced(s: string) {
    && (forall i :: 0 <= i < |s| && IsSpace(s[i]) ==> s[i] == ' ')
    && (forall i :: 0 <= i < |s| - 1 && s[i] == ' ' ==> s[i + 1] != ' ')
  }

  /** Stripping a single-spaced text leaves it single-spaced: it is a slice of it. */
  lemma StripSingleSpaced(s: string)
    requires SingleSpaced(s)
    ensures SingleSpaced(Strip(s))
  {
    var a := StripSlice(s);
    var r := Strip(s);
    assert forall i :: 0 <= i < |r| ==> r[i] == s[a + i];
  }

  /** Text that is already single-spaced is left as it is by collapsing. */
  lemma {:induction false} CollapseSingle(s: string)
    requires SingleSpaced(s)
    ensures CollapseSpaces(s) == s
    decreases |s|
  {
    if s != [] {
      assert SingleSpaced(s[1..]);
      if IsSpace(s[0]) {
        assert s[1..] == [] || !IsSpace(s[1]);
        assert TrimStart(s) == s[1..];
      }
      CollapseSingle(s[1..]);
    }
  }
}
