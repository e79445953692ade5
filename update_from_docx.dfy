/**
 * pytoncode/update_from_docx.py: three documents (حدود, نبذة, مثال) are cut into blocks
 * that start at a line naming a known bot title, and the texts found overwrite the
 * matching fields of the bots of the catalog.
 */
module UpdateFromDocx {
  import opened Options
  import opened Text
  import opened Dict
  import opened Json
  import opened Labels

  // ---------------------------------------------------------------------------------------
  // normalize_text
  // ---------------------------------------------------------------------------------------

  /** U+200E, U+200F, U+202A to U+202E and U+FEFF. */
  predicate IsDirectionMark(c: char) {
    c == LRM || c == RLM || ('\U{202A}' <= c <= '\U{202E}') || c == '\U{FEFF}'
  }

  /** « » “ ” */
  predicate IsFancyQuote(c: char) {
    c == '\U{00AB}' || c == '\U{00BB}' || c == '\U{201C}' || c == '\U{201D}'
  }

  /** The text without its direction marks. */
  function RemoveMarks(s: string): (r: string)
    ensures forall i :: 0 <= i < |r| ==> !IsDirectionMark(r[i])
    ensures forall c :: c in r ==> c in s
    decreases |s|
  {
    if s == [] then []
    else
      var rest := RemoveMarks(s[1..]);
      if IsDirectionMark(s[0]) then rest else [s[0]] + rest
  }

  /** Every fancy quote replaced by `"`. */
  function UnifyQuotes(s: string): (r: string)
    ensures |r| == |s|
    ensures forall i :: 0 <= i < |r| ==> r[i] == (if IsFancyQuote(s[i]) then '"' else s[i])
  {
    seq(|s|, i requires 0 <= i < |s| => if IsFancyQuote(s[i]) then '"' else s[i])
  }

  predicate IsMarker(c: char) {
    c == '#' || c == '@'
  }

  /** The length of the leading run of `#` and `@`. */
  function MarkerRun(s: string): (n: nat)
    ensures n <= |s|
    ensures forall i :: 0 <= i < n ==> IsMarker(s[i])
    ensures n == |s| || !IsMarker(s[n])
  {
    if s != [] && IsMarker(s[0]) then 1 + MarkerRun(s[1..]) else 0
  }

  /** `re.sub(r'^\s*[#@]+\s*', '', s)`: one leading run of markers and the whitespace around it. */
  function StripMarkers(s: string): (r: string)
    ensures |r| <= |s|
  {
    var t := TrimStart(s);
    var n := MarkerRun(t);
    if n == 0 then s else TrimStart(t[n..])
  }

  /** Text without direction marks is kept as it is, and removal works piece by piece. */
  lemma {:induction false} RemoveMarksNone(s: string)
    requires forall i :: 0 <= i < |s| ==> !IsDirectionMark(s[i])
    ensures RemoveMarks(s) == s
    decreases |s|
  {
    if s != [] {
      RemoveMarksNone(s[1..]);
    }
  }

  /** Removing marks from two texts joined is removing them from each, in order. */
  lemma {:induction false} RemoveMarksAppend(a: string, b: string)
    ensures RemoveMarks(a + b) == RemoveMarks(a) + RemoveMarks(b)
    decreases |a|
  {
    if a == [] {
      assert a + b == b;
    } else {
      assert (a + b)[0] == a[0];
      assert (a + b)[1..] == a[1..] + b;
      RemoveMarksAppend(a[1..], b);
    }
  }

  /** The run of markers in front of a non-marker is exactly that run. */
  lemma {:induction false} MarkerRunOf(m: string, rest: string)
    requires forall i :: 0 <= i < |m| ==> IsMarker(m[i])
    requires rest == [] || !IsMarker(rest[0])
    ensures MarkerRun(m + rest) == |m|
    decreases |m|
  {
    if m == [] {
      assert m + rest == rest;
    } else {
      assert (m + rest)[0] == m[0];
      assert (m + rest)[1..] == m[1..] + rest;
      MarkerRunOf(m[1..], rest);
    }
  }

  /**
   * `^\s*[#@]+\s*` removes whitespace, the whole run of markers and the whitespace after
   * it.
   */
  lemma StripMarkersRun(w1: string, m: string, w2: string, rest: string)
    requires AllSpace(w1) && AllSpace(w2)
    requires m != [] && forall i :: 0 <= i < |m| ==> IsMarker(m[i])
    requires rest == [] || !IsSpace(rest[0])
    requires w2 == [] ==> rest == [] || !IsMarker(rest[0])
    ensures StripMarkers(w1 + m + w2 + rest) == rest
  {
    var s := w1 + m + w2 + rest;
    assert s == w1 + (m + (w2 + rest));
    TrimStartSpaces(w1, m + (w2 + rest));
    assert (m + (w2 + rest))[0] == m[0];
    assert TrimStart(s) == m + (w2 + rest);
    if w2 != [] {
      assert (w2 + rest)[0] == w2[0];
    } else {
      assert w2 + rest == rest;
    }
    MarkerRunOf(m, w2 + rest);
    assert (m + (w2 + rest))[|m|..] == w2 + rest;
    TrimStartSpaces(w2, rest);
  }

  /** Marker removal only removes characters. */
  lemma StripMarkersSubset(s: string, x: char)
    ensures x in StripMarkers(s) ==> x in s
  {
    var t := TrimStart(s);
    var n := MarkerRun(t);
    TrimStartSubset(s, x);
    if n > 0 {
      TrimStartSubset(t[n..], x);
      assert x in t[n..] ==> x in t;
    }
  }

  /**
   * `normalize_text`: direction marks removed, fancy quotes made plain, stripped, one
   * leading marker run removed, whitespace runs collapsed to a space, stripped again.
   */
  function NormalizeText(s: string): string {
    if s == [] then []
    else Strip(CollapseSpaces(StripMarkers(Strip(UnifyQuotes(RemoveMarks(s))))))
  }

  /** Normalising brings in no direction mark and no fancy quote. */
  lemma NormalizeTextChars(s: string, x: char)
    requires x in NormalizeText(s)
    ensures !IsDirectionMark(x) && !IsFancyQuote(x)
  {
    var u := UnifyQuotes(RemoveMarks(s));
    var m := StripMarkers(Strip(u));
    var k := CollapseSpaces(m);
    StripSubset(k, x);
    CollapseSpacesSubset(m, x);
    if x != ' ' {
      StripMarkersSubset(Strip(u), x);
      StripSubset(u, x);
    }
  }

  /**
   * What normalising leaves: no whitespace at the ends, no direction mark and no fancy quote,
   * and no whitespace but single spaces.
   */
  lemma NormalizeTextShape(s: string)
    ensures var r := NormalizeText(s);
      && Stripped(r)
      && (forall i :: 0 <= i < |r| ==> !IsDirectionMark(r[i]) && !IsFancyQuote(r[i]))
      && SingleSpaced(r)
  {
    var r := NormalizeText(s);
    forall i | 0 <= i < |r| ensures !IsDirectionMark(r[i]) && !IsFancyQuote(r[i]) {
      NormalizeTextChars(s, r[i]);
    }
    if s != [] {
      var k := CollapseSpaces(StripMarkers(Strip(UnifyQuotes(RemoveMarks(s)))));
      CollapseSpacesShape(StripMarkers(Strip(UnifyQuotes(RemoveMarks(s)))));
      StripSingleSpaced(k);
    }
  }

  /** The form `normalize_text` gives: stripped, single-spaced, no mark or fancy quote, no leading marker. */
  predicate Normal(s: string) {
    && Stripped(s)
    && SingleSpaced(s)
    && (forall i :: 0 <= i < |s| ==> !IsDirectionMark(s[i]) && !IsFancyQuote(s[i]))
    && (s == [] || !IsMarker(s[0]))
  }

  /** Text already in normal form is its own normalisation. */
  lemma NormalizeTextKeeps(s: string)
    requires Normal(s)
    ensures NormalizeText(s) == s
  {
    if s != [] {
      RemoveMarksNone(s);
      assert UnifyQuotes(s) == s;
      StripStripped(s);
      assert TrimStart(s) == s;
      assert StripMarkers(s) == s;
      CollapseSingle(s);
    }
  }

  /**
   * Normalising twice is normalising once, unless the result starts with a marker that a
   * second pass would remove (`"# # x"` gives `"# x"`, then `"x"`).
   */
  lemma NormalizeTextIdempotent(s: string)
    requires NormalizeText(s) == [] || !IsMarker(NormalizeText(s)[0])
    ensures NormalizeText(NormalizeText(s)) == NormalizeText(s)
  {
    NormalizeTextShape(s);
    NormalizeTextKeeps(NormalizeText(s));
  }

  // ---------------------------------------------------------------------------------------
  // build_known_map
  // ---------------------------------------------------------------------------------------

  /** The normalised form of every title. */
  function Norms(titles: seq<string>): (r: seq<string>)
    ensures |r| == |titles|
    ensures forall j :: 0 <= j < |titles| ==> r[j] == NormalizeText(titles[j])
  {
    seq(|titles|, j requires 0 <= j < |titles| => NormalizeText(titles[j]))
  }

  /** The map `build_known_map` builds: normalised title to title, later titles overwriting. */
  function KnownMap(titles: seq<string>): Dict<string> {
    Pairs(Norms(titles), titles)
  }

  /** One more title is one more assignment. */
  lemma KnownMapAppend(titles: seq<string>, t: string)
    ensures KnownMap(titles + [t]) == Put(KnownMap(titles), NormalizeText(t), t)
  {
    assert Norms(titles + [t]) == Norms(titles) + [NormalizeText(t)];
    PairsAppend(Norms(titles), titles, NormalizeText(t), t);
  }

  lemma KnownMapStep(titles: seq<string>, i: nat)
    requires i < |titles|
    ensures KnownMap(titles[..i + 1]) == Put(KnownMap(titles[..i]), NormalizeText(titles[i]), titles[i])
  {
    assert titles[..i + 1] == titles[..i] + [titles[i]];
    KnownMapAppend(titles[..i], titles[i]);
  }

  /** A normalised form maps to the last title that has it. */
  lemma KnownMapLast(titles: seq<string>, i: nat)
    requires i < |titles|
    requires forall j :: i < j < |titles| ==> NormalizeText(titles[j]) != NormalizeText(titles[i])
    ensures Get(KnownMap(titles), NormalizeText(titles[i])) == Some(titles[i])
  {
    PairsLast(Norms(titles), titles, i);
    assert Get(KnownMap(titles), NormalizeText(titles[i])) == LastValue(Norms(titles), titles, Norms(titles)[i]);
  }

  /** A form no title has is not in the map. */
  lemma KnownMapAbsent(titles: seq<string>, k: string)
    requires forall j :: 0 <= j < |titles| ==> NormalizeText(titles[j]) != k
    ensures Get(KnownMap(titles), k) == None
  {
    PairsAbsent(Norms(titles), titles, k);
    assert Get(KnownMap(titles), k) == LastValue(Norms(titles), titles, k);
  }

  method BuildKnownMap(titles: seq<string>) returns (m: Dict<string>)
    ensures m == KnownMap(titles)
  {
    m := [];
    var i := 0;
    while i < |titles|
      invariant 0 <= i <= |titles|
      invariant m == KnownMap(titles[..i])
    {
      KnownMapStep(titles, i);
      m := Put(m, NormalizeText(titles[i]), titles[i]);
      i := i + 1;
    }
    assert titles[..i] == titles;
  }

  // ---------------------------------------------------------------------------------------
  // parse_blocks
  // ---------------------------------------------------------------------------------------

  /** The loop's variables: the texts found so far, the title of the open block and its lines. */
  datatype Blocks = Blocks(result: Dict<string>, current: Option<string>, buffer: seq<string>)

  const Start: Blocks := Blocks([], None, [])

  /** `'\n'.join(buffer).strip()` */
  function BlockText(buffer: seq<string>): (r: string)
    ensures Stripped(r)
    ensures |r| <= |Join("\n", buffer)|
  {
    Strip(Join("\n", buffer))
  }

  /** `flush`: a non-empty text of an open block is stored under its title; the buffer always empties. */
  function Flush(b: Blocks): (r: Blocks)
    ensures r.buffer == [] && r.current == b.current
    ensures r.result == if b.current.Some? && b.current.value != [] && b.buffer != [] && BlockText(b.buffer) != []
                        then Put(b.result, b.current.value, BlockText(b.buffer)) else b.result
  {
    if b.current.Some? && b.current.value != [] && b.buffer != [] && BlockText(b.buffer) != [] then
      b.(result := Put(b.result, b.current.value, BlockText(b.buffer)), buffer := [])
    else b.(buffer := [])
  }

  /** The known title a stripped line names: by its normalised form, else by that form without markers. */
  function LineKey(known: Dict<string>, line: string): Option<string> {
    var norm := NormalizeText(line);
    var normNoMark := NormalizeText(StripMarkers(line));
    if HasKey(known, norm) then Get(known, norm)
    else if HasKey(known, normNoMark) then Get(known, normNoMark)
    else None
  }

  /** A line that starts a block: it names a known title, and that title is not empty. */
  predicate StartsBlock(known: Dict<string>, raw: string) {
    var key := LineKey(known, Strip(raw));
    key.Some? && key.value != []
  }

  /** One line: a title line flushes and opens its block; any other line joins an open block. */
  function BlockStep(known: Dict<string>, b: Blocks, raw: string): Blocks {
    var line := Strip(raw);
    var key := LineKey(known, line);
    if key.Some? && key.value != [] then Flush(b).(current := key)
    else if b.current.Some? && b.current.value != [] then b.(buffer := b.buffer + [line])
    else b
  }

  /** The state after `lines`, from `b`. */
  function RunFrom(known: Dict<string>, b: Blocks, lines: seq<string>): Blocks
    decreases |lines|
  {
    if lines == [] then b else BlockStep(known, RunFrom(known, b, lines[..|lines| - 1]), lines[|lines| - 1])
  }

  /** `parse_blocks`: the loop and the last flush. */
  function ParseBlocks(lines: seq<string>, known: Dict<string>): Dict<string> {
    Flush(RunFrom(known, Start, lines)).result
  }

  method ParseBlocksLoop(lines: seq<string>, known: Dict<string>) returns (result: Dict<string>)
    ensures result == ParseBlocks(lines, known)
  {
    var b := Start;
    var i := 0;
    while i < |lines|
      invariant 0 <= i <= |lines|
      invariant b == RunFrom(known, Start, lines[..i])
    {
      assert lines[..i + 1][..i] == lines[..i];
      b := BlockStep(known, b, lines[i]);
      i := i + 1;
    }
    assert lines[..i] == lines;
    b := Flush(b);
    result := b.result;
  }

  /** Running over two pieces is running over the first, then the second. */
  lemma {:induction false} RunFromAppend(known: Dict<string>, b: Blocks, xs: seq<string>, ys: seq<string>)
    ensures RunFrom(known, b, xs + ys) == RunFrom(known, RunFrom(known, b, xs), ys)
    decreases |ys|
  {
    if ys == [] {
      assert xs + ys == xs;
    } else {
      var n := |ys| - 1;
      assert (xs + ys)[..|xs + ys| - 1] == xs + ys[..n];
      RunFromAppend(known, b, xs, ys[..n]);
    }
  }

  /** Lines before the first title line change nothing. */
  lemma {:induction false} NoTitleNoChange(known: Dict<string>, pre: seq<string>)
    requires forall i :: 0 <= i < |pre| ==> !StartsBlock(known, pre[i])
    ensures RunFrom(known, Start, pre) == Start
    decreases |pre|
  {
    if pre != [] {
      NoTitleNoChange(known, pre[..|pre| - 1]);
    }
  }

  /** So they are ignored: the result is that of the lines from the first title on. */
  lemma LeadingLinesIgnored(known: Dict<string>, pre: seq<string>, rest: seq<string>)
    requires forall i :: 0 <= i < |pre| ==> !StartsBlock(known, pre[i])
    ensures ParseBlocks(pre + rest, known) == ParseBlocks(rest, known)
  {
    RunFromAppend(known, Start, pre, rest);
    NoTitleNoChange(known, pre);
  }

  /** A title line is not buffered: it flushes the open block and opens its own, empty. */
  lemma TitleLineOpensBlock(known: Dict<string>, b: Blocks, raw: string)
    requires StartsBlock(known, raw)
    ensures var r := BlockStep(known, b, raw);
      && r.current == LineKey(known, Strip(raw)) && r.buffer == [] && r.result == Flush(b).result
  {
  }

  /** Any other line is buffered, stripped, when a block is open, and changes nothing otherwise. */
  lemma BlockStepContent(known: Dict<string>, b: Blocks, raw: string)
    requires !StartsBlock(known, raw)
    ensures var r := BlockStep(known, b, raw);
      && (b.current.Some? && b.current.value != [] ==> r == b.(buffer := b.buffer + [Strip(raw)]))
      && (b.current.None? || b.current.value == [] ==> r == b)
  {
  }

  /** Every stored text is non-empty and stripped. */
  ghost predicate TextsNonEmpty(d: Dict<string>) {
    forall k :: Get(d, k).Some? ==> Get(d, k).value != [] && Stripped(Get(d, k).value)
  }

  /** `k` is the title some normalised form maps to. */
  ghost predicate IsKnownTitle(known: Dict<string>, k: string) {
    exists n :: Get(known, n) == Some(k)
  }

  /** The texts stay non-empty, and every block title, open or stored, is a known title. */
  ghost predicate BlocksInv(known: Dict<string>, b: Blocks) {
    && TextsNonEmpty(b.result)
    && (forall k :: HasKey(b.result, k) ==> IsKnownTitle(known, k))
    && (b.current.Some? ==> IsKnownTitle(known, b.current.value))
  }

  lemma FlushInv(known: Dict<string>, b: Blocks)
    requires BlocksInv(known, b)
    ensures BlocksInv(known, Flush(b))
  {
    var r := Flush(b);
    if r.result != b.result {
      forall k | HasKey(r.result, k) ensures IsKnownTitle(known, k) {
        if k != b.current.value {
          assert Get(r.result, k) == Get(b.result, k);
        }
      }
    }
  }

  lemma StepInv(known: Dict<string>, b: Blocks, raw: string)
    requires BlocksInv(known, b)
    ensures BlocksInv(known, BlockStep(known, b, raw))
  {
    var line := Strip(raw);
    var key := LineKey(known, line);
    FlushInv(known, b);
    if key.Some? && key.value != [] {
      var norm := NormalizeText(line);
      var normNoMark := NormalizeText(StripMarkers(line));
      if HasKey(known, norm) {
        assert Get(known, norm) == key;
      } else {
        assert Get(known, normNoMark) == key;
      }
    }
  }

  lemma {:induction false} RunInv(known: Dict<string>, lines: seq<string>)
    ensures BlocksInv(known, RunFrom(known, Start, lines))
    decreases |lines|
  {
    if lines != [] {
      RunInv(known, lines[..|lines| - 1]);
      StepInv(known, RunFrom(known, Start, lines[..|lines| - 1]), lines[|lines| - 1]);
    }
  }

  /** Every text of the result is non-empty and stripped, and stored under a known title. */
  lemma ParseBlocksResult(lines: seq<string>, known: Dict<string>)
    ensures TextsNonEmpty(ParseBlocks(lines, known))
    ensures forall k :: HasKey(ParseBlocks(lines, known), k) ==> IsKnownTitle(known, k)
  {
    RunInv(known, lines);
    FlushInv(known, RunFrom(known, Start, lines));
  }

  // ---------------------------------------------------------------------------------------
  // extract_desc_from_buffer
  // ---------------------------------------------------------------------------------------

  /** `:` or the full-width `：` */
  predicate IsColon(c: char) {
    c == ':' || c == '\U{FF1A}'
  }

  /** `rest` is what follows a colon near the end of `t`: a non-empty suffix of `t`. */
  predicate AfterColon(t: string, rest: string) {
    rest != [] && |rest| < |t| && t[|t| - |rest|..] == rest && IsColon(t[|t| - |rest| - 1])
  }

  /** What follows a colon in a suffix `v` of `t` also follows it in `t`. */
  lemma AfterColonSuffix(t: string, v: string, rest: string)
    requires |v| <= |t| && t[|t| - |v|..] == v && AfterColon(v, rest)
    ensures AfterColon(t, rest)
  {
    assert t[|t| - |rest|..] == v[|v| - |rest|..];
    assert t[|t| - |rest| - 1] == v[|v| - |rest| - 1];
  }

  /**
   * `الوصف\s*\(\s*<tag>\s*\)\s*[:：]\s*(.+)` matched at the start of `t`: the text after
   * the colon, which `\s*(.+)` needs to be non-empty. Each `\s*` before the colon is greedy
   * and the part after it never begins with whitespace, so each is one `lstrip()`; the one
   * after the colon is taken by the strip of the group.
   */
  function DescOn(t: string, tag: string): (r: Option<string>)
    ensures r.Some? ==> AfterColon(t, r.value)
  {
    if |t| < |Description| || t[..|Description|] != Description then None
    else
      var u := TrimStart(t[|Description|..]);
      TrimStartSuffix(t[|Description|..]);
      var r := OpenOn(u, tag);
      if r.Some? then AfterColonSuffix(t, u, r.value); r else r
  }

  /** `\(\s*<tag>\s*\)\s*[:：]\s*(.+)` at the start of `u`. */
  function OpenOn(u: string, tag: string): (r: Option<string>)
    ensures r.Some? ==> AfterColon(u, r.value)
  {
    if u == [] || u[0] != '(' then None
    else
      var v := TrimStart(u[1..]);
      TrimStartSuffix(u[1..]);
      var r := TagOn(v, tag);
      if r.Some? then AfterColonSuffix(u, v, r.value); r else r
  }

  /** `<tag>\s*\)\s*[:：]\s*(.+)` at the start of `u`. */
  function TagOn(u: string, tag: string): (r: Option<string>)
    ensures r.Some? ==> AfterColon(u, r.value)
  {
    if |u| < |tag| || u[..|tag|] != tag then None
    else
      var v := TrimStart(u[|tag|..]);
      TrimStartSuffix(u[|tag|..]);
      var r := CloseOn(v);
      if r.Some? then AfterColonSuffix(u, v, r.value); r else r
  }

  /** `\)\s*[:：]\s*(.+)` at the start of `u`. */
  function CloseOn(u: string): (r: Option<string>)
    ensures r.Some? ==> AfterColon(u, r.value)
  {
    if u == [] || u[0] != ')' then None
    else
      var v := TrimStart(u[1..]);
      TrimStartSuffix(u[1..]);
      var r := ColonOn(v);
      if r.Some? then AfterColonSuffix(u, v, r.value); r else r
  }

  /** `[:：]\s*(.+)` at the start of `u`. */
  function ColonOn(u: string): (r: Option<string>)
    ensures r.Some? ==> AfterColon(u, r.value)
  {
    if |u| < 2 || !IsColon(u[0]) then None else Some(u[1..])
  }

  /** `re.search`: the text after the leftmost match from position `i` on. */
  function FindDesc(s: string, i: nat, tag: string): Option<string>
    requires i <= |s|
    decreases |s| - i
  {
    match DescOn(s[i..], tag)
    case Some(rest) => Some(rest)
    case None => if i == |s| then None else FindDesc(s, i + 1, tag)
  }

  /**
   * `extract_desc_from_buffer`: the stripped text after the first `الوصف (<tag>):`, or the
   * whole text stripped. The group `(.+)` runs to the end of the text and is stripped.
   */
  function ExtractDesc(text: string, tag: string): (r: string)
    ensures Stripped(r)
  {
    match FindDesc(text, 0, tag)
    case Some(rest) => Strip(rest)
    case None => Strip(text)
  }

  /** `\s*` before a part that does not begin with whitespace takes exactly the run of it. */
  lemma {:induction false} TrimStartRun(w: string, y: string)
    requires AllSpace(w) && (y == [] || !IsSpace(y[0]))
    ensures TrimStart(w + y) == y
    decreases |w|
  {
    if w != [] {
      assert (w + y)[1..] == w[1..] + y;
      TrimStartRun(w[1..], y);
    }
  }

  /**
   * The heading, with any whitespace `w1` … `w4` around its parts and either colon, is
   * matched at the start of a text and leaves what follows the colon.
   */
  lemma {:induction false} DescOnHeading(w1: string, w2: string, w3: string, w4: string,
                                         tag: string, c: char, rest: string)
    requires AllSpace(w1) && AllSpace(w2) && AllSpace(w3) && AllSpace(w4)
    requires tag != [] && !IsSpace(tag[0]) && IsColon(c) && rest != []
    ensures DescOn(Description + (w1 + ("(" + (w2 + (tag + (w3 + (")" + (w4 + ([c] + rest)))))))), tag)
            == Some(rest)
  {
    var u4 := [c] + rest;
    assert u4[1..] == rest;
    assert ColonOn(u4) == Some(rest);
    TrimStartRun(w4, u4);
    var u3 := ")" + (w4 + u4);
    assert u3[1..] == w4 + u4;
    assert CloseOn(u3) == Some(rest);
    TrimStartRun(w3, u3);
    var u2 := tag + (w3 + u3);
    assert u2[..|tag|] == tag && u2[|tag|..] == w3 + u3;
    assert TagOn(u2, tag) == Some(rest);
    TrimStartRun(w2, u2);
    var u1 := "(" + (w2 + u2);
    assert u1[1..] == w2 + u2;
    assert OpenOn(u1, tag) == Some(rest);
    TrimStartRun(w1, u1);
    var u0 := Description + (w1 + u1);
    assert u0[..|Description|] == Description && u0[|Description|..] == w1 + u1;
  }

  /** `re.search` stops at the first position where the pattern matches. */
  lemma {:induction false} FindDescFirst(s: string, i: nat, j: nat, tag: string)
    requires i <= j <= |s| && DescOn(s[j..], tag).Some?
    requires forall k :: i <= k < j ==> DescOn(s[k..], tag).None?
    ensures FindDesc(s, i, tag) == DescOn(s[j..], tag)
    decreases j - i
  {
    if i < j {
      FindDescFirst(s, i + 1, j, tag);
    }
  }

  /**
   * The first `الوصف (<tag>):` heading of a text, with any whitespace around its parts and
   * either colon, gives the stripped rest after it.
   */
  lemma ExtractDescAfter(text: string, p: string, w1: string, w2: string, w3: string, w4: string,
                         tag: string, c: char, rest: string)
    requires text == p + Description + w1 + "(" + w2 + tag + w3 + ")" + w4 + [c] + rest
    requires AllSpace(w1) && AllSpace(w2) && AllSpace(w3) && AllSpace(w4)
    requires tag != [] && !IsSpace(tag[0]) && IsColon(c) && rest != []
    requires forall i :: 0 <= i < |p| ==> DescOn(text[i..], tag).None?
    ensures ExtractDesc(text, tag) == Strip(rest)
  {
    var heading := Description + (w1 + ("(" + (w2 + (tag + (w3 + (")" + (w4 + ([c] + rest))))))));
    assert text == p + heading;
    assert text[|p|..] == heading;
    DescOnHeading(w1, w2, w3, w4, tag, c, rest);
    FindDescFirst(text, 0, |p|, tag);
  }

  /** A text that begins with the labelled heading gives the stripped rest. */
  lemma ExtractDescLabelled(tag: string, rest: string)
    requires tag != [] && !IsSpace(tag[0]) && rest != []
    ensures ExtractDesc(Description + "(" + tag + "):" + rest, tag) == Strip(rest)
  {
    var text := Description + "(" + tag + "):" + rest;
    assert text == [] + Description + [] + "(" + [] + tag + [] + ")" + [] + [':'] + rest;
    ExtractDescAfter(text, [], [], [], [], [], tag, ':', rest);
  }

  /** A text without the heading is only stripped. */
  lemma ExtractDescUnlabelled(text: string, tag: string)
    requires forall i :: 0 <= i <= |text| ==> !(Description <= text[i..])
    ensures ExtractDesc(text, tag) == Strip(text)
  {
    FindDescNone(text, 0, tag);
  }

  /** No match is found from `i` on when `الوصف` begins nowhere there. */
  lemma {:induction false} FindDescNone(text: string, i: nat, tag: string)
    requires i <= |text|
    requires forall k :: i <= k <= |text| ==> !(Description <= text[k..])
    ensures FindDesc(text, i, tag) == None
    decreases |text| - i
  {
    assert DescOn(text[i..], tag) == None;
    if i < |text| {
      FindDescNone(text, i + 1, tag);
    }
  }

  // ---------------------------------------------------------------------------------------
  // build_maps
  // ---------------------------------------------------------------------------------------

  /** Every text of `d` passed through `extract_desc_from_buffer`, keys and order kept. */
  function MapDesc(d: Dict<string>, tag: string): (r: Dict<string>)
    ensures Keys(r) == Keys(d)
  {
    seq(|d|, i requires 0 <= i < |d| => (d[i].0, ExtractDesc(d[i].1, tag)))
  }

  lemma MapDescGet(d: Dict<string>, tag: string, k: string)
    ensures Get(MapDesc(d, tag), k) == if Get(d, k).Some? then Some(ExtractDesc(Get(d, k).value, tag)) else None
  {
    FindSameKeys(d, MapDesc(d, tag));
  }

  /** The three texts per title. */
  datatype Maps = Maps(hudud: Dict<string>, nobtha: Dict<string>, mithal: Dict<string>)

  /**
   * `build_maps` on the lines of the three documents (reading them is left out): the blocks
   * of each, the نبذة and مثال texts taken from behind their labelled headings.
   */
  function BuildMaps(titles: seq<string>, hududLines: seq<string>, nobthaLines: seq<string>, mithalLines: seq<string>): (r: Maps)
    ensures r.hudud == ParseBlocks(hududLines, KnownMap(titles))
    ensures Keys(r.nobtha) == Keys(ParseBlocks(nobthaLines, KnownMap(titles)))
    ensures Keys(r.mithal) == Keys(ParseBlocks(mithalLines, KnownMap(titles)))
  {
    var known := KnownMap(titles);
    Maps(ParseBlocks(hududLines, known),
         MapDesc(ParseBlocks(nobthaLines, known), About),
         MapDesc(ParseBlocks(mithalLines, known), Example))
  }

  // ---------------------------------------------------------------------------------------
  // update_public_json
  // ---------------------------------------------------------------------------------------

  /** `bot.get('botTitle', '')` when it is a string; a title of another type matches no key. */
  function TitleOf(bot: Obj): Option<string> {
    var v := Get(bot, "botTitle");
    if v.None? then Some([])
    else if v.value.JStr? then Some(v.value.s)
    else None
  }

  /** `m[title]` when the title is a key with a non-empty text. */
  function NewText(m: Dict<string>, title: Option<string>): (r: Option<string>)
    ensures r.Some? ==> r.value != [] && title.Some? && Get(m, title.value) == r
    ensures r.None? ==> title.None? || Get(m, title.value).None? || Get(m, title.value) == Some([])
  {
    if title.Some? && Get(m, title.value).Some? && Get(m, title.value).value != [] then Get(m, title.value)
    else None
  }

  function SetText(bot: Obj, field: string, text: Option<string>): Obj {
    match text
    case Some(v) => Put(bot, field, JStr(v))
    case None => bot
  }

  /** The bot with its three fields overwritten where the maps have a text for its title. */
  function UpdateBot(bot: Obj, maps: Maps): Obj {
    var t := TitleOf(bot);
    SetText(SetText(SetText(bot, About, NewText(maps.nobtha, t)), Limits, NewText(maps.hudud, t)), Example, NewText(maps.mithal, t))
  }

  /** How many of the three fields of the bot are overwritten. */
  function BotUpdates(bot: Obj, maps: Maps): (n: nat)
    ensures n <= 3
  {
    var t := TitleOf(bot);
    (if NewText(maps.nobtha, t).Some? then 1 else 0)
    + (if NewText(maps.hudud, t).Some? then 1 else 0)
    + (if NewText(maps.mithal, t).Some? then 1 else 0)
  }

  /** A field is overwritten exactly when its map has a non-empty text for the title; nothing else changes. */
  lemma UpdateBotFields(bot: Obj, maps: Maps)
    ensures var r := UpdateBot(bot, maps); var t := TitleOf(bot);
      && Get(r, About) == (if NewText(maps.nobtha, t).Some? then Some(JStr(NewText(maps.nobtha, t).value)) else Get(bot, About))
      && Get(r, Limits) == (if NewText(maps.hudud, t).Some? then Some(JStr(NewText(maps.hudud, t).value)) else Get(bot, Limits))
      && Get(r, Example) == (if NewText(maps.mithal, t).Some? then Some(JStr(NewText(maps.mithal, t).value)) else Get(bot, Example))
      && (forall k :: k != About && k != Limits && k != Example ==> Get(r, k) == Get(bot, k))
  {
    assert About != Limits && About != Example && Limits != Example by {
      assert About[0] != Limits[0] && About[0] != Example[0] && Limits[0] != Example[0];
    }
  }

  /** The bots of a category after the update: each one updated, in place. */
  function UpdatedBots(bots: seq<Obj>, maps: Maps): (r: seq<Obj>)
    ensures |r| == |bots|
    ensures forall i :: 0 <= i < |bots| ==> r[i] == UpdateBot(bots[i], maps)
    decreases |bots|
  {
    if bots == [] then []
    else UpdatedBots(bots[..|bots| - 1], maps) + [UpdateBot(bots[|bots| - 1], maps)]
  }

  /** The categories after the update: names kept, bots updated. */
  function UpdatedCategories(cats: seq<Category>, maps: Maps): (r: seq<Category>)
    ensures |r| == |cats|
    ensures forall i :: 0 <= i < |cats| ==> r[i].category == cats[i].category && r[i].bots == UpdatedBots(cats[i].bots, maps)
    decreases |cats|
  {
    if cats == [] then []
    else
      var c := cats[|cats| - 1];
      UpdatedCategories(cats[..|cats| - 1], maps) + [Category(c.category, UpdatedBots(c.bots, maps))]
  }

  /** The catalog after `update_public_json`: every bot updated, nothing else touched. */
  function UpdatedCatalog(catalog: Catalog, maps: Maps): (r: Catalog)
    ensures |r| == |catalog|
    ensures forall i :: 0 <= i < |catalog| ==>
      && r[i].package == catalog[i].package && r[i].packageId == catalog[i].packageId
      && r[i].categories == UpdatedCategories(catalog[i].categories, maps)
    decreases |catalog|
  {
    if catalog == [] then []
    else
      var p := catalog[|catalog| - 1];
      UpdatedCatalog(catalog[..|catalog| - 1], maps) + [Package(p.package, p.packageId, UpdatedCategories(p.categories, maps))]
  }

  function BotsUpdates(bots: seq<Obj>, maps: Maps): nat
    decreases |bots|
  {
    if bots == [] then 0 else BotsUpdates(bots[..|bots| - 1], maps) + BotUpdates(bots[|bots| - 1], maps)
  }

  function CategoriesUpdates(cats: seq<Category>, maps: Maps): nat
    decreases |cats|
  {
    if cats == [] then 0 else CategoriesUpdates(cats[..|cats| - 1], maps) + BotsUpdates(cats[|cats| - 1].bots, maps)
  }

  /** The count `update_public_json` returns: one per field overwritten. */
  function CatalogUpdates(catalog: Catalog, maps: Maps): nat
    decreases |catalog|
  {
    if catalog == [] then 0
    else CatalogUpdates(catalog[..|catalog| - 1], maps) + CategoriesUpdates(catalog[|catalog| - 1].categories, maps)
  }

  lemma UpdatedBotsStep(bots: seq<Obj>, i: nat, maps: Maps)
    requires i < |bots|
    ensures UpdatedBots(bots[..i + 1], maps) == UpdatedBots(bots[..i], maps) + [UpdateBot(bots[i], maps)]
    ensures BotsUpdates(bots[..i + 1], maps) == BotsUpdates(bots[..i], maps) + BotUpdates(bots[i], maps)
  {
    assert bots[..i + 1][..i] == bots[..i];
  }

  lemma UpdatedCategoriesStep(cats: seq<Category>, i: nat, maps: Maps)
    requires i < |cats|
    ensures UpdatedCategories(cats[..i + 1], maps)
         == UpdatedCategories(cats[..i], maps) + [Category(cats[i].category, UpdatedBots(cats[i].bots, maps))]
    ensures CategoriesUpdates(cats[..i + 1], maps) == CategoriesUpdates(cats[..i], maps) + BotsUpdates(cats[i].bots, maps)
  {
    assert cats[..i + 1][..i] == cats[..i];
  }

  lemma UpdatedCatalogStep(catalog: Catalog, i: nat, maps: Maps)
    requires i < |catalog|
    ensures UpdatedCatalog(catalog[..i + 1], maps)
         == UpdatedCatalog(catalog[..i], maps)
            + [Package(catalog[i].package, catalog[i].packageId, UpdatedCategories(catalog[i].categories, maps))]
    ensures CatalogUpdates(catalog[..i + 1], maps) == CatalogUpdates(catalog[..i], maps) + CategoriesUpdates(catalog[i].categories, maps)
  {
    assert catalog[..i + 1][..i] == catalog[..i];
  }

  method UpdateBots(bots: seq<Obj>, maps: Maps) returns (r: seq<Obj>, n: nat)
    ensures r == UpdatedBots(bots, maps) && n == BotsUpdates(bots, maps)
  {
    r := [];
    n := 0;
    var i := 0;
    while i < |bots|
      invariant 0 <= i <= |bots|
      invariant r == UpdatedBots(bots[..i], maps)
      invariant n == BotsUpdates(bots[..i], maps)
    {
      UpdatedBotsStep(bots, i, maps);
      r := r + [UpdateBot(bots[i], maps)];
      n := n + BotUpdates(bots[i], maps);
      i := i + 1;
    }
    assert bots[..i] == bots;
  }

  method UpdateCategories(cats: seq<Category>, maps: Maps) returns (r: seq<Category>, n: nat)
    ensures r == UpdatedCategories(cats, maps) && n == CategoriesUpdates(cats, maps)
  {
    r := [];
    n := 0;
    var i := 0;
    while i < |cats|
      invariant 0 <= i <= |cats|
      invariant r == UpdatedCategories(cats[..i], maps)
      invariant n == CategoriesUpdates(cats[..i], maps)
    {
      UpdatedCategoriesStep(cats, i, maps);
      var bots, k := UpdateBots(cats[i].bots, maps);
      r := r + [Category(cats[i].category, bots)];
      n := n + k;
      i := i + 1;
    }
    assert cats[..i] == cats;
  }

  /** `update_public_json`: the updated catalog and the number of fields overwritten. */
  method UpdatePublicJson(catalog: Catalog, maps: Maps) returns (r: Catalog, updated: nat)
    ensures r == UpdatedCatalog(catalog, maps) && updated == CatalogUpdates(catalog, maps)
  {
    r := [];
    updated := 0;
    var i := 0;
    while i < |catalog|
      invariant 0 <= i <= |catalog|
      invariant r == UpdatedCatalog(catalog[..i], maps)
      invariant updated == CatalogUpdates(catalog[..i], maps)
    {
      UpdatedCatalogStep(catalog, i, maps);
      var cats, k := UpdateCategories(catalog[i].categories, maps);
      r := r + [Package(catalog[i].package, catalog[i].packageId, cats)];
      updated := updated + k;
      i := i + 1;
    }
    assert catalog[..i] == catalog;
  }

  /** The update keeps every package, category and bot where it was: the bot count is unchanged. */
  lemma {:induction false} UpdatedCatalogCount(catalog: Catalog, maps: Maps)
    ensures CatalogBotCount(UpdatedCatalog(catalog, maps)) == CatalogBotCount(catalog)
    decreases |catalog|
  {
    if catalog != [] {
      var n := |catalog| - 1;
      var u := UpdatedCatalog(catalog, maps);
      assert u[..n] == UpdatedCatalog(catalog[..n], maps);
      UpdatedCatalogCount(catalog[..n], maps);
      UpdatedCategoriesCount(catalog[n].categories, maps);
    }
  }

  lemma {:induction false} UpdatedCategoriesCount(cats: seq<Category>, maps: Maps)
    ensures CategoriesBotCount(UpdatedCategories(cats, maps)) == CategoriesBotCount(cats)
    decreases |cats|
  {
    if cats != [] {
      var n := |cats| - 1;
      var u := UpdatedCategories(cats, maps);
      assert u[..n] == UpdatedCategories(cats[..n], maps);
      UpdatedCategoriesCount(cats[..n], maps);
    }
  }

  /** At most the three fields of every bot are overwritten. */
  lemma {:induction false} CatalogUpdatesBound(catalog: Catalog, maps: Maps)
    ensures CatalogUpdates(catalog, maps) <= 3 * CatalogBotCount(catalog)
    decreases |catalog|
  {
    if catalog != [] {
      var n := |catalog| - 1;
      CatalogUpdatesBound(catalog[..n], maps);
      CategoriesUpdatesBound(catalog[n].categories, maps);
    }
  }

  lemma {:induction false} CategoriesUpdatesBound(cats: seq<Category>, maps: Maps)
    ensures CategoriesUpdates(cats, maps) <= 3 * CategoriesBotCount(cats)
    decreases |cats|
  {
    if cats != [] {
      var n := |cats| - 1;
      CategoriesUpdatesBound(cats[..n], maps);
      BotsUpdatesBound(cats[n].bots, maps);
    }
  }

  lemma {:induction false} BotsUpdatesBound(bots: seq<Obj>, maps: Maps)
    ensures BotsUpdates(bots, maps) <= 3 * |bots|
    decreases |bots|
  {
    if bots != [] {
      BotsUpdatesBound(bots[..|bots| - 1], maps);
    }
  }

  /** With no texts to bring, no bot changes and the count is zero. */
  lemma NothingToBring(bot: Obj)
    ensures UpdateBot(bot, Maps([], [], [])) == bot && BotUpdates(bot, Maps([], [], [])) == 0
  {
  }
}
