/**
 * pytoncode/extract_content.py: the nested dict that word_to_json_with_explanation.py builds
 * (main title to sub-title to items) written back out as marker lines, joined by newlines.
 */
module ExtractContent {
  import opened Options
  import opened Text
  import opened Dict
  import opened Labels
  import opened WordToJson

  /** `f"العنوان الرئيسي: {main_title}"` */
  function MainHeading(name: string): string {
    MainTitleWord + ": " + name
  }

  /** A heading written for a clean name is read back as that name by the parser's main-title reader. */
  lemma MainHeadingRead(name: string)
    requires Stripped(name) && (name == [] || (name[0] !in "'\"" && name[|name| - 1] !in "'\""))
    requires !Contains(" " + name, MainTitleWord + ":")
    ensures MainTitleName(MainHeading(name)) == name
  {
    assert MainHeading(name) == MainTitleWord + ":" + (" " + name);
    HeadingReadBack(MainTitleWord + ":", name);
    TrimCharKeeps(name, '\'');
    TrimCharKeeps(name, '"');
  }

  /** A marker, then a name behind one space that holds no marker: removing the markers and stripping leaves the name. */
  lemma HeadingReadBack(pat: string, name: string)
    requires pat != [] && Stripped(name) && !Contains(" " + name, pat)
    ensures Strip(ReplaceAll(pat + (" " + name), pat, "")) == name
  {
    var rest := " " + name;
    ReplaceLeading(pat, rest, "");
    ReplaceNone(rest, pat, "");
    assert AllSpace(" ") by {
      assert IsSpace(' ');
    }
    StripAfterSpaces(" ", name);
  }

  /** `f"العنوان الفرعي: {sub_title}"` */
  function SubHeading(name: string): string {
    SubTitleWord + ": " + name
  }

  /** A sub-heading written for a stripped name is read back as that text by the parser's sub-title reader. */
  lemma SubHeadingRead(name: string)
    requires Stripped(name)
    requires !Contains(" " + name, SubTitleWord + ":")
    ensures SubTitleText(SubHeading(name)) == name
  {
    assert SubHeading(name) == SubTitleWord + ":" + (" " + name);
    HeadingReadBack(SubTitleWord + ":", name);
  }

  /**
   * The characters `str.isprintable` rejects that the model knows of: the C0 and C1 controls,
   * DEL, the no-break and other spaces, and the format characters of the Latin-1, Arabic and
   * General Punctuation blocks (the directional marks among them) and the byte-order mark.
   */
  predicate Unprintable(c: char) {
    || c < ' '
    || ('\U{7F}' <= c <= '\U{A0}')
    || c == '\U{AD}'
    || ('\U{600}' <= c <= '\U{605}')
    || c == '\U{61C}'
    || c == '\U{6DD}'
    || c == '\U{1680}'
    || ('\U{2000}' <= c <= '\U{200F}')
    || ('\U{2028}' <= c <= '\U{202F}')
    || ('\U{205F}' <= c <= '\U{206F}')
    || c == '\U{3000}'
    || c == '\U{FEFF}'
  }

  /** `n` in `width` lower-case hexadecimal digits. */
  function Hex(n: nat, width: nat): (r: string)
    ensures |r| == width
    ensures forall i :: 0 <= i < |r| ==> '0' <= r[i] <= 'f'
    decreases width
  {
    if width == 0 then [] else Hex(n / 16, width - 1) + [HexDigit(n % 16)]
  }

  /** One lower-case hexadecimal digit. */
  function HexDigit(d: nat): (r: char)
    requires d < 16
    ensures '0' <= r <= 'f'
  {
    if d < 10 then ('0' as int + d) as char else ('a' as int + d - 10) as char
  }

  /** The quote `repr` puts around a text: `"` when it holds `'` and no `"`, otherwise `'`. */
  function QuoteOf(s: string): char {
    if '\'' in s && '"' !in s then '"' else '\''
  }

  /** One character as `repr` writes it between quotes `q`. */
  function EscapeChar(c: char, q: char): (r: string)
    requires q == '\'' || q == '"'
    ensures r != []
    ensures forall i :: 0 <= i < |r| ==> !Unprintable(r[i])
  {
    if c == q || c == '\\' then ['\\', c]
    else if c == '\t' then "\\t"
    else if c == '\n' then "\\n"
    else if c == '\r' then "\\r"
    else if Unprintable(c) then
      if (c as int) < 0x100 then "\\x" + Hex(c as int, 2) else "\\u" + Hex(c as int, 4)
    else [c]
  }

  /** The characters of a text as `repr` writes them between quotes `q`. */
  function Escaped(s: string, q: char): (r: string)
    requires q == '\'' || q == '"'
    ensures |s| <= |r|
    ensures forall i :: 0 <= i < |r| ==> !Unprintable(r[i])
    decreases |s|
  {
    if s == [] then [] else EscapeChar(s[0], q) + Escaped(s[1..], q)
  }

  /** Characters that are neither the quote, a backslash nor unprintable are written as they are. */
  lemma {:induction false} EscapedPlain(s: string, q: char)
    requires q == '\'' || q == '"'
    requires q !in s && '\\' !in s
    requires forall i :: 0 <= i < |s| ==> !Unprintable(s[i])
    ensures Escaped(s, q) == s
    decreases |s|
  {
    if s != [] {
      assert s[0] != q && s[0] != '\\' && !Unprintable(s[0]);
      assert forall x :: x in s[1..] ==> x in s;
      EscapedPlain(s[1..], q);
    }
  }

  /** `repr(s)`: the text between the quotes `QuoteOf` picks, escaped; the result is printable. */
  function Quoted(s: string): (r: string)
    ensures |s| + 2 <= |r|
    ensures r[0] == QuoteOf(s) && r[|r| - 1] == QuoteOf(s)
    ensures forall i :: 0 <= i < |r| ==> !Unprintable(r[i])
  {
    [QuoteOf(s)] + Escaped(s, QuoteOf(s)) + [QuoteOf(s)]
  }

  /**
   * A text with no backslash, nothing unprintable and not both kinds of quote is written as it is:
   * between `'`, or between `"` when it holds a `'`.
   */
  lemma QuotedVerbatim(s: string)
    requires '\\' !in s && !('\'' in s && '"' in s)
    requires forall i :: 0 <= i < |s| ==> !Unprintable(s[i])
    ensures '\'' !in s ==> Quoted(s) == "'" + s + "'"
    ensures '\'' in s ==> Quoted(s) == "\"" + s + "\""
  {
    EscapedPlain(s, QuoteOf(s));
  }

  /** The right-to-left mark that Word puts in Arabic text is printed as an escape. */
  lemma QuotedMark()
    ensures Quoted("\U{200F}") == "'\\u200f'"
  {
    assert HexDigit(2) == '2' && HexDigit(0) == '0' && HexDigit(15) == 'f';
    assert Hex(0x2, 1) == "2";
    assert Hex(0x20, 2) == "20";
    assert Hex(0x200, 3) == "200";
    assert Hex(0x200F, 4) == "200f";
    assert Unprintable('\U{200F}');
    assert EscapeChar('\U{200F}', '\'') == "\\u200f";
    assert Escaped("\U{200F}", '\'') == "\\u200f";
  }

  /** `str(value)` in an f-string: a text as it is, a list of links as Python prints a list of strings. */
  function Display(v: Detail): string {
    match v
    case TextValue(t) => t
    case LinkList(ls) => "[" + Join(", ", seq(|ls|, i requires 0 <= i < |ls| => Quoted(ls[i]))) + "]"
  }

  /** `if detail_value:` an empty text or an empty list is false. */
  predicate Truthy(v: Detail) {
    match v
    case TextValue(t) => t != []
    case LinkList(ls) => ls != []
  }

  /** `for link in detail_value`: the links of a list, the characters of a text. */
  function Elements(v: Detail): (r: seq<string>)
    ensures |r| == match v case TextValue(t) => |t| case LinkList(ls) => |ls|
  {
    match v
    case TextValue(t) => seq(|t|, i requires 0 <= i < |t| => [t[i]])
    case LinkList(ls) => ls
  }

  /**
   * The lines of one detail: a non-empty روابط value as `@روابط:` and one line per element;
   * any other truthy value as `@<key>: <value>` (the `نموذج` branch writes the same line).
   */
  function DetailLines(key: string, v: Detail): seq<string> {
    if key == Links then (if Truthy(v) then ["@" + key + ":"] + Elements(v) else [])
    else if Truthy(v) then ["@" + key + ": " + Display(v)]
    else []
  }

  function DetailsLines(details: Dict<Detail>): seq<string>
    decreases |details|
  {
    if details == [] then []
    else
      var last := details[|details| - 1];
      DetailsLines(details[..|details| - 1]) + DetailLines(last.0, last.1)
  }

  /** `#<title>`, the details, and the rule. */
  function ItemLines(it: Item): seq<string> {
    ["#" + it.title] + DetailsLines(it.details) + [Rule]
  }

  function ItemsLines(items: seq<Item>): seq<string>
    decreases |items|
  {
    if items == [] then [] else ItemsLines(items[..|items| - 1]) + ItemLines(items[|items| - 1])
  }

  /** The sub-title heading and its items. */
  function SubLines(name: string, items: seq<Item>): seq<string> {
    [SubHeading(name)] + ItemsLines(items)
  }

  function SubsLines(subs: Dict<seq<Item>>): seq<string>
    decreases |subs|
  {
    if subs == [] then [] else SubsLines(subs[..|subs| - 1]) + SubLines(subs[|subs| - 1].0, subs[|subs| - 1].1)
  }

  /** The main-title heading, its sub-titles, and the rule that closes the main title. */
  function MainLines(name: string, subs: Dict<seq<Item>>): seq<string> {
    [MainHeading(name)] + SubsLines(subs) + [Rule]
  }

  /** `output_lines` after the loops. */
  function Lines(data: Data): seq<string>
    decreases |data|
  {
    if data == [] then [] else Lines(data[..|data| - 1]) + MainLines(data[|data| - 1].0, data[|data| - 1].1)
  }

  /** `extract_and_print_content` on data already loaded. */
  function Output(data: Data): string {
    Join("\n", Lines(data))
  }

  // ---------------------------------------------------------------------------------------
  // The loops
  // ---------------------------------------------------------------------------------------

  lemma Assoc(a: seq<string>, b: seq<string>, c: seq<string>)
    ensures (a + b) + c == a + (b + c)
  {
  }

  method AppendDetail(out: seq<string>, key: string, v: Detail) returns (r: seq<string>)
    ensures r == out + DetailLines(key, v)
  {
    r := out;
    if key == Links {
      if Truthy(v) {
        r := r + ["@" + key + ":"];
        var xs := Elements(v);
        var i := 0;
        while i < |xs|
          invariant 0 <= i <= |xs|
          invariant r == out + ["@" + key + ":"] + xs[..i]
        {
          assert xs[..i + 1] == xs[..i] + [xs[i]];
          r := r + [xs[i]];
          i := i + 1;
        }
        assert xs[..i] == xs;
      }
    } else if Truthy(v) {
      r := r + ["@" + key + ": " + Display(v)];
    }
  }

  lemma DetailsLinesStep(details: Dict<Detail>, j: nat)
    requires j < |details|
    ensures DetailsLines(details[..j + 1]) == DetailsLines(details[..j]) + DetailLines(details[j].0, details[j].1)
  {
    assert details[..j + 1][..j] == details[..j];
  }

  method AppendItem(out: seq<string>, it: Item) returns (r: seq<string>)
    ensures r == out + ItemLines(it)
  {
    r := out + ["#" + it.title];
    var j := 0;
    while j < |it.details|
      invariant 0 <= j <= |it.details|
      invariant r == out + ["#" + it.title] + DetailsLines(it.details[..j])
    {
      DetailsLinesStep(it.details, j);
      Assoc(out + ["#" + it.title], DetailsLines(it.details[..j]), DetailLines(it.details[j].0, it.details[j].1));
      r := AppendDetail(r, it.details[j].0, it.details[j].1);
      j := j + 1;
    }
    assert it.details[..j] == it.details;
    Assoc(out + ["#" + it.title], DetailsLines(it.details), [Rule]);
    Assoc(out, ["#" + it.title], DetailsLines(it.details));
    Assoc(out, ["#" + it.title] + DetailsLines(it.details), [Rule]);
    r := r + [Rule];
  }

  lemma ItemsLinesStep(items: seq<Item>, k: nat)
    requires k < |items|
    ensures ItemsLines(items[..k + 1]) == ItemsLines(items[..k]) + ItemLines(items[k])
  {
    assert items[..k + 1][..k] == items[..k];
  }

  method AppendSub(out: seq<string>, name: string, items: seq<Item>) returns (r: seq<string>)
    ensures r == out + SubLines(name, items)
  {
    r := out + [SubHeading(name)];
    var k := 0;
    while k < |items|
      invariant 0 <= k <= |items|
      invariant r == out + [SubHeading(name)] + ItemsLines(items[..k])
    {
      ItemsLinesStep(items, k);
      Assoc(out + [SubHeading(name)], ItemsLines(items[..k]), ItemLines(items[k]));
      r := AppendItem(r, items[k]);
      k := k + 1;
    }
    assert items[..k] == items;
    Assoc(out, [SubHeading(name)], ItemsLines(items));
  }

  lemma SubsLinesStep(subs: Dict<seq<Item>>, j: nat)
    requires j < |subs|
    ensures SubsLines(subs[..j + 1]) == SubsLines(subs[..j]) + SubLines(subs[j].0, subs[j].1)
  {
    assert subs[..j + 1][..j] == subs[..j];
  }

  lemma LinesStep(data: Data, i: nat)
    requires i < |data|
    ensures Lines(data[..i + 1]) == Lines(data[..i]) + MainLines(data[i].0, data[i].1)
  {
    assert data[..i + 1][..i] == data[..i];
  }

  /** `extract_and_print_content`: the nested loops fill the lines in order, then they are joined. */
  method ExtractAndPrintContent(data: Data) returns (text: string)
    ensures text == Output(data)
  {
    var out: seq<string> := [];
    var i := 0;
    while i < |data|
      invariant 0 <= i <= |data|
      invariant out == Lines(data[..i])
    {
      LinesStep(data, i);
      var subs := data[i].1;
      var before := out;
      out := out + [MainHeading(data[i].0)];
      var j := 0;
      while j < |subs|
        invariant 0 <= j <= |subs|
        invariant out == before + [MainHeading(data[i].0)] + SubsLines(subs[..j])
      {
        SubsLinesStep(subs, j);
        Assoc(before + [MainHeading(data[i].0)], SubsLines(subs[..j]), SubLines(subs[j].0, subs[j].1));
        out := AppendSub(out, subs[j].0, subs[j].1);
        j := j + 1;
      }
      assert subs[..j] == subs;
      Assoc(before + [MainHeading(data[i].0)], SubsLines(subs), [Rule]);
      Assoc(before, [MainHeading(data[i].0)], SubsLines(subs));
      Assoc(before, [MainHeading(data[i].0)] + SubsLines(subs), [Rule]);
      out := out + [Rule];
      i := i + 1;
    }
    assert data[..i] == data;
    text := Join("\n", out);
  }

  // ---------------------------------------------------------------------------------------
  // How many lines: an independent count
  // ---------------------------------------------------------------------------------------

  /** How many lines a detail gives: `1 + len` for a truthy روابط value, 1 for another truthy value, else 0. */
  function DetailLineCount(key: string, v: Detail): nat {
    if !Truthy(v) then 0
    else if key == Links then 1 + |Elements(v)|
    else 1
  }

  function DetailsLineCount(details: Dict<Detail>): nat
    decreases |details|
  {
    if details == [] then 0
    else DetailsLineCount(details[..|details| - 1]) + DetailLineCount(details[|details| - 1].0, details[|details| - 1].1)
  }

  /** An item: its title line, its detail lines and the rule. */
  function ItemLineCount(it: Item): nat {
    2 + DetailsLineCount(it.details)
  }

  function ItemsLineCount(items: seq<Item>): nat
    decreases |items|
  {
    if items == [] then 0 else ItemsLineCount(items[..|items| - 1]) + ItemLineCount(items[|items| - 1])
  }

  /** A sub-title: its heading and its items. */
  function SubLineCount(items: seq<Item>): nat {
    1 + ItemsLineCount(items)
  }

  /** A main title: its heading, its sub-titles and the closing rule. */
  function MainLineCount(subs: Dict<seq<Item>>): nat {
    2 + SumBy(subs, SubLineCount)
  }

  /** The number of lines: per main title 1, per sub-title 1 plus its items, each 2 plus its details, then 1. */
  function LineCount(data: Data): nat {
    SumBy(data, MainLineCount)
  }

  lemma DetailLinesCount(key: string, v: Detail)
    ensures |DetailLines(key, v)| == DetailLineCount(key, v)
  {
  }

  lemma {:induction false} DetailsLinesCount(details: Dict<Detail>)
    ensures |DetailsLines(details)| == DetailsLineCount(details)
    decreases |details|
  {
    if details != [] {
      var n := |details| - 1;
      DetailsLinesCount(details[..n]);
      DetailLinesCount(details[n].0, details[n].1);
    }
  }

  lemma {:induction false} ItemsLinesCount(items: seq<Item>)
    ensures |ItemsLines(items)| == ItemsLineCount(items)
    decreases |items|
  {
    if items != [] {
      var n := |items| - 1;
      ItemsLinesCount(items[..n]);
      DetailsLinesCount(items[n].details);
    }
  }

  lemma {:induction false} SubsLinesCount(subs: Dict<seq<Item>>)
    ensures |SubsLines(subs)| == SumBy(subs, SubLineCount)
    decreases |subs|
  {
    if subs != [] {
      var n := |subs| - 1;
      SubsLinesCount(subs[..n]);
      ItemsLinesCount(subs[n].1);
    }
  }

  /** The output has exactly the lines the count gives. */
  lemma {:induction false} LinesCount(data: Data)
    ensures |Lines(data)| == LineCount(data)
    decreases |data|
  {
    if data != [] {
      var n := |data| - 1;
      LinesCount(data[..n]);
      SubsLinesCount(data[n].1);
    }
  }

  // ---------------------------------------------------------------------------------------
  // The rule lines
  // ---------------------------------------------------------------------------------------

  /** How many of the lines are the rule. */
  function RuleCount(lines: seq<string>): nat
    decreases |lines|
  {
    if lines == [] then 0 else RuleCount(lines[..|lines| - 1]) + (if lines[|lines| - 1] == Rule then 1 else 0)
  }

  lemma {:induction false} RuleCountAppend(a: seq<string>, b: seq<string>)
    ensures RuleCount(a + b) == RuleCount(a) + RuleCount(b)
    decreases |b|
  {
    if b == [] {
      assert a + b == a;
    } else {
      var n := |b| - 1;
      assert (a + b)[..|a + b| - 1] == a + b[..n];
      RuleCountAppend(a, b[..n]);
    }
  }

  /** No link of a روابط list is itself the rule. */
  predicate DetailsRuleFree(details: Dict<Detail>) {
    forall j :: 0 <= j < |details| && details[j].0 == Links && details[j].1.LinkList? ==> Rule !in details[j].1.links
  }

  predicate ItemsRuleFree(items: seq<Item>) {
    forall k :: 0 <= k < |items| ==> DetailsRuleFree(items[k].details)
  }

  predicate SubsRuleFree(subs: Dict<seq<Item>>) {
    forall j :: 0 <= j < |subs| ==> ItemsRuleFree(subs[j].1)
  }

  predicate DataRuleFree(data: Data) {
    forall i :: 0 <= i < |data| ==> SubsRuleFree(data[i].1)
  }

  lemma {:induction false} RuleCountNone(lines: seq<string>)
    requires Rule !in lines
    ensures RuleCount(lines) == 0
    decreases |lines|
  {
    if lines != [] {
      assert Rule !in lines[..|lines| - 1] by {
        assert forall x :: x in lines[..|lines| - 1] ==> x in lines;
      }
      RuleCountNone(lines[..|lines| - 1]);
    }
  }

  /** A detail line is never the rule, unless it is a link that is. */
  lemma DetailLinesRules(key: string, v: Detail)
    requires key == Links && v.LinkList? ==> Rule !in v.links
    ensures RuleCount(DetailLines(key, v)) == 0
  {
    var r := DetailLines(key, v);
    forall i | 0 <= i < |r| ensures r[i] != Rule {
      if i == 0 {
        assert r[0][0] == '@' && Rule[0] == '_';
      } else {
        assert r[i] == Elements(v)[i - 1];
        if v.TextValue? {
          assert |r[i]| == 1 && |Rule| == 40;
        } else {
          assert r[i] in v.links;
        }
      }
    }
    RuleCountNone(r);
  }

  lemma {:induction false} DetailsLinesRules(details: Dict<Detail>)
    requires DetailsRuleFree(details)
    ensures RuleCount(DetailsLines(details)) == 0
    decreases |details|
  {
    if details != [] {
      var n := |details| - 1;
      DetailsLinesRules(details[..n]);
      DetailLinesRules(details[n].0, details[n].1);
      RuleCountAppend(DetailsLines(details[..n]), DetailLines(details[n].0, details[n].1));
    }
  }

  lemma {:induction false} ItemsLinesRules(items: seq<Item>)
    requires ItemsRuleFree(items)
    ensures RuleCount(ItemsLines(items)) == |items|
    decreases |items|
  {
    if items != [] {
      var n := |items| - 1;
      var it := items[n];
      ItemsLinesRules(items[..n]);
      DetailsLinesRules(it.details);
      assert "#" + it.title != Rule by {
        assert ("#" + it.title)[0] == '#' && Rule[0] == '_';
      }
      RuleCountAppend(["#" + it.title], DetailsLines(it.details));
      RuleCountAppend(["#" + it.title] + DetailsLines(it.details), [Rule]);
      RuleCountAppend(ItemsLines(items[..n]), ItemLines(it));
    }
  }

  /** The number of items under the sub-titles. */
  function ItemsLength(items: seq<Item>): nat {
    |items|
  }

  lemma {:induction false} SubsLinesRules(subs: Dict<seq<Item>>)
    requires SubsRuleFree(subs)
    ensures RuleCount(SubsLines(subs)) == SumBy(subs, ItemsLength)
    decreases |subs|
  {
    if subs != [] {
      var n := |subs| - 1;
      SubsLinesRules(subs[..n]);
      ItemsLinesRules(subs[n].1);
      assert SubHeading(subs[n].0) != Rule by {
        assert SubHeading(subs[n].0)[0] == SubTitleWord[0] != Rule[0];
      }
      RuleCountAppend([SubHeading(subs[n].0)], ItemsLines(subs[n].1));
      RuleCountAppend(SubsLines(subs[..n]), SubLines(subs[n].0, subs[n].1));
    }
  }

  /** The items of a main title. */
  function SubsItems(subs: Dict<seq<Item>>): nat {
    SumBy(subs, ItemsLength)
  }

  /**
   * The rule comes once after every item and once after every main title, and nowhere else
   * when no link is the rule itself.
   */
  lemma {:induction false} LinesRules(data: Data)
    requires DataRuleFree(data)
    ensures RuleCount(Lines(data)) == SumBy(data, SubsItems) + |data|
    decreases |data|
  {
    if data != [] {
      var n := |data| - 1;
      LinesRules(data[..n]);
      SubsLinesRules(data[n].1);
      assert MainHeading(data[n].0) != Rule by {
        assert MainHeading(data[n].0)[0] == MainTitleWord[0] != Rule[0];
      }
      RuleCountAppend([MainHeading(data[n].0)], SubsLines(data[n].1));
      RuleCountAppend([MainHeading(data[n].0)] + SubsLines(data[n].1), [Rule]);
      RuleCountAppend(Lines(data[..n]), MainLines(data[n].0, data[n].1));
    }
  }

  // ---------------------------------------------------------------------------------------
  // The text
  // ---------------------------------------------------------------------------------------

  lemma {:induction false} LinesFirst(data: Data)
    requires data != []
    ensures Lines(data) != [] && Lines(data)[0] == MainHeading(data[0].0)
    decreases |data|
  {
    if |data| > 1 {
      LinesFirst(data[..|data| - 1]);
    }
  }

  /** The text is empty exactly when there is no main title, and otherwise opens with the first heading. */
  lemma OutputShape(data: Data)
    ensures Output(data) == [] <==> data == []
    ensures data != [] ==> MainHeading(data[0].0) <= Output(data)
  {
    if data != [] {
      LinesFirst(data);
      JoinStartsWithFirst("\n", Lines(data));
      assert |MainHeading(data[0].0)| > 0;
    }
  }
}
