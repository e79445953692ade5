/**
 * `extract_content_from_docx` of pytoncode/word_to_json_with_explanation.py: the paragraphs
 * of the document become nested dictionaries, main title to sub-title to a list of items,
 * each item a title and a dictionary of details. The `@` line of a detail and the lines
 * after it are buffered and written into the current item by `save_current_detail` when
 * the next marker or separator comes, or at the end.
 */
module WordToJson {
  import opened Options
  import opened Text
  import opened Dict
  import opened Labels

  /** `val.strip().strip("'").strip('"')` */
  function CleanValue(val: string): (r: string)
    ensures |r| <= |val|
    ensures r == [] || (r[0] != '"' && r[|r| - 1] != '"')
  {
    TrimChar(TrimChar(Strip(val), '\''), '"')
  }

  /** A value with no whitespace and no quote at either end is already clean. */
  lemma CleanValueKeeps(val: string)
    requires Stripped(val) && (val == [] || (val[0] !in "'\"" && val[|val| - 1] !in "'\""))
    ensures CleanValue(val) == val
  {
    StripStripped(val);
    TrimCharKeeps(val, '\'');
    TrimCharKeeps(val, '"');
  }

  lemma TrimCharKeeps(s: string, c: char)
    requires s == [] || (s[0] != c && s[|s| - 1] != c)
    ensures TrimChar(s, c) == s
  {
    assert TrimCharStart(s, c) == s;
  }

  // ---------------------------------------------------------------------------------------
  // The data
  // ---------------------------------------------------------------------------------------

  /** A detail holds a text, or for روابط the list of links. */
  datatype Detail = TextValue(text: string) | LinkList(links: seq<string>)

  datatype Item = Item(title: string, details: Dict<Detail>)

  /** Main title to sub-title to items, every dictionary in insertion order. */
  type Data = Dict<Dict<seq<Item>>>

  /** A new item: empty نبذة, حدود and مثال and no links, in that order. */
  function NewItem(title: string): (it: Item)
    ensures it.title == title
    ensures Keys(it.details) == [About, Limits, Example, Links]
    ensures Get(it.details, About) == Some(TextValue([])) && Get(it.details, Limits) == Some(TextValue([]))
    ensures Get(it.details, Example) == Some(TextValue([])) && Get(it.details, Links) == Some(LinkList([]))
  {
    var details: Dict<Detail> := [(About, TextValue([])), (Limits, TextValue([])), (Example, TextValue([])), (Links, LinkList([]))];
    GetUniform(details, About, TextValue([]));
    GetUniform(details, Limits, TextValue([]));
    GetUniform(details, Example, TextValue([]));
    GetUniform(details, Links, LinkList([]));
    Item(title, details)
  }

  /** The items of sub-title `s` of main title `m`, if both exist. */
  function Lookup(data: Data, m: string, s: string): Option<seq<Item>> {
    match Get(data, m)
    case None => None
    case Some(cats) => Get(cats, s)
  }

  /** `data[m][s] = items`, creating `data[m]` when it is missing. */
  function SetItems(data: Data, m: string, s: string, items: seq<Item>): (r: Data)
    ensures Lookup(r, m, s) == Some(items)
    ensures HasKey(r, m)
  {
    Put(data, m, Put(Get(data, m).GetOr([]), s, items))
  }

  /** Setting one list of items leaves every other list as it was. */
  lemma SetItemsOther(data: Data, m: string, s: string, items: seq<Item>, m': string, s': string)
    requires (m', s') != (m, s)
    ensures Lookup(SetItems(data, m, s, items), m', s') == Lookup(data, m', s')
  {
  }

  // ---------------------------------------------------------------------------------------
  // save_current_detail
  // ---------------------------------------------------------------------------------------

  /** No two entries of the list are equal. */
  predicate Distinct(xs: seq<string>) {
    forall i, j :: 0 <= i < j < |xs| ==> xs[i] != xs[j]
  }

  /** `list(dict.fromkeys(xs))`: the first occurrence of every element, in order. */
  function Dedupe(xs: seq<string>): (r: seq<string>)
    ensures forall x :: x in r <==> x in xs
    ensures Distinct(r)
    decreases |xs|
  {
    if xs == [] then []
    else
      var p := Dedupe(xs[..|xs| - 1]);
      var x := xs[|xs| - 1];
      assert forall y :: y in xs <==> y in xs[..|xs| - 1] || y == x;
      if x in p then p else p + [x]
  }

  /** The index of the first `x` in `xs`. */
  function FirstAt(xs: seq<string>, x: string): (k: nat)
    requires x in xs
    ensures k < |xs| && xs[k] == x && x !in xs[..k]
  {
    if xs[0] == x then 0
    else
      var k := 1 + FirstAt(xs[1..], x);
      assert xs[..k] == [xs[0]] + xs[1..][..k - 1];
      k
  }

  /** Any index holding `x` with no `x` before it is the first one. */
  lemma FirstAtUnique(xs: seq<string>, x: string, k: nat)
    requires k < |xs| && xs[k] == x && x !in xs[..k]
    ensures FirstAt(xs, x) == k
  {
    var f := FirstAt(xs, x);
    assert forall i :: 0 <= i < k ==> xs[..k][i] == xs[i];
    assert forall i :: 0 <= i < f ==> xs[..f][i] == xs[i];
  }

  /** An element of a prefix is first found at the same index in the whole list. */
  lemma FirstAtPrefix(xs: seq<string>, n: nat, x: string)
    requires n <= |xs| && x in xs[..n]
    ensures FirstAt(xs, x) == FirstAt(xs[..n], x)
  {
    var f := FirstAt(xs[..n], x);
    assert xs[..n][..f] == xs[..f];
    FirstAtUnique(xs, x, f);
  }

  /** The elements of `Dedupe(xs)` come in the order of their first occurrences in `xs`. */
  lemma {:induction false} DedupeFirstOrder(xs: seq<string>)
    ensures forall i, j :: 0 <= i < j < |Dedupe(xs)| ==> FirstAt(xs, Dedupe(xs)[i]) < FirstAt(xs, Dedupe(xs)[j])
    decreases |xs|
  {
    if xs != [] {
      var n := |xs| - 1;
      var p := Dedupe(xs[..n]);
      var x := xs[n];
      DedupeFirstOrder(xs[..n]);
      forall i | 0 <= i < |p| ensures p[i] in xs && FirstAt(xs, p[i]) == FirstAt(xs[..n], p[i]) {
        assert p[i] in xs[..n];
        assert xs == xs[..n] + [x];
        FirstAtPrefix(xs, n, p[i]);
      }
      if x !in p {
        FirstAtUnique(xs, x, n);
      }
    }
  }

  /** A list with no repeats keeps its order and elements in front of whatever is appended. */
  lemma {:induction false} DedupeKeepsPrefix(a: seq<string>, b: seq<string>)
    requires Distinct(a)
    ensures |a| <= |Dedupe(a + b)| && Dedupe(a + b)[..|a|] == a
    decreases |b|
  {
    if b == [] {
      assert a + b == a;
      DedupeOfDistinct(a);
    } else {
      var n := |b| - 1;
      assert (a + b)[..|a + b| - 1] == a + b[..n];
      DedupeKeepsPrefix(a, b[..n]);
    }
  }

  /** Removing duplicates from a list that has none changes nothing. */
  lemma {:induction false} DedupeOfDistinct(xs: seq<string>)
    requires Distinct(xs)
    ensures Dedupe(xs) == xs
    decreases |xs|
  {
    if xs != [] {
      var n := |xs| - 1;
      DedupeOfDistinct(xs[..n]);
      assert xs[n] !in xs[..n];
      assert xs[..n] + [xs[n]] == xs;
    }
  }

  /** `[clean_value(v) for v in buffer if clean_value(v)]` */
  function CleanedParts(buffer: seq<string>): (r: seq<string>)
    ensures |r| <= |buffer|
    ensures forall i :: 0 <= i < |r| ==> r[i] != []
    decreases |buffer|
  {
    if buffer == [] then []
    else
      var p := CleanedParts(buffer[..|buffer| - 1]);
      var v := CleanValue(buffer[|buffer| - 1]);
      if v == [] then p else p + [v]
  }

  /** A buffer of clean, non-empty lines is joined as it stands. */
  lemma {:induction false} CleanedPartsOfClean(buffer: seq<string>)
    requires forall i :: 0 <= i < |buffer| ==> buffer[i] != [] && CleanValue(buffer[i]) == buffer[i]
    ensures CleanedParts(buffer) == buffer
    decreases |buffer|
  {
    if buffer != [] {
      var n := |buffer| - 1;
      CleanedPartsOfClean(buffer[..n]);
      assert CleanValue(buffer[n]) == buffer[n] != [];
      LastSplit(buffer);
    }
  }

  /** The text a detail is given: the cleaned, non-empty buffer lines joined by single spaces. */
  function DetailValue(buffer: seq<string>): string {
    Join(" ", CleanedParts(buffer))
  }

  /** The links of an item, which every item holds as a list under روابط. */
  function LinksOf(details: Dict<Detail>): seq<string> {
    if HasLinkList(details) then Get(details, Links).value.links else []
  }

  predicate HasLinkList(details: Dict<Detail>) {
    Get(details, Links).Some? && Get(details, Links).value.LinkList?
  }

  /**
   * The write of `save_current_detail` into the details of the current item: روابط takes
   * the whitespace-separated links of the value; a key starting with نموذج adds a value
   * holding `https://` to the links and otherwise stores it; every other key stores it.
   * Link lists lose their duplicates, first occurrences kept.
   */
  function WriteDetail(details: Dict<Detail>, key: string, buffer: seq<string>): (r: Dict<Detail>)
    requires HasLinkList(details)
    ensures HasLinkList(r)
    ensures Distinct(LinksOf(details)) ==> Distinct(LinksOf(r))
  {
    var value := DetailValue(buffer);
    if key == Links then Put(details, Links, LinkList(Dedupe(LinksOf(details) + Words(value))))
    else if Model <= key && Contains(value, "https://") then
      Put(details, Links, LinkList(Dedupe(LinksOf(details) + [value])))
    else Put(details, key, TextValue(value))
  }

  /** A روابط detail appends the words of its value to the links, each link kept once. */
  lemma WriteLinks(details: Dict<Detail>, buffer: seq<string>)
    requires HasLinkList(details) && Distinct(LinksOf(details))
    ensures var r := WriteDetail(details, Links, buffer); var old_ := LinksOf(details);
      && Get(r, Links) == Some(LinkList(LinksOf(r)))
      && Distinct(LinksOf(r))
      && |old_| <= |LinksOf(r)| && LinksOf(r)[..|old_|] == old_
      && (forall w :: w in LinksOf(r) <==> w in old_ || w in Words(DetailValue(buffer)))
      && (forall i, j :: 0 <= i < j < |LinksOf(r)| ==>
            FirstAt(old_ + Words(DetailValue(buffer)), LinksOf(r)[i]) < FirstAt(old_ + Words(DetailValue(buffer)), LinksOf(r)[j]))
      && (forall k :: k != Links ==> Get(r, k) == Get(details, k))
  {
    DedupeKeepsPrefix(LinksOf(details), Words(DetailValue(buffer)));
    DedupeFirstOrder(LinksOf(details) + Words(DetailValue(buffer)));
  }

  /** A نموذج detail whose value is a link joins the links; any other is stored under its key. */
  lemma WriteModel(details: Dict<Detail>, key: string, buffer: seq<string>)
    requires HasLinkList(details) && Distinct(LinksOf(details))
    requires Model <= key
    ensures var r := WriteDetail(details, key, buffer); var v := DetailValue(buffer);
      if Contains(v, "https://") then
        && Distinct(LinksOf(r))
        && LinksOf(r) == (if v in LinksOf(details) then LinksOf(details) else LinksOf(details) + [v])
        && (forall k :: k != Links ==> Get(r, k) == Get(details, k))
      else
        && Get(r, key) == Some(TextValue(v))
        && (forall k :: k != key ==> Get(r, k) == Get(details, k))
  {
    assert key != Links by {
      assert Model[0] != Links[0];
    }
    var v := DetailValue(buffer);
    if Contains(v, "https://") {
      var l := LinksOf(details);
      DedupeOfDistinct(l);
      assert (l + [v])[..|l|] == l;
      if v !in l {
        assert Distinct(l + [v]);
        DedupeOfDistinct(l + [v]);
      }
    }
  }

  /** Every other detail is stored under its key as the joined text, replacing what was there. */
  lemma WritePlain(details: Dict<Detail>, key: string, buffer: seq<string>)
    requires HasLinkList(details) && key != Links && !(Model <= key)
    ensures var r := WriteDetail(details, key, buffer);
      && Get(r, key) == Some(TextValue(DetailValue(buffer)))
      && (forall k :: k != key ==> Get(r, k) == Get(details, k))
  {
  }

  // ---------------------------------------------------------------------------------------
  // The loop state
  // ---------------------------------------------------------------------------------------

  /**
   * The loop's variables: the data, the current main title and sub-title, whether there is
   * a current item (it is always the last item of the current sub-title: only a new item
   * becomes current, and every step that empties or replaces that list clears it), the
   * current detail key and the buffered lines of its value.
   */
  datatype State = State(
    data: Data,
    main: Option<string>,
    sub: Option<string>,
    item: bool,
    key: Option<string>,
    buffer: seq<string>)

  const Init: State := State([], None, None, false, None, [])

  /** The items of the current sub-title. */
  function CurrentItems(st: State): seq<Item>
    requires st.main.Some? && st.sub.Some?
  {
    Lookup(st.data, st.main.value, st.sub.value).GetOr([])
  }

  ghost predicate Valid(st: State) {
    && (st.main.Some? ==> HasKey(st.data, st.main.value))
    && (st.sub.Some? ==> st.main.Some? && Lookup(st.data, st.main.value, st.sub.value).Some?)
    && (st.item ==>
          && st.sub.Some? && CurrentItems(st) != []
          && HasLinkList(CurrentItems(st)[|CurrentItems(st)| - 1].details)
          && Distinct(LinksOf(CurrentItems(st)[|CurrentItems(st)| - 1].details)))
    && (!st.item ==> st.key.None? && st.buffer == [])
  }

  /** `save_current_detail` writes when there is a current item and a non-empty key. */
  predicate Writes(st: State) {
    st.item && st.key.Some? && st.key.value != []
  }

  /**
   * `save_current_detail`: with a current item and a non-empty key, the buffered value is
   * written into the current item; in every case the key and the buffer are reset.
   */
  function SaveDetail(st: State): (r: State)
    requires Valid(st)
    ensures Valid(r)
    ensures r == st.(data := r.data, key := None, buffer := [])
    ensures !Writes(st) ==> r.data == st.data
    ensures Writes(st) ==>
              var items := CurrentItems(st); var n := |items| - 1;
              && Lookup(r.data, st.main.value, st.sub.value)
                 == Some(items[..n] + [items[n].(details := WriteDetail(items[n].details, st.key.value, st.buffer))])
  {
    var s := st.(key := None, buffer := []);
    if Writes(st) then
      var items := CurrentItems(st);
      var n := |items| - 1;
      var it := items[n].(details := WriteDetail(items[n].details, st.key.value, st.buffer));
      s.(data := SetItems(st.data, st.main.value, st.sub.value, items[..n] + [it]))
    else s
  }

  /** A save writes only into the current sub-title's list, and there only into the last item. */
  lemma SaveDetailOther(st: State, m: string, c: string)
    requires Valid(st) && Writes(st) && (m, c) != (st.main.value, st.sub.value)
    ensures Lookup(SaveDetail(st).data, m, c) == Lookup(st.data, m, c)
  {
    var items := CurrentItems(st);
    var n := |items| - 1;
    var it := items[n].(details := WriteDetail(items[n].details, st.key.value, st.buffer));
    SetItemsOther(st.data, st.main.value, st.sub.value, items[..n] + [it], m, c);
  }

  // ---------------------------------------------------------------------------------------
  // One paragraph
  // ---------------------------------------------------------------------------------------

  /** A page break or the underscore rule. */
  predicate IsSeparator(line: string) {
    "--- PAGE" <= line || line == Rule
  }

  /** `clean_value(line.replace("العنوان الرئيسي:", ""))`: the line without its marker, cleaned. */
  function MainTitleName(line: string): (r: string)
    ensures |r| <= |line|
    ensures r == [] || (r[0] != '"' && r[|r| - 1] != '"')
  {
    ReplaceByNothingShorter(line, MainTitleWord + ":");
    CleanValue(ReplaceAll(line, MainTitleWord + ":", ""))
  }

  /** The marker at the head of a main-title line is dropped: the name is read from what follows it. */
  lemma MainTitleMarkerDropped(rest: string)
    ensures MainTitleName(MainTitleWord + ":" + rest) == MainTitleName(rest)
  {
    ReplaceLeading(MainTitleWord + ":", rest, []);
  }

  /** `line.replace("العنوان الفرعي:", "").strip()`: the line without its marker, stripped. */
  function SubTitleText(line: string): (r: string)
    ensures |r| <= |line|
    ensures Stripped(r)
  {
    ReplaceByNothingShorter(line, SubTitleWord + ":");
    Strip(ReplaceAll(line, SubTitleWord + ":", ""))
  }

  /** The marker at the head of a sub-title line is dropped: the text is read from what follows it. */
  lemma SubTitleMarkerDropped(rest: string)
    ensures SubTitleText(SubTitleWord + ":" + rest) == SubTitleText(rest)
  {
    ReplaceLeading(SubTitleWord + ":", rest, []);
  }

  /** A main title: save, then a fresh empty dictionary under its name, with no sub-title or item. */
  function OnMainTitle(st: State, line: string): (r: State)
    requires Valid(st)
    ensures Valid(r)
    ensures r.main == Some(MainTitleName(line)) && r.sub.None? && !r.item
    ensures Get(r.data, MainTitleName(line)) == Some([])
    ensures forall m :: m != MainTitleName(line) ==> Get(r.data, m) == Get(SaveDetail(st).data, m)
  {
    var s := SaveDetail(st);
    var m := MainTitleName(line);
    s.(data := Put(s.data, m, []), main := Some(m), sub := None, item := false)
  }

  /** Sub-title `c` of the current main title made current, its list created empty only if missing. */
  function OpenSubTitle(st: State, c: string): (r: State)
    requires Valid(st) && st.main.Some? && st.key.None? && st.buffer == []
    ensures Valid(r) && r.sub == Some(c) && !r.item && r.main == st.main
    ensures Lookup(r.data, st.main.value, c) == Some(Lookup(st.data, st.main.value, c).GetOr([]))
    ensures Lookup(st.data, st.main.value, c).Some? ==> r.data == st.data
    ensures forall m, c' :: (m, c') != (st.main.value, c) ==> Lookup(r.data, m, c') == Lookup(st.data, m, c')
  {
    var m := st.main.value;
    var data := if Lookup(st.data, m, c).Some? then st.data else SetItems(st.data, m, c, []);
    st.(data := data, sub := Some(c), item := false)
  }

  /**
   * A sub-title, after a save, under a main title. With a `#` in it, the text before the
   * first `#` names the category (its list created only if missing) and the text after it
   * a new item at the end of that list; without one, the category gets a fresh empty list.
   */
  function OnSubTitle(st: State, line: string): (r: State)
    requires Valid(st)
    ensures Valid(r)
    ensures st.main.None? ==> r == SaveDetail(st)
    ensures st.main.Some? ==> r.main == st.main && r.sub.Some?
    ensures st.main.Some? && !Contains(SubTitleText(line), "#") ==>
              && r.sub == Some(CleanValue(SubTitleText(line))) && !r.item
              && Lookup(r.data, st.main.value, r.sub.value) == Some([])
    ensures st.main.Some? && Contains(SubTitleText(line), "#") ==>
              var parts := SplitOnce(SubTitleText(line), "#").value;
              && r.sub == Some(CleanValue(parts.0)) && r.item
              && Lookup(r.data, st.main.value, r.sub.value)
                 == Some(Lookup(SaveDetail(st).data, st.main.value, r.sub.value).GetOr([]) + [NewItem(CleanValue(parts.1))])
    ensures st.main.Some? ==>
              forall m, c :: (m, c) != (st.main.value, r.sub.value) ==> Lookup(r.data, m, c) == Lookup(SaveDetail(st).data, m, c)
  {
    var s := SaveDetail(st);
    if s.main.None? then s
    else
      var text := SubTitleText(line);
      match SplitOnce(text, "#")
      case Some(parts) => AddItem(OpenSubTitle(s, CleanValue(parts.0)), NewItem(CleanValue(parts.1)))
      case None =>
        ResetSubTitle(s, CleanValue(text))
  }

  /** Sub-title `c` of the current main title made current with a fresh empty list. */
  function ResetSubTitle(st: State, c: string): (r: State)
    requires Valid(st) && st.main.Some? && st.key.None? && st.buffer == []
    ensures Valid(r) && r.sub == Some(c) && !r.item && r.main == st.main
    ensures Lookup(r.data, st.main.value, c) == Some([])
    ensures forall m, c' :: (m, c') != (st.main.value, c) ==> Lookup(r.data, m, c') == Lookup(st.data, m, c')
  {
    st.(data := SetItems(st.data, st.main.value, c, []), sub := Some(c), item := false)
  }

  /** `it` appended to the current sub-title's list and made the current item. */
  function AddItem(st: State, it: Item): (r: State)
    requires Valid(st) && st.main.Some? && st.sub.Some? && HasLinkList(it.details) && Distinct(LinksOf(it.details))
    ensures Valid(r) && r.item
    ensures r == st.(data := r.data, item := true)
    ensures Lookup(r.data, st.main.value, st.sub.value) == Some(CurrentItems(st) + [it])
    ensures forall m, c :: (m, c) != (st.main.value, st.sub.value) ==> Lookup(r.data, m, c) == Lookup(st.data, m, c)
  {
    st.(data := SetItems(st.data, st.main.value, st.sub.value, CurrentItems(st) + [it]), item := true)
  }

  /** An item title: after a save, a new item at the end of the current sub-title's list. */
  function OnItemTitle(st: State, line: string): (r: State)
    requires Valid(st) && line != []
    ensures Valid(r)
    ensures st.main.None? || st.sub.None? ==> r == SaveDetail(st)
    ensures st.main.Some? && st.sub.Some? ==>
              && r.item && r.main == st.main && r.sub == st.sub
              && Lookup(r.data, st.main.value, st.sub.value)
                 == Some(CurrentItems(SaveDetail(st)) + [NewItem(CleanValue(line[1..]))])
    ensures st.main.Some? && st.sub.Some? ==>
              forall m, c :: (m, c) != (st.main.value, st.sub.value) ==> Lookup(r.data, m, c) == Lookup(st.data, m, c)
  {
    var s := SaveDetail(st);
    if s.main.Some? && s.sub.Some? then
      var it := NewItem(CleanValue(line[1..]));
      assert forall m, c :: (m, c) != (st.main.value, st.sub.value) ==> Lookup(s.data, m, c) == Lookup(st.data, m, c) by {
        forall m, c | (m, c) != (st.main.value, st.sub.value) ensures Lookup(s.data, m, c) == Lookup(st.data, m, c) {
          if Writes(st) {
            SaveDetailOther(st, m, c);
          }
        }
      }
      AddItem(s, it)
    else s
  }

  /** The key and first value line of an `@` line: split at the first `": "`, both cleaned. */
  function DetailHead(line: string): (r: (string, string))
    requires line != []
  {
    match SplitOnce(line[1..], ": ")
    case Some(parts) => (CleanValue(parts.0), CleanValue(parts.1))
    case None => (CleanValue(line[1..]), [])
  }

  /** An `@` line: after a save, with a current item, the key and the first line of a new detail. */
  function OnDetail(st: State, line: string): (r: State)
    requires Valid(st) && line != []
    ensures Valid(r)
    ensures !st.item ==> r == SaveDetail(st)
    ensures st.item ==> r == SaveDetail(st).(key := Some(DetailHead(line).0), buffer := [DetailHead(line).1])
  {
    var s := SaveDetail(st);
    if !s.item then s
    else
      var head := DetailHead(line);
      ValidWithDetail(s, head.0, [head.1]);
      s.(key := Some(head.0), buffer := [head.1])
  }

  /** With a current item, starting a detail keeps the invariant: only the key and buffer change. */
  lemma ValidWithDetail(st: State, key: string, buffer: seq<string>)
    requires Valid(st) && st.item
    ensures Valid(st.(key := Some(key), buffer := buffer))
  {
    var r := st.(key := Some(key), buffer := buffer);
    assert CurrentItems(r) == CurrentItems(st);
  }

  /** Any other line continues the current detail's value, when there is an item and a key. */
  function OnContent(st: State, line: string): (r: State)
    requires Valid(st)
    ensures Valid(r)
    ensures r == if st.item && st.key.Some? then st.(buffer := st.buffer + [line]) else st
  {
    if st.item && st.key.Some? then st.(buffer := st.buffer + [line]) else st
  }

  /** One paragraph of the loop: stripped, skipped when empty, then classified in the source's order. */
  function Step(st: State, paragraph: string): (r: State)
    requires Valid(st)
    ensures Valid(r)
  {
    var line := Strip(paragraph);
    if line == [] then st
    else if IsSeparator(line) then SaveDetail(st)
    else if MainTitleWord + ":" <= line then OnMainTitle(st, line)
    else if SubTitleWord + ":" <= line then OnSubTitle(st, line)
    else if "#" <= line then OnItemTitle(st, line)
    else if "@" <= line then OnDetail(st, line)
    else OnContent(st, line)
  }

  function Run(paragraphs: seq<string>): (r: State)
    ensures Valid(r)
    decreases |paragraphs|
  {
    if paragraphs == [] then Init else Step(Run(paragraphs[..|paragraphs| - 1]), paragraphs[|paragraphs| - 1])
  }

  /** The data after the loop and the last save. */
  function Extract(paragraphs: seq<string>): Data {
    SaveDetail(Run(paragraphs)).data
  }

  /** The loop of `extract_content_from_docx` and its final save (the JSON text is left out). */
  method ExtractContentFromDocx(paragraphs: seq<string>) returns (data: Data)
    ensures data == Extract(paragraphs)
  {
    var st := Init;
    var i := 0;
    while i < |paragraphs|
      invariant 0 <= i <= |paragraphs|
      invariant st == Run(paragraphs[..i])
    {
      assert paragraphs[..i + 1][..i] == paragraphs[..i];
      st := Step(st, paragraphs[i]);
      i := i + 1;
    }
    assert paragraphs[..i] == paragraphs;
    st := SaveDetail(st);
    data := st.data;
  }
}
