/**
 * The combined-document synchroniser: one document holding every package, category and
 * bot is read line by line into nested insertion-ordered dicts (package -> category -> bots),
 * and those are turned into the catalog, with English alias keys on every bot and with the
 * package ids of an earlier catalog reused by name.
 */
module SyncCombinedDoc {
  import opened Options
  import opened Text
  import opened Dict
  import opened Json
  import opened Labels

  /** `normalize_line`: every right-to-left and left-to-right mark removed, then stripped. */
  function NormalizeLine(line: string): (r: string)
    ensures Stripped(r) && RLM !in r && LRM !in r
  {
    var a := ReplaceAll(line, [RLM], []);
    var b := ReplaceAll(a, [LRM], []);
    ReplaceCharGone(line, RLM, []);
    ReplaceByNothingSubset(a, [LRM], RLM);
    ReplaceCharGone(a, LRM, []);
    StripSubset(b, RLM);
    StripSubset(b, LRM);
    Strip(b)
  }

  /** Normalising a normalised line changes nothing. */
  lemma NormalizeLineIdempotent(line: string)
    ensures NormalizeLine(NormalizeLine(line)) == NormalizeLine(line)
  {
    var t := NormalizeLine(line);
    ReplaceAbsent(t, [RLM], []);
    ReplaceAbsent(t, [LRM], []);
    StripStripped(t);
  }

  /** A bot while it is being filled: its title, its model links and its three text fields. */
  datatype Bot = Bot(botTitle: string, models: Dict<string>, about: string, limits: string, example: string)

  /** Where content lines go: one of the three text fields, or the model links. */
  datatype Field = AboutField | LimitsField | ExampleField | LinkField

  /** package name -> category name -> bots, every level in insertion order. */
  type Packages = Dict<Dict<seq<Bot>>>

  /**
   * The variables of the parsing loop. `pkg` and `cat` name the current package and
   * category; when `bot` holds, the current bot is the last bot of that category, which is
   * the only bot a later line can still change.
   */
  datatype State = State(packages: Packages, pkg: Option<string>, cat: Option<string>, bot: bool,
                         field: Option<Field>, model: Option<string>)

  /** The two `ValueError`s of the parser. */
  datatype ParseError = SubTitleBeforeMainTitle | BotTitleBeforeMainTitle

  const Init := State([], None, None, false, None, None)

  /** The bots of category `c` of package `p`, if both exist. */
  function Lookup(ps: Packages, p: string, c: string): Option<seq<Bot>> {
    match Get(ps, p)
    case None => None
    case Some(cats) => Get(cats, c)
  }

  function CurrentBots(st: State): Option<seq<Bot>> {
    if st.pkg.Some? && st.cat.Some? then Lookup(st.packages, st.pkg.value, st.cat.value) else None
  }

  /** A text field holds no whitespace at its ends, as every line stored in it has none. */
  predicate TextsStripped(b: Bot) {
    Stripped(b.about) && Stripped(b.limits) && Stripped(b.example)
  }

  ghost predicate Valid(st: State) {
    && (st.pkg.Some? ==> HasKey(st.packages, st.pkg.value))
    && (st.cat.Some? ==> st.pkg.Some? && CurrentBots(st).Some?)
    && (st.bot ==> st.cat.Some? && CurrentBots(st).Some? && |CurrentBots(st).value| > 0
                   && TextsStripped(CurrentBots(st).value[|CurrentBots(st).value| - 1]))
    && (st.model.Some? ==> st.model.value != [])
  }

  function CurrentBot(st: State): Bot
    requires Valid(st) && st.bot
  {
    var bots := CurrentBots(st).value;
    bots[|bots| - 1]
  }

  /**
   * `r` is `st` with its current bot replaced by `b`: the rest of the state, the other bots of
   * the current category and every other category of every package are as they were.
   */
  ghost predicate OnlyCurrentBotIs(st: State, r: State, b: Bot)
    requires Valid(st) && st.bot
  {
    && r == st.(packages := r.packages)
    && CurrentBots(r) == Some(CurrentBots(st).value[|CurrentBots(st).value| - 1 := b])
    && forall p, c :: (p, c) != (st.pkg.value, st.cat.value) ==> Lookup(r.packages, p, c) == Lookup(st.packages, p, c)
  }

  /** Replaces the current bot, which the source edits in place through its alias. */
  function SetCurrentBot(st: State, b: Bot): (r: State)
    requires Valid(st) && st.bot && TextsStripped(b)
    ensures Valid(r) && r.bot && OnlyCurrentBotIs(st, r, b)
    ensures Keys(r.packages) == Keys(st.packages)
  {
    var p, c := st.pkg.value, st.cat.value;
    var cats := Get(st.packages, p).value;
    var bots := Get(cats, c).value;
    st.(packages := Put(st.packages, p, Put(cats, c, bots[|bots| - 1 := b])))
  }

  /** The kind of a normalised line, checked in the order of the source. */
  datatype LineKind = Blank | MainTitleLine | SubTitleLine | BotTitleLine | TagLine | ContentLine

  function Kind(line: string): LineKind {
    if line == [] then Blank
    else if MainTitleWord <= line then MainTitleLine
    else if SubTitleWord <= line then SubTitleLine
    else if "#" <= line then BotTitleLine
    else if "@" <= line then TagLine
    else ContentLine
  }

  /** The stripped text after the first `:`, or `""` when there is none. */
  function TitleValue(line: string): string {
    Strip(AfterFirst(line, ':'))
  }

  /** A line that starts with `http://` or `https://`, in any case. */
  predicate IsHttpLine(line: string) {
    "http://" <= Lower(line) || "https://" <= Lower(line)
  }

  function NewBot(title: string): Bot {
    Bot(title, [], [], [], [])
  }

  /** A main title: the package is made current, created empty if new; everything below is cleared. */
  function OnMainTitle(st: State, line: string): (r: State)
    ensures Valid(r)
  {
    var name := TitleValue(line);
    State(SetDefault(st.packages, name, []), Some(name), None, false, None, None)
  }

  /** A sub-title: the category of the current package is made current, created empty if new. */
  function OnSubTitle(st: State, line: string): (r: State)
    requires Valid(st) && st.pkg.Some?
    ensures Valid(r)
  {
    var v := TitleValue(line);
    var name := if v == [] then Uncategorized else v;
    var cats := SetDefault(Get(st.packages, st.pkg.value).value, name, []);
    CategoryWritten(st.packages, st.pkg.value, cats, name, false);
    State(Put(st.packages, st.pkg.value, cats), st.pkg, Some(name), false, None, None)
  }

  /** A `#` line: a new empty bot at the end of the current category (or of `غير مصنف`). */
  function OnBotTitle(st: State, line: string): (r: State)
    requires Valid(st) && st.pkg.Some?
    ensures Valid(r)
  {
    var p := st.pkg.value;
    var cats0 := Get(st.packages, p).value;
    var cats := if st.cat.None? then SetDefault(cats0, Uncategorized, []) else cats0;
    var c := if st.cat.None? then Uncategorized else st.cat.value;
    assert Get(cats, c).Some? by {
      if st.cat.Some? { assert Lookup(st.packages, p, c) == Get(cats0, c); }
    }
    var bots := Get(cats, c).value;
    var title := Strip(TrimCharStart(line, '#'));
    var cats' := Put(cats, c, bots + [NewBot(title)]);
    CategoryWritten(st.packages, p, cats', c, true);
    State(Put(st.packages, p, cats'), st.pkg, Some(c), true, None, None)
  }

  /** The state whose current package `p` was just given the categories `cats`, `c` among them. */
  lemma CategoryWritten(ps: Packages, p: string, cats: Dict<seq<Bot>>, c: string, bot: bool)
    requires Get(cats, c).Some?
    requires bot ==> |Get(cats, c).value| > 0 && TextsStripped(Get(cats, c).value[|Get(cats, c).value| - 1])
    ensures Valid(State(Put(ps, p, cats), Some(p), Some(c), bot, None, None))
  {
    assert Lookup(Put(ps, p, cats), p, c) == Get(cats, c);
  }

  /** An `@` line, given its stripped text after the `@`: selects where content goes next. */
  function OnTag(st: State, body: string): (r: State)
    requires Valid(st)
    ensures Valid(r) && r == st.(field := r.field, model := r.model)
  {
    if !st.bot then st
    else
      var (tag, suffix) := Partition(body, " ");
      if tag == About then st.(field := Some(AboutField), model := None)
      else if tag == Limits then st.(field := Some(LimitsField), model := None)
      else if tag == Example then st.(field := Some(ExampleField), model := None)
      else if tag == Links then st.(field := None, model := None)
      else if tag == Model then
        var key := Strip(suffix);
        st.(field := Some(LinkField), model := Some(if key == [] then "link" else key))
      else st.(field := None, model := None)
  }

  function FieldText(b: Bot, f: Field): string {
    match f
    case AboutField => b.about
    case LimitsField => b.limits
    case ExampleField => b.example
    case LinkField => []
  }

  function WithFieldText(b: Bot, f: Field, t: string): Bot {
    match f
    case AboutField => b.(about := t)
    case LimitsField => b.(limits := t)
    case ExampleField => b.(example := t)
    case LinkField => b
  }

  /** A further line of a text field: the line itself on an empty field, else after a newline. */
  function AppendLine(text: string, line: string): (r: string)
    requires Stripped(line)
    ensures Stripped(r)
  {
    if text != [] then Strip(text + "\n" + line) else line
  }

  /** A content line: goes to the current text field, or is a model link when it is a URL. */
  function OnContent(st: State, line: string): (r: State)
    requires Valid(st) && Stripped(line)
    ensures Valid(r)
  {
    if !st.bot then st
    else
      var b := CurrentBot(st);
      match st.field
      case None => st
      case Some(f) =>
        if f != LinkField then
          SetCurrentBot(st, WithFieldText(b, f, AppendLine(FieldText(b, f), line)))
        else if st.model.Some? && st.model.value != [] && IsHttpLine(line) then
          SetCurrentBot(st, b.(models := Put(b.models, st.model.value, Strip(line))))
        else st
  }

  /** One iteration of the loop of `parse_combined_doc`. */
  function Step(st: State, raw: string): (r: Result<State, ParseError>)
    requires Valid(st)
    ensures r.Ok? ==> Valid(r.value)
  {
    var line := NormalizeLine(raw);
    match Kind(line)
    case Blank => Ok(st)
    case MainTitleLine => Ok(OnMainTitle(st, line))
    case SubTitleLine => if st.pkg.None? then Err(SubTitleBeforeMainTitle) else Ok(OnSubTitle(st, line))
    case BotTitleLine => if st.pkg.None? then Err(BotTitleBeforeMainTitle) else Ok(OnBotTitle(st, line))
    case TagLine => Ok(OnTag(st, Strip(line[1..])))
    case ContentLine => Ok(OnContent(st, line))
  }

  /** The loop over the lines, as a left fold; the first error ends it. */
  function Run(lines: seq<string>): (r: Result<State, ParseError>)
    ensures r.Ok? ==> Valid(r.value)
    decreases |lines|
  {
    if lines == [] then Ok(Init)
    else
      match Run(lines[..|lines| - 1])
      case Err(e) => Err(e)
      case Ok(st) => Step(st, lines[|lines| - 1])
  }

  /** `parse_combined_doc` over the lines of the document. */
  method ParseCombinedDoc(lines: seq<string>) returns (r: Result<Packages, ParseError>)
    ensures Run(lines).Ok? ==> r == Ok(Run(lines).value.packages)
    ensures Run(lines).Err? ==> r == Err(Run(lines).error)
  {
    var st := Init;
    var i := 0;
    while i < |lines|
      invariant 0 <= i <= |lines|
      invariant Run(lines[..i]) == Ok(st)
    {
      assert lines[..i + 1][..i] == lines[..i];
      var next := Step(st, lines[i]);
      if next.Err? {
        ErrorStays(lines, i + 1);
        return Err(next.error);
      }
      st := next.value;
      i := i + 1;
    }
    assert lines[..i] == lines;
    return Ok(st.packages);
  }

  /** Once the parse has failed, later lines do not change the error. */
  lemma {:induction false} ErrorStays(lines: seq<string>, n: nat)
    requires n <= |lines| && Run(lines[..n]).Err?
    ensures Run(lines) == Run(lines[..n])
    decreases |lines| - n
  {
    if n < |lines| {
      assert lines[..n + 1][..n] == lines[..n];
      ErrorStays(lines, n + 1);
    } else {
      assert lines[..n] == lines;
    }
  }

  /** A sub-title or `#` line raises exactly when no main title has been seen. */
  lemma StepRaises(st: State, raw: string)
    requires Valid(st)
    ensures Step(st, raw) == Err(SubTitleBeforeMainTitle) <==> st.pkg.None? && Kind(NormalizeLine(raw)) == SubTitleLine
    ensures Step(st, raw) == Err(BotTitleBeforeMainTitle) <==> st.pkg.None? && Kind(NormalizeLine(raw)) == BotTitleLine
    ensures Step(st, raw).Err? ==> Kind(NormalizeLine(raw)) in {SubTitleLine, BotTitleLine}
  {
  }

  /**
   * A main title makes its package current, reusing it when it exists (so every bot stays
   * where it was), and clears the category, bot, field and model.
   */
  lemma StepMainTitle(st: State, raw: string)
    requires Valid(st) && Kind(NormalizeLine(raw)) == MainTitleLine
    ensures Step(st, raw).Ok?
    ensures var r, name := Step(st, raw).value, TitleValue(NormalizeLine(raw));
      && r.pkg == Some(name) && r.cat.None? && !r.bot && r.field.None? && r.model.None?
      && HasKey(r.packages, name)
      && Keys(r.packages) == (if HasKey(st.packages, name) then Keys(st.packages) else Keys(st.packages) + [name])
      && forall p, c :: Lookup(r.packages, p, c) == Lookup(st.packages, p, c)
  {
    var r, name := Step(st, raw).value, TitleValue(NormalizeLine(raw));
    forall p, c ensures Lookup(r.packages, p, c) == Lookup(st.packages, p, c) {
      if p == name && !HasKey(st.packages, name) {
        assert Get(r.packages, p) == Some([]);
      }
    }
  }

  /**
   * A sub-title makes its category current (`غير مصنف` for an empty name), creating it empty
   * only when it does not exist, so every bot stays; bot, field and model are cleared.
   */
  lemma StepSubTitle(st: State, raw: string)
    requires Valid(st) && st.pkg.Some? && Kind(NormalizeLine(raw)) == SubTitleLine
    ensures Step(st, raw).Ok?
    ensures var r, v := Step(st, raw).value, TitleValue(NormalizeLine(raw));
      var name := if v == [] then Uncategorized else v;
      && r.pkg == st.pkg && r.cat == Some(name) && !r.bot && r.field.None? && r.model.None?
      && Keys(r.packages) == Keys(st.packages)
      && Lookup(r.packages, st.pkg.value, name) == Some(Lookup(st.packages, st.pkg.value, name).GetOr([]))
      && (forall p, c :: Lookup(st.packages, p, c).Some? ==> Lookup(r.packages, p, c) == Lookup(st.packages, p, c))
      && (forall p, c :: (p, c) != (st.pkg.value, name) ==> Lookup(r.packages, p, c) == Lookup(st.packages, p, c))
  {
    var line := NormalizeLine(raw);
    assert Step(st, raw) == Ok(OnSubTitle(st, line));
    OnSubTitleEffect(st, line);
  }

  /** `StepSubTitle` for the normalised line itself. */
  lemma OnSubTitleEffect(st: State, line: string)
    requires Valid(st) && st.pkg.Some?
    ensures var r, v := OnSubTitle(st, line), TitleValue(line);
      var name := if v == [] then Uncategorized else v;
      && r.pkg == st.pkg && r.cat == Some(name) && !r.bot && r.field.None? && r.model.None?
      && Keys(r.packages) == Keys(st.packages)
      && Lookup(r.packages, st.pkg.value, name) == Some(Lookup(st.packages, st.pkg.value, name).GetOr([]))
      && (forall p, c :: Lookup(st.packages, p, c).Some? ==> Lookup(r.packages, p, c) == Lookup(st.packages, p, c))
      && (forall p, c :: (p, c) != (st.pkg.value, name) ==> Lookup(r.packages, p, c) == Lookup(st.packages, p, c))
  {
    var r := OnSubTitle(st, line);
    var v := TitleValue(line);
    var name := if v == [] then Uncategorized else v;
    var p := st.pkg.value;
    var cats := Get(st.packages, p).value;
    var cats' := SetDefault(cats, name, []);
    assert r.packages == Put(st.packages, p, cats');
    assert Get(r.packages, p) == Some(cats');
    forall p', c | Lookup(st.packages, p', c).Some? || (p', c) != (p, name)
      ensures Lookup(r.packages, p', c) == Lookup(st.packages, p', c)
    {
      if p' != p {
        assert Get(r.packages, p') == Get(st.packages, p');
      }
    }
  }

  /**
   * A `#` line after a main title appends exactly one new bot, with the stripped title and
   * empty fields, to the current category, or to `غير مصنف` when there is none; nothing
   * else in the packages changes.
   */
  lemma StepBotTitle(st: State, raw: string)
    requires Valid(st) && st.pkg.Some? && Kind(NormalizeLine(raw)) == BotTitleLine
    ensures Step(st, raw).Ok?
    ensures var r, line := Step(st, raw).value, NormalizeLine(raw);
      var c := if st.cat.Some? then st.cat.value else Uncategorized;
      && r.pkg == st.pkg && r.cat == Some(c) && r.bot && r.field.None? && r.model.None?
      && Keys(r.packages) == Keys(st.packages)
      && CurrentBots(r) == Some(Lookup(st.packages, st.pkg.value, c).GetOr([]) + [NewBot(Strip(TrimCharStart(line, '#')))])
      && forall p, c' :: (p, c') != (st.pkg.value, c) ==> Lookup(r.packages, p, c') == Lookup(st.packages, p, c')
  {
    var line := NormalizeLine(raw);
    var r := OnBotTitle(st, line);
    assert Step(st, raw) == Ok(r);
    var p := st.pkg.value;
    var cats0 := Get(st.packages, p).value;
    var cats := if st.cat.None? then SetDefault(cats0, Uncategorized, []) else cats0;
    var c := if st.cat.None? then Uncategorized else st.cat.value;
    var bots := Get(cats, c).value;
    assert bots == Lookup(st.packages, p, c).GetOr([]);
    var cats' := Put(cats, c, bots + [NewBot(Strip(TrimCharStart(line, '#')))]);
    assert r.packages == Put(st.packages, p, cats');
    assert Get(r.packages, p) == Some(cats');
    forall p', c' | (p', c') != (p, c) ensures Lookup(r.packages, p', c') == Lookup(st.packages, p', c') {
      if p' != p {
        assert Get(r.packages, p') == Get(st.packages, p');
      } else {
        assert Get(cats', c') == Get(cats, c') == Get(cats0, c');
      }
    }
  }

  /** Without a current bot, `@` lines and content lines change nothing. */
  lemma StepWithoutBot(st: State, raw: string)
    requires Valid(st) && !st.bot && Kind(NormalizeLine(raw)) in {TagLine, ContentLine}
    ensures Step(st, raw) == Ok(st)
  {
  }

  /** `@نموذج <suffix>` selects the model links under the stripped suffix, or under `link`. */
  lemma StepModelTag(st: State, raw: string)
    requires Valid(st) && st.bot && Kind(NormalizeLine(raw)) == TagLine
    requires Partition(Strip(NormalizeLine(raw)[1..]), " ").0 == Model
    ensures Step(st, raw).Ok?
    ensures var r, key := Step(st, raw).value, Strip(Partition(Strip(NormalizeLine(raw)[1..]), " ").1);
      r == st.(field := Some(LinkField), model := Some(if key == [] then "link" else key))
  {
  }

  /**
   * Every other `@` line clears the model, and only the field may change: a text tag selects
   * its field, `روابط` and any unknown tag select none. Outside a bot nothing changes.
   */
  lemma StepOtherTag(st: State, raw: string)
    requires Valid(st) && Kind(NormalizeLine(raw)) == TagLine
    requires Partition(Strip(NormalizeLine(raw)[1..]), " ").0 != Model
    ensures Step(st, raw).Ok?
    ensures var r, tag := Step(st, raw).value, Partition(Strip(NormalizeLine(raw)[1..]), " ").0;
      && (st.bot ==> r == st.(field := r.field, model := None))
      && (st.bot && tag == About ==> r.field == Some(AboutField))
      && (st.bot && tag == Limits ==> r.field == Some(LimitsField))
      && (st.bot && tag == Example ==> r.field == Some(ExampleField))
      && (st.bot && tag != About && tag != Limits && tag != Example ==> r.field == None)
      && (!st.bot ==> r == st)
  {
    var body := Strip(NormalizeLine(raw)[1..]);
    assert Step(st, raw) == Ok(OnTag(st, body));
    OnOtherTag(st, body);
  }

  /** `StepOtherTag` for the text after the `@`. */
  lemma OnOtherTag(st: State, body: string)
    requires Valid(st) && Partition(body, " ").0 != Model
    ensures var r, tag := OnTag(st, body), Partition(body, " ").0;
      && (st.bot ==> r == st.(field := r.field, model := None))
      && (st.bot && tag == About ==> r.field == Some(AboutField))
      && (st.bot && tag == Limits ==> r.field == Some(LimitsField))
      && (st.bot && tag == Example ==> r.field == Some(ExampleField))
      && (st.bot && tag != About && tag != Limits && tag != Example ==> r.field == None)
      && (!st.bot ==> r == st)
  {
  }

  /**
   * A content line in a text field is stored as it is when the field is empty, and is
   * otherwise appended after a newline; nothing else changes.
   */
  lemma StepTextContent(st: State, raw: string)
    requires Valid(st) && st.bot && Kind(NormalizeLine(raw)) == ContentLine
    requires st.field.Some? && st.field.value != LinkField
    ensures Step(st, raw).Ok?
    ensures var r, line, f := Step(st, raw).value, NormalizeLine(raw), st.field.value;
      var old_ := FieldText(CurrentBot(st), f);
      && r.bot
      && OnlyCurrentBotIs(st, r, WithFieldText(CurrentBot(st), f, if old_ == [] then line else old_ + "\n" + line))
  {
    var line := NormalizeLine(raw);
    assert Step(st, raw) == Ok(OnContent(st, line));
    OnTextContent(st, line);
  }

  /** `StepTextContent` for the normalised line itself. */
  lemma OnTextContent(st: State, line: string)
    requires Valid(st) && st.bot && Stripped(line) && line != []
    requires st.field.Some? && st.field.value != LinkField
    ensures var r, f := OnContent(st, line), st.field.value;
      var old_ := FieldText(CurrentBot(st), f);
      && r.bot
      && OnlyCurrentBotIs(st, r, WithFieldText(CurrentBot(st), f, if old_ == [] then line else old_ + "\n" + line))
  {
    var f := st.field.value;
    var old_ := FieldText(CurrentBot(st), f);
    var t := if old_ == [] then line else old_ + "\n" + line;
    if old_ != [] {
      assert t[0] == old_[0];
      assert t[|t| - 1] == line[|line| - 1];
      StripStripped(t);
    }
    assert AppendLine(old_, line) == t;
    var b' := WithFieldText(CurrentBot(st), f, t);
    assert OnContent(st, line) == SetCurrentBot(st, b');
  }

  /**
   * In model-link mode a content line that is a URL is stored, stripped, under the current
   * key, overwriting an earlier one; any other line is dropped. The mode stays.
   */
  lemma StepModelLink(st: State, raw: string)
    requires Valid(st) && st.bot && Kind(NormalizeLine(raw)) == ContentLine
    requires st.field == Some(LinkField) && st.model.Some?
    ensures Step(st, raw).Ok?
    ensures var r, line, b := Step(st, raw).value, NormalizeLine(raw), CurrentBot(st);
      && r.bot && r.field == st.field && r.model == st.model
      && (IsHttpLine(line) ==> CurrentBot(r) == b.(models := Put(b.models, st.model.value, line))
                               && Get(CurrentBot(r).models, st.model.value) == Some(line))
      && (IsHttpLine(line) ==> OnlyCurrentBotIs(st, r, b.(models := Put(b.models, st.model.value, line))))
      && (!IsHttpLine(line) ==> r == st)
  {
    var line := NormalizeLine(raw);
    assert Step(st, raw) == Ok(OnContent(st, line));
    OnModelLink(st, line);
  }

  /** `StepModelLink` for the normalised line itself. */
  lemma OnModelLink(st: State, line: string)
    requires Valid(st) && st.bot && Stripped(line) && line != []
    requires st.field == Some(LinkField) && st.model.Some?
    ensures var r, b := OnContent(st, line), CurrentBot(st);
      && r.bot && r.field == st.field && r.model == st.model
      && (IsHttpLine(line) ==> CurrentBot(r) == b.(models := Put(b.models, st.model.value, line))
                               && Get(CurrentBot(r).models, st.model.value) == Some(line))
      && (IsHttpLine(line) ==> OnlyCurrentBotIs(st, r, b.(models := Put(b.models, st.model.value, line))))
      && (!IsHttpLine(line) ==> r == st)
  {
    if IsHttpLine(line) {
      var b := CurrentBot(st);
      OnModelLinkHttp(st, line);
      SetCurrentBotLast(st, b.(models := Put(b.models, st.model.value, line)));
    }
  }

  lemma OnModelLinkHttp(st: State, line: string)
    requires Valid(st) && st.bot && Stripped(line) && line != [] && IsHttpLine(line)
    requires st.field == Some(LinkField) && st.model.Some?
    ensures var b := CurrentBot(st); var b' := b.(models := Put(b.models, st.model.value, line));
      TextsStripped(b') && OnContent(st, line) == SetCurrentBot(st, b')
  {
    StripStripped(line);
  }

  /** The bot just set is the current bot. */
  lemma SetCurrentBotLast(st: State, b: Bot)
    requires Valid(st) && st.bot && TextsStripped(b)
    ensures CurrentBot(SetCurrentBot(st, b)) == b
  {
  }

  function BotsLen(bots: seq<Bot>): nat {
    |bots|
  }

  function CategoriesLen(cats: Dict<seq<Bot>>): nat {
    SumBy(cats, BotsLen)
  }

  /** The number of bots in all packages. */
  function TotalBots(ps: Packages): nat {
    SumBy(ps, CategoriesLen)
  }

  /** The number of `#` lines. */
  function BotTitleCount(lines: seq<string>): nat
    decreases |lines|
  {
    if lines == [] then 0
    else BotTitleCount(lines[..|lines| - 1]) + (if Kind(NormalizeLine(lines[|lines| - 1])) == BotTitleLine then 1 else 0)
  }

  lemma SetCurrentBotCount(st: State, b: Bot)
    requires Valid(st) && st.bot && TextsStripped(b)
    ensures TotalBots(SetCurrentBot(st, b).packages) == TotalBots(st.packages)
  {
    var p, c := st.pkg.value, st.cat.value;
    var cats := Get(st.packages, p).value;
    var bots := Get(cats, c).value;
    var cats' := Put(cats, c, bots[|bots| - 1 := b]);
    SumByPut(cats, c, bots[|bots| - 1 := b], BotsLen);
    SumByPut(st.packages, p, cats', CategoriesLen);
  }

  lemma OnMainTitleCount(st: State, line: string)
    ensures TotalBots(OnMainTitle(st, line).packages) == TotalBots(st.packages)
  {
    var name := TitleValue(line);
    if !HasKey(st.packages, name) {
      SumByPut(st.packages, name, [], CategoriesLen);
    }
  }

  lemma OnSubTitleCount(st: State, line: string)
    requires Valid(st) && st.pkg.Some?
    ensures TotalBots(OnSubTitle(st, line).packages) == TotalBots(st.packages)
  {
    var v := TitleValue(line);
    var name := if v == [] then Uncategorized else v;
    var p := st.pkg.value;
    var cats := Get(st.packages, p).value;
    if !HasKey(cats, name) {
      SumByPut(cats, name, [], BotsLen);
    }
    SumByPut(st.packages, p, SetDefault(cats, name, []), CategoriesLen);
  }

  lemma OnBotTitleCount(st: State, line: string)
    requires Valid(st) && st.pkg.Some?
    ensures TotalBots(OnBotTitle(st, line).packages) == TotalBots(st.packages) + 1
  {
    var p := st.pkg.value;
    var cats0 := Get(st.packages, p).value;
    var cats := if st.cat.None? then SetDefault(cats0, Uncategorized, []) else cats0;
    var c := if st.cat.None? then Uncategorized else st.cat.value;
    if st.cat.None? && !HasKey(cats0, Uncategorized) {
      SumByPut(cats0, Uncategorized, [], BotsLen);
    }
    var bots := Get(cats, c).value;
    var nb := NewBot(Strip(TrimCharStart(line, '#')));
    SumByPut(cats, c, bots + [nb], BotsLen);
    SumByPut(st.packages, p, Put(cats, c, bots + [nb]), CategoriesLen);
  }

  lemma OnContentCount(st: State, line: string)
    requires Valid(st) && Stripped(line)
    ensures TotalBots(OnContent(st, line).packages) == TotalBots(st.packages)
  {
    if st.bot {
      var b := CurrentBot(st);
      match st.field
      case None =>
      case Some(f) =>
        if f != LinkField {
          SetCurrentBotCount(st, WithFieldText(b, f, AppendLine(FieldText(b, f), line)));
        } else if st.model.Some? && st.model.value != [] && IsHttpLine(line) {
          SetCurrentBotCount(st, b.(models := Put(b.models, st.model.value, Strip(line))));
        }
    }
  }

  /** Each line adds one bot if it is a `#` line and none otherwise. */
  lemma StepCount(st: State, raw: string)
    requires Valid(st) && Step(st, raw).Ok?
    ensures TotalBots(Step(st, raw).value.packages)
         == TotalBots(st.packages) + (if Kind(NormalizeLine(raw)) == BotTitleLine then 1 else 0)
  {
    var line := NormalizeLine(raw);
    match Kind(line)
    case Blank =>
    case MainTitleLine =>
      assert Step(st, raw) == Ok(OnMainTitle(st, line));
      OnMainTitleCount(st, line);
    case SubTitleLine =>
      assert Step(st, raw) == Ok(OnSubTitle(st, line));
      OnSubTitleCount(st, line);
    case BotTitleLine =>
      assert Step(st, raw) == Ok(OnBotTitle(st, line));
      OnBotTitleCount(st, line);
    case TagLine =>
      assert Step(st, raw) == Ok(OnTag(st, Strip(line[1..])));
    case ContentLine =>
      assert Step(st, raw) == Ok(OnContent(st, line));
      OnContentCount(st, line);
  }

  /** A successful parse holds exactly one bot per `#` line. */
  lemma {:induction false} RunCount(lines: seq<string>)
    requires Run(lines).Ok?
    ensures TotalBots(Run(lines).value.packages) == BotTitleCount(lines)
    decreases |lines|
  {
    if lines != [] {
      var init := lines[..|lines| - 1];
      RunCount(init);
      StepCount(Run(init).value, lines[|lines| - 1]);
    }
  }

  /** The entries with a non-empty link, in their order. */
  function KeptLinks(models: Dict<string>): Dict<string>
    decreases |models|
  {
    if models == [] then []
    else KeptLinks(models[..|models| - 1]) + (if models[|models| - 1].1 != [] then [models[|models| - 1]] else [])
  }

  lemma {:induction false} KeptLinksMembers(models: Dict<string>)
    ensures forall e :: e in KeptLinks(models) <==> e in models && e.1 != []
    decreases |models|
  {
    if models != [] {
      LastSplit(models);
      KeptLinksMembers(models[..|models| - 1]);
    }
  }

  /** `OrderedDict((k, v) for k, v in models.items() if v)`: the links with a value, in order. */
  function NonEmptyLinks(models: Dict<string>): (r: Dict<string>)
    ensures forall e :: e in r <==> e in models && e.1 != []
  {
    KeptLinksMembers(models);
    KeptLinks(models)
  }

  /** The filter keeps the order: the links of a concatenation are the links of each part in turn. */
  lemma {:induction false} NonEmptyLinksAppend(a: Dict<string>, b: Dict<string>)
    ensures NonEmptyLinks(a + b) == NonEmptyLinks(a) + NonEmptyLinks(b)
  {
    KeptLinksAppend(a, b);
  }

  lemma {:induction false} KeptLinksAppend(a: Dict<string>, b: Dict<string>)
    ensures KeptLinks(a + b) == KeptLinks(a) + KeptLinks(b)
    decreases |b|
  {
    if b == [] {
      assert a + b == a;
    } else {
      var n := |b| - 1;
      assert (a + b)[..|a + b| - 1] == a + b[..n];
      assert (a + b)[|a + b| - 1] == b[n];
      KeptLinksAppend(a, b[..n]);
    }
  }

  /** One entry is kept exactly when its link is not empty. */
  lemma NonEmptyLinksOne(e: (string, string))
    ensures NonEmptyLinks([e]) == if e.1 != [] then [e] else []
  {
    assert [e][..0] == [];
    assert KeptLinks([e]) == KeptLinks([e][..0]) + (if e.1 != [] then [e] else []);
  }

  /** The alias keys of each canonical field, in the order the source adds them. */
  const ModelAliases: seq<string> := ["model", "models", "links"]
  const AboutAliases: seq<string> := ["about", "description"]
  const LimitsAliases: seq<string> := ["limits", "constraints"]
  const ExampleAliases: seq<string> := ["example", "examples"]

  /** Entries `(k, v)` for the keys in order: `entry[k] = v` for each key new to `entry`. */
  function AliasEntries(keys: seq<string>, v: Json): (r: Obj)
    ensures forall p :: p in r <==> p.0 in keys && p.1 == v
    decreases |keys|
  {
    if keys == [] then [] else [(keys[0], v)] + AliasEntries(keys[1..], v)
  }

  /** The entries that the aliases add when `present`. */
  function AliasesIf(keys: seq<string>, v: Json, present: bool): (r: Obj)
    ensures forall p :: p in r <==> present && p.0 in keys && p.1 == v
  {
    if present then AliasEntries(keys, v) else []
  }

  /**
   * The record of a bot from its title, its links and its three text fields: the dict
   * literal, then the aliases of each non-empty value, each appended as a key new to it.
   */
  function Entry(title: string, links: Json, hasLinks: bool, about: string, limits: string, example: string): Obj {
    [("botTitle", JStr(title)), (TheModel, links), (About, JStr(about)), (Limits, JStr(limits)), (Example, JStr(example))]
    + AliasesIf(ModelAliases, links, hasLinks) + AliasesIf(AboutAliases, JStr(about), about != [])
    + AliasesIf(LimitsAliases, JStr(limits), limits != []) + AliasesIf(ExampleAliases, JStr(example), example != [])
  }

  /** Whose entries are exactly those of the record `Entry` builds. */
  ghost predicate EntryShaped(e: Obj, title: string, links: Json, hasLinks: bool, about: string, limits: string, example: string) {
    forall p :: p in e <==>
      || p == ("botTitle", JStr(title)) || p == (TheModel, links) || p == (About, JStr(about))
      || p == (Limits, JStr(limits)) || p == (Example, JStr(example))
      || (hasLinks && p.0 in ModelAliases && p.1 == links)
      || (about != [] && p.0 in AboutAliases && p.1 == JStr(about))
      || (limits != [] && p.0 in LimitsAliases && p.1 == JStr(limits))
      || (example != [] && p.0 in ExampleAliases && p.1 == JStr(example))
  }

  lemma EntryMembers(title: string, links: Json, hasLinks: bool, about: string, limits: string, example: string)
    ensures EntryShaped(Entry(title, links, hasLinks, about, limits, example), title, links, hasLinks, about, limits, example)
  {
    var base := [("botTitle", JStr(title)), (TheModel, links), (About, JStr(about)), (Limits, JStr(limits)), (Example, JStr(example))];
    var m := AliasesIf(ModelAliases, links, hasLinks);
    var ab := AliasesIf(AboutAliases, JStr(about), about != []);
    var li := AliasesIf(LimitsAliases, JStr(limits), limits != []);
    var ex := AliasesIf(ExampleAliases, JStr(example), example != []);
    var e := Entry(title, links, hasLinks, about, limits, example);
    assert e == base + m + ab + li + ex;
    forall p ensures p in e <==> p in base || p in m || p in ab || p in li || p in ex {
    }
  }

  /** A canonical key of a record of that shape holds its value. */
  lemma ShapedCanonical(e: Obj, title: string, links: Json, hasLinks: bool, about: string, limits: string, example: string,
                        k: string, v: Json)
    requires EntryShaped(e, title, links, hasLinks, about, limits, example)
    requires (k, v) in [("botTitle", JStr(title)), (TheModel, links), (About, JStr(about)), (Limits, JStr(limits)), (Example, JStr(example))]
    ensures Get(e, k) == Some(v)
  {
    GetUniform(e, k, v);
  }

  /** An alias of a record of that shape is there exactly when its value is non-empty. */
  lemma ShapedAlias(e: Obj, title: string, links: Json, hasLinks: bool, about: string, limits: string, example: string,
                    a: string, v: Json, present: bool)
    requires EntryShaped(e, title, links, hasLinks, about, limits, example)
    requires || (a in ModelAliases && v == links && present == hasLinks)
             || (a in AboutAliases && v == JStr(about) && present == (about != []))
             || (a in LimitsAliases && v == JStr(limits) && present == (limits != []))
             || (a in ExampleAliases && v == JStr(example) && present == (example != []))
    ensures Get(e, a) == if present then Some(v) else None
  {
    if present { GetUniform(e, a, v); } else { GetAbsentKey(e, a); }
  }

  /** `enrich_bot_entry`: the exported record, with the English aliases of the non-empty fields. */
  function EnrichBotEntry(bot: Bot): Obj {
    var linkDict := NonEmptyLinks(bot.models);
    Entry(bot.botTitle, JObj(StrObj(linkDict)), linkDict != [], Strip(bot.about), Strip(bot.limits), Strip(bot.example))
  }

  /**
   * The record holds the title, the non-empty links and the stripped text fields under their
   * Arabic keys; each alias is present exactly when its value is non-empty, and then equals it.
   */
  lemma EnrichBotEntryFields(bot: Bot)
    ensures var e, links := EnrichBotEntry(bot), JObj(StrObj(NonEmptyLinks(bot.models)));
      var about, limits, example := Strip(bot.about), Strip(bot.limits), Strip(bot.example);
      && Get(e, "botTitle") == Some(JStr(bot.botTitle))
      && Get(e, TheModel) == Some(links)
      && Get(e, About) == Some(JStr(about))
      && Get(e, Limits) == Some(JStr(limits))
      && Get(e, Example) == Some(JStr(example))
      && (forall a :: a in ModelAliases ==> Get(e, a) == if NonEmptyLinks(bot.models) != [] then Some(links) else None)
      && (forall a :: a in AboutAliases ==> Get(e, a) == if about != [] then Some(JStr(about)) else None)
      && (forall a :: a in LimitsAliases ==> Get(e, a) == if limits != [] then Some(JStr(limits)) else None)
      && (forall a :: a in ExampleAliases ==> Get(e, a) == if example != [] then Some(JStr(example)) else None)
  {
    var linkDict := NonEmptyLinks(bot.models);
    var title, links, has := bot.botTitle, JObj(StrObj(linkDict)), linkDict != [];
    var about, limits, example := Strip(bot.about), Strip(bot.limits), Strip(bot.example);
    var e := Entry(title, links, has, about, limits, example);
    EntryMembers(title, links, has, about, limits, example);
    ShapedCanonical(e, title, links, has, about, limits, example, "botTitle", JStr(title));
    ShapedCanonical(e, title, links, has, about, limits, example, TheModel, links);
    ShapedCanonical(e, title, links, has, about, limits, example, About, JStr(about));
    ShapedCanonical(e, title, links, has, about, limits, example, Limits, JStr(limits));
    ShapedCanonical(e, title, links, has, about, limits, example, Example, JStr(example));
    forall a | a in ModelAliases ensures Get(e, a) == if has then Some(links) else None {
      ShapedAlias(e, title, links, has, about, limits, example, a, links, has);
    }
    forall a | a in AboutAliases ensures Get(e, a) == if about != [] then Some(JStr(about)) else None {
      ShapedAlias(e, title, links, has, about, limits, example, a, JStr(about), about != []);
    }
    forall a | a in LimitsAliases ensures Get(e, a) == if limits != [] then Some(JStr(limits)) else None {
      ShapedAlias(e, title, links, has, about, limits, example, a, JStr(limits), limits != []);
    }
    forall a | a in ExampleAliases ensures Get(e, a) == if example != [] then Some(JStr(example)) else None {
      ShapedAlias(e, title, links, has, about, limits, example, a, JStr(example), example != []);
    }
  }

  /** The key of a catalog package, stripped, as the id mapping reads it. */
  function PackageName(p: Package): string {
    Strip(p.package)
  }

  /** The name-to-id mapping of a catalog, package by package, a later package overwriting. */
  function ExistingIds(catalog: Catalog): map<string, Json>
    decreases |catalog|
  {
    if catalog == [] then map[]
    else
      var ids, last := ExistingIds(catalog[..|catalog| - 1]), catalog[|catalog| - 1];
      if PackageName(last) != [] then ids[PackageName(last) := last.packageId] else ids
  }

  /** `load_existing_package_ids` over a loaded catalog. */
  method LoadExistingPackageIds(catalog: Catalog) returns (ids: map<string, Json>)
    ensures ids == ExistingIds(catalog)
  {
    ids := map[];
    var i := 0;
    while i < |catalog|
      invariant 0 <= i <= |catalog|
      invariant ids == ExistingIds(catalog[..i])
    {
      assert catalog[..i + 1][..i] == catalog[..i];
      var name := PackageName(catalog[i]);
      if name != [] {
        ids := ids[name := catalog[i].packageId];
      }
      i := i + 1;
    }
    assert catalog[..i] == catalog;
  }

  /**
   * The mapping holds exactly the non-blank stripped names, and a name maps to the id of the
   * last package that has it.
   */
  lemma {:induction false} ExistingIdsSpec(catalog: Catalog)
    ensures forall k :: k in ExistingIds(catalog) <==> k != [] && exists i :: 0 <= i < |catalog| && PackageName(catalog[i]) == k
    ensures forall i :: 0 <= i < |catalog| && PackageName(catalog[i]) != []
              && (forall j :: i < j < |catalog| ==> PackageName(catalog[j]) != PackageName(catalog[i]))
              ==> ExistingIds(catalog)[PackageName(catalog[i])] == catalog[i].packageId
  {
    ExistingIdsKeys(catalog);
    ExistingIdsValues(catalog);
  }

  lemma {:induction false} ExistingIdsKeys(catalog: Catalog)
    ensures forall k :: k in ExistingIds(catalog) <==> k != [] && exists i :: 0 <= i < |catalog| && PackageName(catalog[i]) == k
    decreases |catalog|
  {
    if catalog != [] {
      var n := |catalog| - 1;
      var init := catalog[..n];
      ExistingIdsKeys(init);
      forall k ensures k in ExistingIds(catalog) <==> k != [] && exists i :: 0 <= i < |catalog| && PackageName(catalog[i]) == k {
        if k != [] && k == PackageName(catalog[n]) {
          assert PackageName(catalog[n]) == k;
        } else {
          if i :| 0 <= i < |catalog| && PackageName(catalog[i]) == k {
            if i < n {
              assert init[i] == catalog[i];
            }
          }
          if i :| 0 <= i < |init| && PackageName(init[i]) == k {
            assert catalog[i] == init[i];
          }
        }
      }
    }
  }

  lemma {:induction false} ExistingIdsValues(catalog: Catalog)
    ensures forall i :: 0 <= i < |catalog| && PackageName(catalog[i]) != []
              && (forall j :: i < j < |catalog| ==> PackageName(catalog[j]) != PackageName(catalog[i]))
              ==> PackageName(catalog[i]) in ExistingIds(catalog)
                  && ExistingIds(catalog)[PackageName(catalog[i])] == catalog[i].packageId
    decreases |catalog|
  {
    if catalog != [] {
      var n := |catalog| - 1;
      var init := catalog[..n];
      ExistingIdsValues(init);
      forall i | 0 <= i < |catalog| && PackageName(catalog[i]) != []
                 && (forall j :: i < j < |catalog| ==> PackageName(catalog[j]) != PackageName(catalog[i]))
        ensures PackageName(catalog[i]) in ExistingIds(catalog)
                && ExistingIds(catalog)[PackageName(catalog[i])] == catalog[i].packageId
      {
        if i < n {
          assert init[i] == catalog[i];
          assert forall j :: i < j < |init| ==> init[j] == catalog[j];
        }
      }
    }
  }

  /** Each bot of a category exported by `enrich_bot_entry`, in order. */
  predicate BotsExported(out: seq<Obj>, bots: seq<Bot>) {
    |out| == |bots| && forall k :: 0 <= k < |bots| ==> out[k] == EnrichBotEntry(bots[k])
  }

  /** Each category exported under its name, in order. */
  predicate CategoriesExported(out: seq<Category>, cats: Dict<seq<Bot>>) {
    |out| == |cats| && forall j :: 0 <= j < |cats| ==> out[j].category == cats[j].0 && BotsExported(out[j].bots, cats[j].1)
  }

  /** The innermost loop of `build_payload`: each bot of a category through `enrich_bot_entry`. */
  method ExportBots(bots: seq<Bot>) returns (entries: seq<Obj>)
    ensures BotsExported(entries, bots)
  {
    entries := [];
    var k := 0;
    while k < |bots|
      invariant 0 <= k <= |bots| && |entries| == k
      invariant forall kk :: 0 <= kk < k ==> entries[kk] == EnrichBotEntry(bots[kk])
    {
      entries := entries + [EnrichBotEntry(bots[k])];
      k := k + 1;
    }
  }

  /** The middle loop of `build_payload`: the categories of one package, in order. */
  method ExportCategories(categories: Dict<seq<Bot>>) returns (cats: seq<Category>)
    ensures CategoriesExported(cats, categories)
  {
    cats := [];
    var j := 0;
    while j < |categories|
      invariant 0 <= j <= |categories| && |cats| == j
      invariant forall jj :: 0 <= jj < j ==> cats[jj].category == categories[jj].0 && BotsExported(cats[jj].bots, categories[jj].1)
    {
      var (catName, bots) := categories[j];
      var entries := ExportBots(bots);
      cats := cats + [Category(catName, entries)];
      j := j + 1;
    }
  }

  /**
   * `build_payload`: packages, categories and bots in their order; a package's id is the
   * earlier id of its name when there is one, and its 1-based position otherwise. The bots
   * exported are as many as the packages hold.
   */
  method BuildPayload(packages: Packages, existingIds: map<string, Json>) returns (payload: Catalog)
    ensures |payload| == |packages|
    ensures forall i :: 0 <= i < |packages| ==> payload[i].package == packages[i].0
    ensures forall i :: 0 <= i < |packages| ==>
              payload[i].packageId == if packages[i].0 in existingIds then existingIds[packages[i].0] else JNum(i + 1)
    ensures forall i :: 0 <= i < |packages| ==> CategoriesExported(payload[i].categories, packages[i].1)
    ensures CatalogBotCount(payload) == TotalBots(packages)
  {
    payload := [];
    var index := 0;
    while index < |packages|
      invariant 0 <= index <= |packages| && |payload| == index
      invariant forall i :: 0 <= i < index ==> payload[i].package == packages[i].0
      invariant forall i :: 0 <= i < index ==>
                  payload[i].packageId == if packages[i].0 in existingIds then existingIds[packages[i].0] else JNum(i + 1)
      invariant forall i :: 0 <= i < index ==> CategoriesExported(payload[i].categories, packages[i].1)
    {
      var (name, categories) := packages[index];
      var pkgId := if name in existingIds then existingIds[name] else JNum(index + 1);
      var cats := ExportCategories(categories);
      payload := payload + [Package(name, pkgId, cats)];
      index := index + 1;
    }
    ExportedCount(payload, packages);
  }

  /** Exported categories hold as many bots as the categories they come from. */
  lemma {:induction false} ExportedCategoriesCount(out: seq<Category>, cats: Dict<seq<Bot>>)
    requires CategoriesExported(out, cats)
    ensures CategoriesBotCount(out) == CategoriesLen(cats)
    decreases |cats|
  {
    if cats != [] {
      var n := |cats| - 1;
      assert CategoriesExported(out[..n], cats[..n]);
      ExportedCategoriesCount(out[..n], cats[..n]);
    }
  }

  /** An exported catalog holds as many bots as the packages it comes from. */
  lemma {:induction false} ExportedCount(payload: Catalog, packages: Packages)
    requires |payload| == |packages|
    requires forall i :: 0 <= i < |packages| ==> CategoriesExported(payload[i].categories, packages[i].1)
    ensures CatalogBotCount(payload) == TotalBots(packages)
    decreases |packages|
  {
    if packages != [] {
      var n := |packages| - 1;
      ExportedCount(payload[..n], packages[..n]);
      ExportedCategoriesCount(payload[n].categories, packages[n].1);
    }
  }
}
