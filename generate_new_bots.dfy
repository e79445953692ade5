/**
 * `scripts/generate_new_bots_json.py`: the chunk-by-chunk builder of `public/new_bots.json`.
 * Unlike the combined-document parser it never fails: a sub-title or bot title with no
 * package or category in force goes under the fallback names. Finished bots are exported
 * through `flush_bot`, which keeps only http(s) model links and adds English aliases.
 */
module GenerateNewBots {
  import opened Options
  import opened Text
  import opened Dict
  import opened Json
  import opened Labels

  // ---------------------------------------------------------------------------------------
  // Normalisers
  // ---------------------------------------------------------------------------------------

  /**
   * The scheme test of `urlparse`: the scheme is the text before the first ':', when that text
   * is not empty, compared lower-cased.
   */
  predicate HasWebScheme(v: string) {
    match IndexOf(v, ":")
    case None => false
    case Some(i) => i > 0 && Lower(v[..i]) in {"http", "https"}
  }

  /** `to_safe_url`: the trimmed value when it is an http(s) address, '' otherwise. */
  function ToSafeUrl(value: string): (r: string)
    ensures r == [] || (r == Strip(value) && HasWebScheme(r))
    ensures Stripped(r)
  {
    var v := Strip(value);
    if v == [] then []
    else if HasWebScheme(v) then v
    else []
  }

  lemma LowerPrefix(s: string, n: nat)
    requires n <= |s|
    ensures Lower(s[..n]) == Lower(s)[..n]
  {
  }

  /** Lower-casing maps ':' to itself and nothing else to ':'. */
  lemma LowerColon(s: string, j: nat)
    requires j < |s|
    ensures Lower(s)[j] == ':' <==> s[j] == ':'
  {
  }

  /** The first ':' stands at `n` when it is there and nowhere before. */
  lemma FirstColonAt(v: string, n: nat)
    requires n < |v| && v[n] == ':'
    requires forall j :: 0 <= j < n ==> v[j] != ':'
    ensures IndexOf(v, ":") == Some(n)
  {
    assert OccursAt(v, ":", n);
    var i := IndexOf(v, ":").value;
    assert v[i..i + 1] == ":";
    assert v[i] == ':';
  }

  /** A text starting (in any case) with `scheme` and then ':' has exactly that scheme. */
  lemma SchemeFromPrefix(v: string, scheme: string)
    requires scheme in {"http", "https"}
    requires scheme + ":" <= Lower(v)
    ensures HasWebScheme(v)
  {
    var n := |scheme|;
    LowerColon(v, n);
    forall j | 0 <= j < n ensures v[j] != ':' {
      assert Lower(v)[j] == scheme[j];
      LowerColon(v, j);
    }
    FirstColonAt(v, n);
    LowerPrefix(v, n);
    assert Lower(v)[..n] == (scheme + ":")[..n] == scheme;
  }

  /** The scheme is http or https exactly when the text starts, in any case, with "http:" or "https:". */
  lemma WebSchemeByPrefix(v: string)
    ensures HasWebScheme(v) <==> "http:" <= Lower(v) || "https:" <= Lower(v)
  {
    if HasWebScheme(v) {
      var i := IndexOf(v, ":").value;
      LowerPrefix(v, i);
      assert v[i..i + 1] == ":";
      LowerColon(v, i);
      if Lower(v[..i]) == "http" {
        assert Lower(v)[..5] == Lower(v)[..4] + [Lower(v)[4]] == "http:";
      } else {
        assert Lower(v)[..6] == Lower(v)[..5] + [Lower(v)[5]] == "https:";
      }
    }
    if "http:" <= Lower(v) {
      SchemeFromPrefix(v, "http");
    } else if "https:" <= Lower(v) {
      SchemeFromPrefix(v, "https");
    }
  }

  /**
   * What `to_safe_url` keeps, stated without the scheme parser: the trimmed input when it
   * begins with "http:" or "https:" in any case, otherwise '' (also for blank input).
   */
  lemma ToSafeUrlByPrefix(value: string)
    ensures ToSafeUrl(value)
         == if "http:" <= Lower(Strip(value)) || "https:" <= Lower(Strip(value)) then Strip(value) else []
  {
    WebSchemeByPrefix(Strip(value));
  }

  /** A safe address is its own safe form. */
  lemma ToSafeUrlIdempotent(value: string)
    ensures ToSafeUrl(ToSafeUrl(value)) == ToSafeUrl(value)
  {
    StripStripped(ToSafeUrl(value));
  }

  /** The cleaning half of `normalize_model_key`. */
  function CleanModelToken(raw: string): string {
    var t0 := ReplaceAll(Lower(Strip(raw)), [ArabicZero], "0");
    ReplaceAll(ReplaceAll(ReplaceAll(ReplaceAll(t0, "gpt-", ""), "gpt", ""), "-", ""), " ", "")
  }

  /** Cleaning leaves neither hyphen nor space. */
  lemma CleanModelTokenShape(raw: string)
    ensures ' ' !in CleanModelToken(raw) && '-' !in CleanModelToken(raw)
  {
    var t0 := ReplaceAll(Lower(Strip(raw)), [ArabicZero], "0");
    var t1 := ReplaceAll(ReplaceAll(t0, "gpt-", ""), "gpt", "");
    var t2 := ReplaceAll(t1, "-", "");
    ReplaceCharGone(t1, '-', "");
    ReplaceCharGone(t2, ' ', "");
    ReplaceByNothingSubset(t2, " ", '-');
  }

  /** `normalize_model_key`: the key a `@نموذج` label stores its link under. */
  function NormalizeModelKey(raw: string): (r: string)
    ensures r != []
    ensures ' ' !in r
    ensures r == "4o-mini" || '-' !in r
  {
    var t := CleanModelToken(raw);
    CleanModelTokenShape(raw);
    if t in {"4o", "4"} then "4o"
    else if t in {"4omini", "4omin"} then "4o-mini"
    else if t in {"5", "gpt5"} then "5"
    else if t == [] then "4o"
    else t
  }

  /**
   * The branches of `normalize_model_key` on the cleaned token: `4o` for `4o`, `4` or nothing,
   * `4o-mini` for `4omini` or `4omin`, `5` for `5` or `gpt5`, and any other token itself.
   */
  lemma NormalizeModelKeyCases(raw: string)
    ensures var t, r := CleanModelToken(raw), NormalizeModelKey(raw);
      && (r == "4o" <==> t in {"", "4o", "4"})
      && (r == "4o-mini" <==> t in {"4omini", "4omin"})
      && (r == "5" <==> t in {"5", "gpt5"})
      && (t !in {"", "4o", "4", "4omini", "4omin", "5", "gpt5"} ==> r == t)
  {
    CleanModelTokenShape(raw);
    assert '-' in "4o-mini";
  }

  /** Labels whose cleaned token is not one of the named models pass through cleaned. */
  lemma NormalizeModelKeyPassThrough(raw: string)
    requires CleanModelToken(raw) !in {"", "4o", "4", "4omini", "4omin", "5", "gpt5"}
    ensures NormalizeModelKey(raw) == CleanModelToken(raw)
  {
  }

  /**
   * The cleaning of a label whose lower-cased, trimmed form `low` has no Arabic zero and loses
   * its "gpt" parts to become `t`, which has neither hyphen nor space.
   */
  lemma CleanModelTokenIs(raw: string, low: string, t: string)
    requires Lower(Strip(raw)) == low && ArabicZero !in low
    requires ReplaceAll(ReplaceAll(low, "gpt-", ""), "gpt", "") == t
    requires '-' !in t && ' ' !in t
    ensures CleanModelToken(raw) == t
  {
    ReplaceAbsent(low, [ArabicZero], "0");
    ReplaceAbsent(t, "-", "");
    ReplaceAbsent(t, " ", "");
  }

  lemma LowerGpt4o()
    ensures Lower(Strip("GPT-4O")) == "gpt-4o"
  {
    StripStripped("GPT-4O");
    assert Lower("GPT-4O") == "gpt-4o";
  }

  lemma DropGpt4o()
    ensures ReplaceAll(ReplaceAll("gpt-4o", "gpt-", ""), "gpt", "") == "4o"
  {
    assert "gpt-4o"[4..] == "4o";
    ReplaceAbsent("4o", "gpt-", "");
    ReplaceAbsent("4o", "gpt", "");
  }

  lemma LowerGpt4oJoined()
    ensures Lower(Strip("gpt4o")) == "gpt4o"
  {
    StripStripped("gpt4o");
    assert Lower("gpt4o") == "gpt4o";
  }

  lemma DropGpt4oJoined()
    ensures ReplaceAll(ReplaceAll("gpt4o", "gpt-", ""), "gpt", "") == "4o"
  {
    assert "gpt4o"[1..] == "pt4o";
    ReplaceAbsent("pt4o", "gpt-", "");
    assert ReplaceAll("gpt4o", "gpt-", "") == "gpt4o";
    assert "gpt4o"[3..] == "4o";
    ReplaceAbsent("4o", "gpt", "");
  }

  lemma CleanGpt4o()
    ensures CleanModelToken("GPT-4O") == "4o"
  {
    LowerGpt4o();
    DropGpt4o();
    CleanModelTokenIs("GPT-4O", "gpt-4o", "4o");
  }

  lemma CleanGpt4oJoined()
    ensures CleanModelToken("gpt4o") == "4o"
  {
    LowerGpt4oJoined();
    DropGpt4oJoined();
    CleanModelTokenIs("gpt4o", "gpt4o", "4o");
  }

  lemma CleanFour()
    ensures CleanModelToken("4") == "4"
  {
    assert Lower(Strip("4")) == "4" by {
      StripStripped("4");
      assert Lower("4") == "4";
    }
    ReplaceAbsent("4", "gpt-", "");
    ReplaceAbsent("4", "gpt", "");
    CleanModelTokenIs("4", "4", "4");
  }

  /** A label that cleans to "4o", "4" or nothing names 4o. */
  lemma NormalizeModelKeyTo4o(raw: string)
    requires CleanModelToken(raw) in {"4o", "4", ""}
    ensures NormalizeModelKey(raw) == "4o"
  {
  }

  /** "GPT-4O", "gpt4o" and "4" all name 4o, and so does an empty label. */
  lemma NormalizeModelKeyExamples(raw: string)
    requires raw in {"GPT-4O", "gpt4o", "4", ""}
    ensures NormalizeModelKey(raw) == "4o"
  {
    CleanGpt4o();
    CleanGpt4oJoined();
    CleanFour();
    CleanModelTokenIs("", "", "");
    NormalizeModelKeyTo4o(raw);
  }

  /** `FIELD_NORMALIZATION`: the accepted field labels and their canonical names. */
  const FieldNormalization: Dict<string> := [(About, About), (TheAbout, About), (Limits, Limits), (Example, Example)]

  const CanonicalFields: set<string> := {About, Limits, Example}

  /** `normalize_field`: the canonical field a label names, looked up after stripping. */
  function NormalizeField(tagText: string): (r: Option<string>)
    ensures r.Some? ==> r.value in CanonicalFields
  {
    var base := Strip(tagText);
    match Get(FieldNormalization, base)
    case Some(f) => Some(f)
    case None => if base in CanonicalFields then Some(base) else None
  }

  /**
   * The accepted labels, one by one: نبذة and النبذة give نبذة, حدود and مثال give
   * themselves, and every other stripped label gives None.
   */
  lemma NormalizeFieldCases(tagText: string)
    ensures NormalizeField(tagText) == Some(About) <==> Strip(tagText) in {About, TheAbout}
    ensures NormalizeField(tagText) == Some(Limits) <==> Strip(tagText) == Limits
    ensures NormalizeField(tagText) == Some(Example) <==> Strip(tagText) == Example
    ensures NormalizeField(tagText).None? <==> Strip(tagText) !in {About, TheAbout, Limits, Example}
  {
    var base := Strip(tagText);
    var d := FieldNormalization;
    if base == About {
      GetUniform(d, base, About);
    } else if base == TheAbout {
      GetUniform(d, base, About);
    } else if base == Limits {
      GetUniform(d, base, Limits);
    } else if base == Example {
      GetUniform(d, base, Example);
    } else {
      GetAbsentKey(d, base);
    }
  }

  /** The stripped, non-blank lines, in order. */
  function NonBlankLines(lines: seq<string>): (r: seq<string>)
    ensures forall i :: 0 <= i < |r| ==> r[i] != [] && Stripped(r[i])
    ensures |r| <= |lines|
    decreases |lines|
  {
    if lines == [] then []
    else
      var rest := NonBlankLines(lines[..|lines| - 1]);
      var last := Strip(lines[|lines| - 1]);
      if last == [] then rest else rest + [last]
  }

  /** `collapse_lines`. */
  function CollapseLines(lines: seq<string>): (r: string)
    ensures Stripped(r)
  {
    Strip(Join("\n", NonBlankLines(lines)))
  }

  /**
   * The final trim of `collapse_lines` never removes anything: the result is the stripped
   * non-blank lines joined by newlines, and '' when there are none.
   */
  lemma CollapseLinesJoin(lines: seq<string>)
    ensures CollapseLines(lines) == Join("\n", NonBlankLines(lines))
    ensures NonBlankLines(lines) == [] <==> CollapseLines(lines) == []
  {
    var parts := NonBlankLines(lines);
    JoinStripped("\n", parts);
    StripStripped(Join("\n", parts));
    if parts != [] {
      JoinStartsWithFirst("\n", parts);
    }
  }

  // ---------------------------------------------------------------------------------------
  // The exported bot record (`flush_bot`)
  // ---------------------------------------------------------------------------------------

  /** A bot being read: its title, the lines of each field and the raw model links. */
  datatype RawBot = RawBot(title: string, fields: Dict<seq<string>>, models: Dict<string>)

  /** The loop over `models_raw`: the models whose link is a safe http(s) address, with that address. */
  function SafeModels(raw: Dict<string>): (r: Dict<string>)
    ensures DistinctKeys(r)
    decreases |raw|
  {
    if raw == [] then []
    else
      var prior := SafeModels(raw[..|raw| - 1]);
      var (k, v) := raw[|raw| - 1];
      if ToSafeUrl(v) == [] then prior else Put(prior, k, ToSafeUrl(v))
  }

  /**
   * A model survives exactly when its link is safe, and then holds the trimmed link;
   * every value kept is non-empty.
   */
  lemma {:induction false} SafeModelsGet(raw: Dict<string>, k: string)
    requires DistinctKeys(raw)
    ensures Get(SafeModels(raw), k)
         == match Get(raw, k)
            case Some(v) => if ToSafeUrl(v) == [] then None else Some(ToSafeUrl(v))
            case None => None
    decreases |raw|
  {
    if raw != [] {
      var init := raw[..|raw| - 1];
      assert forall i :: 0 <= i < |init| ==> init[i] == raw[i];
      SafeModelsGet(init, k);
      GetLastEntry(raw, k);
    }
  }

  /** `models.get('4o') or models.get('5') or ''` */
  function PrimaryLink(models: Dict<string>): string {
    match Get(models, "4o")
    case Some(v) =>
      if v != [] then v
      else (match Get(models, "5") case Some(w) => w case None => [])
    case None =>
      match Get(models, "5") case Some(w) => w case None => []
  }

  /** The primary link is the 4o link, else the 5 link, else nothing. */
  lemma PrimaryLinkChoice(models: Dict<string>)
    ensures PrimaryLink(models) == []
         || Get(models, "4o") == Some(PrimaryLink(models))
         || Get(models, "5") == Some(PrimaryLink(models))
    ensures Get(models, "4o").Some? && Get(models, "4o").value != [] ==> PrimaryLink(models) == Get(models, "4o").value
    ensures PrimaryLink(models) == [] <==>
              (Get(models, "4o").None? || Get(models, "4o").value == [])
              && (Get(models, "5").None? || Get(models, "5").value == [])
  {
  }

  /** The record `flush_bot` appends, key by key in the order the source assigns them. */
  function BotRecord(title: string, links: Json, about: string, limits: string, example: string, primary: string): Obj {
    [("botTitle", JStr(title)), (TheModel, links), (About, JStr(about)), (Limits, JStr(limits)), (Example, JStr(example))]
    + (if primary != [] then [("url", JStr(primary))] else [])
    + [("model", links), ("models", links), ("links", links),
       ("about", JStr(about)), ("description", JStr(about)),
       ("limits", JStr(limits)), ("constraints", JStr(limits)),
       ("example", JStr(example)), ("examples", JStr(example)),
       ("hasLink", JBool(primary != []))]
  }

  /** `collapse_lines(fields.get(name, []))` */
  function FieldText(bot: RawBot, name: string): string {
    CollapseLines(Get(bot.fields, name).GetOr([]))
  }

  /** The record for a finished bot. */
  function ExportBot(bot: RawBot): Obj {
    var models := SafeModels(bot.models);
    BotRecord(bot.title, JObj(StrObj(models)), FieldText(bot, About), FieldText(bot, Limits),
              FieldText(bot, Example), PrimaryLink(models))
  }

  /** The entries of a record, described without the list. */
  ghost predicate RecordShaped(e: Obj, title: string, links: Json, about: string, limits: string, example: string, primary: string) {
    forall p :: p in e <==> RecordEntry(p, title, links, about, limits, example, primary)
  }

  /** One entry the record of those fields may hold. */
  ghost predicate RecordEntry(p: (string, Json), title: string, links: Json, about: string, limits: string, example: string, primary: string) {
      || p == ("botTitle", JStr(title))
      || (p.0 in {TheModel, "model", "models", "links"} && p.1 == links)
      || (p.0 in {About, "about", "description"} && p.1 == JStr(about))
      || (p.0 in {Limits, "limits", "constraints"} && p.1 == JStr(limits))
      || (p.0 in {Example, "example", "examples"} && p.1 == JStr(example))
      || (primary != [] && p == ("url", JStr(primary)))
      || p == ("hasLink", JBool(primary != []))
  }

  lemma BotRecordShaped(title: string, links: Json, about: string, limits: string, example: string, primary: string)
    ensures RecordShaped(BotRecord(title, links, about, limits, example, primary), title, links, about, limits, example, primary)
  {
    var head: Obj := [("botTitle", JStr(title)), (TheModel, links), (About, JStr(about)), (Limits, JStr(limits)), (Example, JStr(example))];
    var url: Obj := if primary != [] then [("url", JStr(primary))] else [];
    var tail: Obj := [("model", links), ("models", links), ("links", links),
       ("about", JStr(about)), ("description", JStr(about)),
       ("limits", JStr(limits)), ("constraints", JStr(limits)),
       ("example", JStr(example)), ("examples", JStr(example)),
       ("hasLink", JBool(primary != []))];
    var e := BotRecord(title, links, about, limits, example, primary);
    assert e == head + url + tail;
    forall p | p in e ensures RecordEntry(p, title, links, about, limits, example, primary) {
      assert p in head || p in url || p in tail;
    }
    forall p | RecordEntry(p, title, links, about, limits, example, primary) ensures p in e {
      assert p in head || p in url || p in tail;
    }
  }

  /** A key of a record of that shape holds the one value the shape gives it. */
  lemma ShapedGet(e: Obj, title: string, links: Json, about: string, limits: string, example: string, primary: string,
                  k: string, v: Json)
    requires RecordShaped(e, title, links, about, limits, example, primary)
    requires || (k == "botTitle" && v == JStr(title))
             || (k in {TheModel, "model", "models", "links"} && v == links)
             || (k in {About, "about", "description"} && v == JStr(about))
             || (k in {Limits, "limits", "constraints"} && v == JStr(limits))
             || (k in {Example, "example", "examples"} && v == JStr(example))
             || (k == "url" && primary != [] && v == JStr(primary))
             || (k == "hasLink" && v == JBool(primary != []))
    ensures Get(e, k) == Some(v)
  {
    GetUniform(e, k, v);
  }

  /**
   * The record keeps its canonical keys and mirrors them under every English alias:
   * the filtered models under النموذج, model, models and links; each text under its Arabic
   * and English names; `url` exactly when there is a primary link; and `hasLink` saying
   * whether there is one.
   */
  lemma BotRecordFields(title: string, links: Json, about: string, limits: string, example: string, primary: string)
    ensures var e := BotRecord(title, links, about, limits, example, primary);
      && Get(e, "botTitle") == Some(JStr(title))
      && (forall k :: k in {TheModel, "model", "models", "links"} ==> Get(e, k) == Some(links))
      && (forall k :: k in {About, "about", "description"} ==> Get(e, k) == Some(JStr(about)))
      && (forall k :: k in {Limits, "limits", "constraints"} ==> Get(e, k) == Some(JStr(limits)))
      && (forall k :: k in {Example, "example", "examples"} ==> Get(e, k) == Some(JStr(example)))
      && Get(e, "url") == (if primary != [] then Some(JStr(primary)) else None)
      && Get(e, "hasLink") == Some(JBool(primary != []))
  {
    BotRecordShaped(title, links, about, limits, example, primary);
    ShapedFields(BotRecord(title, links, about, limits, example, primary), title, links, about, limits, example, primary);
  }

  /** Every key of a shaped record, looked up. */
  lemma ShapedFields(e: Obj, title: string, links: Json, about: string, limits: string, example: string, primary: string)
    requires RecordShaped(e, title, links, about, limits, example, primary)
    ensures
      && Get(e, "botTitle") == Some(JStr(title))
      && (forall k :: k in {TheModel, "model", "models", "links"} ==> Get(e, k) == Some(links))
      && (forall k :: k in {About, "about", "description"} ==> Get(e, k) == Some(JStr(about)))
      && (forall k :: k in {Limits, "limits", "constraints"} ==> Get(e, k) == Some(JStr(limits)))
      && (forall k :: k in {Example, "example", "examples"} ==> Get(e, k) == Some(JStr(example)))
      && Get(e, "url") == (if primary != [] then Some(JStr(primary)) else None)
      && Get(e, "hasLink") == Some(JBool(primary != []))
  {
    ShapedGet(e, title, links, about, limits, example, primary, "botTitle", JStr(title));
    forall k | k in {TheModel, "model", "models", "links"} ensures Get(e, k) == Some(links) {
      ShapedGet(e, title, links, about, limits, example, primary, k, links);
    }
    forall k | k in {About, "about", "description"} ensures Get(e, k) == Some(JStr(about)) {
      ShapedGet(e, title, links, about, limits, example, primary, k, JStr(about));
    }
    forall k | k in {Limits, "limits", "constraints"} ensures Get(e, k) == Some(JStr(limits)) {
      ShapedGet(e, title, links, about, limits, example, primary, k, JStr(limits));
    }
    forall k | k in {Example, "example", "examples"} ensures Get(e, k) == Some(JStr(example)) {
      ShapedGet(e, title, links, about, limits, example, primary, k, JStr(example));
    }
    if primary != [] {
      ShapedGet(e, title, links, about, limits, example, primary, "url", JStr(primary));
    } else {
      GetAbsentKey(e, "url");
    }
    ShapedGet(e, title, links, about, limits, example, primary, "hasLink", JBool(primary != []));
  }

  /**
   * The exported record of a bot: its models are exactly the raw models with a safe link,
   * and `url` and `hasLink` follow the primary link of those.
   */
  lemma ExportBotFields(bot: RawBot)
    requires DistinctKeys(bot.models)
    ensures var e := ExportBot(bot); var models := SafeModels(bot.models); var primary := PrimaryLink(models);
      && Get(e, "botTitle") == Some(JStr(bot.title))
      && (forall k :: k in {TheModel, "model", "models", "links"} ==> Get(e, k) == Some(JObj(StrObj(models))))
      && (forall k :: k in {About, "about", "description"} ==> Get(e, k) == Some(JStr(FieldText(bot, About))))
      && (forall k :: k in {Limits, "limits", "constraints"} ==> Get(e, k) == Some(JStr(FieldText(bot, Limits))))
      && (forall k :: k in {Example, "example", "examples"} ==> Get(e, k) == Some(JStr(FieldText(bot, Example))))
      && Get(e, "url") == (if primary != [] then Some(JStr(primary)) else None)
      && Get(e, "hasLink") == Some(JBool(primary != []))
      && (forall m :: Get(models, m).Some? <==> Get(bot.models, m).Some? && ToSafeUrl(Get(bot.models, m).value) != [])
  {
    var models := SafeModels(bot.models);
    BotRecordFields(bot.title, JObj(StrObj(models)), FieldText(bot, About), FieldText(bot, Limits),
                    FieldText(bot, Example), PrimaryLink(models));
    forall m ensures Get(models, m).Some? <==> Get(bot.models, m).Some? && ToSafeUrl(Get(bot.models, m).value) != [] {
      SafeModelsGet(bot.models, m);
    }
  }

  // ---------------------------------------------------------------------------------------
  // The builder state
  // ---------------------------------------------------------------------------------------

  /** The packages in first-seen order, each with its name and categories (ids come last). */
  type Packages = Dict<seq<Category>>

  /**
   * The loop's variables: the package list, the current package and category as positions,
   * the bot being read, the field its text goes to and the pending model key. `package_map`
   * and `category_map` only index the lists by name; here a lookup searches the lists
   * themselves, and `RunNamesDistinct` shows the names it searches are unique, so it finds
   * what the maps would hold.
   */
  datatype State = State(
    packages: Packages,
    pkg: Option<nat>,
    cat: Option<nat>,
    bot: Option<RawBot>,
    field: Option<string>,
    pending: Option<string>)

  const Init: State := State([], None, None, None, None, None)

  /** The current package and category exist, and a bot is only read inside a category. */
  ghost predicate Valid(st: State) {
    && (st.pkg.Some? ==> st.pkg.value < |st.packages|)
    && (st.cat.Some? ==> st.pkg.Some? && st.cat.value < |st.packages[st.pkg.value].1|)
    && (st.bot.Some? ==> st.cat.Some? && DistinctKeys(st.bot.value.models))
    && (st.bot.None? ==> st.field.None? && st.pending.None?)
    && (st.pending.Some? ==> st.pending.value != [] && st.field.None?)
  }

  /** The position of the first category called `name`, if any. */
  function FindCategory(cats: seq<Category>, name: string): (r: Option<nat>)
    ensures r.Some? ==> r.value < |cats| && cats[r.value].category == name
    ensures r.None? ==> forall j :: 0 <= j < |cats| ==> cats[j].category != name
  {
    if cats == [] then None
    else if cats[0].category == name then Some(0)
    else
      match FindCategory(cats[1..], name)
      case None => None
      case Some(j) => Some(j + 1)
  }

  /** No two categories of the list share a name. */
  ghost predicate CategoriesDistinct(cats: seq<Category>) {
    forall j, j' :: 0 <= j < j' < |cats| ==> cats[j].category != cats[j'].category
  }

  /** No package name repeats, and no category name repeats within a package. */
  ghost predicate NamesDistinct(ps: Packages) {
    && DistinctKeys(ps)
    && forall i :: 0 <= i < |ps| ==> CategoriesDistinct(ps[i].1)
  }

  /** Package `p` of `ps` with a new, empty category `c` at the end. */
  function WithCategory(ps: Packages, p: nat, c: string): (r: Packages)
    requires p < |ps|
    ensures |r| == |ps| && r[p].1 == ps[p].1 + [Category(c, [])]
    ensures forall i :: 0 <= i < |ps| ==> r[i].0 == ps[i].0
    ensures forall i :: 0 <= i < |ps| && i != p ==> r[i] == ps[i]
  {
    ps[p := (ps[p].0, ps[p].1 + [Category(c, [])])]
  }

  /** Category `c` of package `p` with one more bot `e` at the end. */
  function WithBot(ps: Packages, p: nat, c: nat, e: Obj): (r: Packages)
    requires p < |ps| && c < |ps[p].1|
    ensures |r| == |ps| && r[p].0 == ps[p].0 && |r[p].1| == |ps[p].1|
    ensures forall i :: 0 <= i < |ps| && i != p ==> r[i] == ps[i]
    ensures forall j :: 0 <= j < |ps[p].1| && j != c ==> r[p].1[j] == ps[p].1[j]
    ensures r[p].1[c] == Category(ps[p].1[c].category, ps[p].1[c].bots + [e])
  {
    var cat := ps[p].1[c];
    ps[p := (ps[p].0, ps[p].1[c := Category(cat.category, cat.bots + [e])])]
  }

  /** `name.strip() or PACKAGE_FALLBACK` */
  function PackageKey(name: string): (k: string)
    ensures k != [] && Stripped(k)
  {
    var k := Strip(name);
    if k == [] then PackageFallback else k
  }

  /** `name.strip() or CATEGORY_FALLBACK` */
  function CategoryKey(name: string): (k: string)
    ensures k != [] && Stripped(k)
  {
    var k := Strip(name);
    if k == [] then CategoryFallback else k
  }

  /** The fallback names are their own keys, so passing them to the lookups changes nothing. */
  lemma FallbackKeys()
    ensures PackageKey(PackageFallback) == PackageFallback
    ensures CategoryKey(CategoryFallback) == CategoryFallback
  {
    StripStripped(PackageFallback);
    StripStripped(CategoryFallback);
  }

  /**
   * `get_package`, given the key `name.strip() or PACKAGE_FALLBACK`: the package with that
   * key, created at the end of the list only when no package has it yet.
   */
  function GetPackage(st: State, key: string): (r: (State, nat))
    requires Valid(st)
    ensures Valid(r.0)
    ensures r.1 < |r.0.packages| && r.0.packages[r.1].0 == key
    ensures r.0.packages == if HasKey(st.packages, key) then st.packages else st.packages + [(key, [])]
    ensures r.0 == st.(packages := r.0.packages)
  {
    match Find(st.packages, key)
    case Some(i) => (st, i)
    case None => (st.(packages := st.packages + [(key, [])]), |st.packages|)
  }

  /**
   * `get_category`, given the key `name.strip() or CATEGORY_FALLBACK`: the category with that
   * key in package `p`, created at the end of its list only when the package has none of
   * that name yet.
   */
  function GetCategory(st: State, p: nat, key: string): (r: (State, nat))
    requires Valid(st) && p < |st.packages|
    ensures Valid(r.0)
    ensures r.0.packages == if FindCategory(st.packages[p].1, key).Some? then st.packages
                            else WithCategory(st.packages, p, key)
    ensures r.1 < |r.0.packages[p].1| && r.0.packages[p].1[r.1].category == key
    ensures r.0 == st.(packages := r.0.packages)
  {
    match FindCategory(st.packages[p].1, key)
    case Some(j) => (st, j)
    case None => (st.(packages := WithCategory(st.packages, p, key)), |st.packages[p].1|)
  }

  /** The bot a `#` line opens: its title, the three empty fields and no models. */
  function NewBot(title: string): (b: RawBot)
    ensures Get(b.fields, About) == Some([]) && Get(b.fields, Limits) == Some([]) && Get(b.fields, Example) == Some([])
    ensures b.models == []
  {
    var fields: Dict<seq<string>> := [(About, []), (Limits, []), (Example, [])];
    GetUniform(fields, About, []);
    GetUniform(fields, Limits, []);
    GetUniform(fields, Example, []);
    RawBot(title, fields, [])
  }

  /**
   * `flush_bot`: a bot being read is exported into the current category; in every case the
   * bot, field and pending model are cleared.
   */
  function FlushBot(st: State): (r: State)
    requires Valid(st)
    ensures Valid(r)
    ensures r == st.(packages := r.packages, bot := None, field := None, pending := None)
    ensures r.packages == if st.bot.None? then st.packages
                          else WithBot(st.packages, st.pkg.value, st.cat.value, ExportBot(st.bot.value))
  {
    if st.bot.None? then st.(bot := None, field := None, pending := None)
    else
      st.(packages := WithBot(st.packages, st.pkg.value, st.cat.value, ExportBot(st.bot.value)),
          bot := None, field := None, pending := None)
  }


  // ---------------------------------------------------------------------------------------
  // One chunk
  // ---------------------------------------------------------------------------------------

  /** The chunk prefixes, checked in the order of the source; the title markers carry a colon. */
  datatype ChunkKind = MainTitleChunk | SubTitleChunk | BotTitleChunk | TagChunk | ContentChunk

  function Kind(chunk: string): ChunkKind {
    if MainTitleWord + ":" <= chunk then MainTitleChunk
    else if SubTitleWord + ":" <= chunk then SubTitleChunk
    else if "#" <= chunk then BotTitleChunk
    else if "@" <= chunk then TagChunk
    else ContentChunk
  }

  /** `chunk.split(':', 1)[1].strip()` for a title chunk, which holds a ':'. */
  function TitleValue(chunk: string): string {
    Strip(AfterFirst(chunk, ':'))
  }

  /** The current package, or the fallback package made current when there is none. */
  function EnsurePackage(st: State): (r: State)
    requires Valid(st)
    ensures Valid(r) && r.pkg.Some?
    ensures st.pkg.Some? ==> r == st
    ensures st.pkg.None? ==> r.packages[r.pkg.value].0 == PackageFallback
    ensures r == st.(packages := r.packages, pkg := r.pkg)
    ensures r.packages == if st.pkg.Some? || HasKey(st.packages, PackageFallback) then st.packages
                          else st.packages + [(PackageFallback, [])]
  {
    if st.pkg.Some? then st
    else
      // `get_package(PACKAGE_FALLBACK)`: the fallback is its own key (FallbackKeys)
      var (s1, p) := GetPackage(st, PackageFallback);
      s1.(pkg := Some(p))
  }

  /** The fallback category of the current package, made current. */
  function WithFallbackCategory(st: State): (r: State)
    requires Valid(st) && st.pkg.Some?
    ensures Valid(r) && r.cat.Some?
    ensures r.packages[r.pkg.value].1[r.cat.value].category == CategoryFallback
    ensures r == st.(packages := r.packages, cat := r.cat)
  {
    // `get_category(pkg, CATEGORY_FALLBACK)`: the fallback is its own key (FallbackKeys)
    var (s1, c) := GetCategory(st, st.pkg.value, CategoryFallback);
    s1.(cat := Some(c))
  }

  /** A main title: flush, make the package of that name current, and leave no category. */
  function OnMainTitle(st: State, chunk: string): (r: State)
    requires Valid(st)
    ensures Valid(r)
    ensures r.pkg.Some? && r.packages[r.pkg.value].0 == PackageKey(TitleValue(chunk))
    ensures r.cat.None? && r.bot.None? && r.field.None? && r.pending.None?
  {
    var s1 := FlushBot(st);
    var (s2, p) := GetPackage(s1, PackageKey(TitleValue(chunk)));
    s2.(pkg := Some(p), cat := None)
  }

  /** A sub-title: flush, then make the category of that name in the current package current. */
  function OnSubTitle(st: State, chunk: string): (r: State)
    requires Valid(st)
    ensures Valid(r)
    ensures r.pkg.Some? && r.cat.Some? && r.bot.None? && r.field.None? && r.pending.None?
    ensures st.pkg.Some? ==> r.pkg == st.pkg
    ensures st.pkg.None? ==> r.packages[r.pkg.value].0 == PackageFallback
    ensures r.packages[r.pkg.value].1[r.cat.value].category == CategoryKey(TitleValue(chunk))
  {
    var s2 := EnsurePackage(FlushBot(st));
    var (s3, c) := GetCategory(s2, s2.pkg.value, CategoryKey(TitleValue(chunk)));
    s3.(cat := Some(c))
  }

  /** A bot title: flush, make sure of a package and a category, and open a new bot. */
  function OnBotTitle(st: State, chunk: string): (r: State)
    requires Valid(st)
    ensures Valid(r)
    ensures r.bot == Some(NewBot(Strip(TrimCharStart(chunk, '#')))) && r.field.None? && r.pending.None?
    ensures r.pkg.Some? && r.cat.Some?
    ensures st.pkg.Some? ==> r.pkg == st.pkg
    ensures st.pkg.None? ==> r.packages[r.pkg.value].0 == PackageFallback
    ensures st.cat.Some? ==> r.cat == st.cat && r.packages == FlushBot(st).packages
    ensures st.cat.None? ==> r.packages[r.pkg.value].1[r.cat.value].category == CategoryFallback
  {
    var s2 := EnsurePackage(FlushBot(st));
    var s3 := if s2.cat.Some? then s2 else WithFallbackCategory(s2);
    s3.(bot := Some(NewBot(Strip(TrimCharStart(chunk, '#')))), field := None, pending := None)
  }

  /**
   * An `@` line with a bot being read: clears the pending model and the field, then sets the
   * one the label names (a `نموذج` label a pending model key, a known field label the field);
   * روابط and unknown labels set nothing.
   */
  function OnTag(st: State, chunk: string): (r: State)
    requires Valid(st) && chunk != []
    ensures Valid(r)
    ensures st.bot.None? ==> r == st
    ensures r == st.(bot := r.bot, field := r.field, pending := r.pending)
    ensures r.bot.Some? == st.bot.Some?
  {
    if st.bot.None? then st
    else
      var tag := Strip(chunk[1..]);
      var s := st.(pending := None, field := None);
      if Model <= Lower(tag) then s.(pending := Some(NormalizeModelKey(RestAfterFirstWord(tag))))
      else if Lower(tag) == Links then s
      else
        match NormalizeField(tag)
        case Some(f) => s.(field := Some(f), bot := Some(st.bot.value.(fields := SetDefault(st.bot.value.fields, f, []))))
        case None => s
  }

  /**
   * A content line with a bot being read: the link of the pending model (which it then
   * clears), or one more line of the current field.
   */
  function OnContent(st: State, chunk: string): (r: State)
    requires Valid(st)
    ensures Valid(r)
    ensures st.bot.None? ==> r == st
    ensures r == st.(bot := r.bot, pending := r.pending)
    ensures r.bot.Some? == st.bot.Some?
  {
    match st.bot
    case None => st
    case Some(b) =>
      if st.pending.Some? && st.pending.value != [] then
        st.(bot := Some(b.(models := Put(b.models, st.pending.value, chunk))), pending := None)
      else if st.field.Some? && st.field.value != [] then
        var f := st.field.value;
        st.(bot := Some(b.(fields := Put(b.fields, f, Get(b.fields, f).GetOr([]) + [chunk]))))
      else st
  }

  /** One chunk of the loop of `build_payload`. */
  function Step(st: State, chunk: string): (r: State)
    requires Valid(st)
    ensures Valid(r)
  {
    match Kind(chunk)
    case MainTitleChunk => OnMainTitle(st, chunk)
    case SubTitleChunk => OnSubTitle(st, chunk)
    case BotTitleChunk => OnBotTitle(st, chunk)
    case TagChunk => OnTag(st, chunk)
    case ContentChunk => OnContent(st, chunk)
  }

  /** The state after the given chunks. */
  function Run(chunks: seq<string>): (r: State)
    ensures Valid(r)
    decreases |chunks|
  {
    if chunks == [] then Init else Step(Run(chunks[..|chunks| - 1]), chunks[|chunks| - 1])
  }

  /** The packages `build_payload` returns: the last bot flushed, then ids 1, 2, ... in list order. */
  function Payload(chunks: seq<string>): Packages {
    FlushBot(Run(chunks)).packages
  }

  /** The loop of `build_payload` and its final flush. */
  method BuildPackages(chunks: seq<string>) returns (packages: Packages)
    ensures packages == Payload(chunks)
  {
    var st := Init;
    var i := 0;
    while i < |chunks|
      invariant 0 <= i <= |chunks|
      invariant st == Run(chunks[..i])
    {
      assert chunks[..i + 1][..i] == chunks[..i];
      st := Step(st, chunks[i]);
      i := i + 1;
    }
    assert chunks[..i] == chunks;
    st := FlushBot(st);
    packages := st.packages;
  }

  /** The final loop of `build_payload`: every package gets its 1-based position as `packageId`. */
  method AssignPackageIds(packages: Packages) returns (catalog: Catalog)
    ensures |catalog| == |packages|
    ensures forall i :: 0 <= i < |packages| ==>
              catalog[i] == Package(packages[i].0, JNum(i + 1), packages[i].1)
  {
    catalog := [];
    var i := 0;
    while i < |packages|
      invariant 0 <= i <= |packages| && |catalog| == i
      invariant forall j :: 0 <= j < i ==> catalog[j] == Package(packages[j].0, JNum(j + 1), packages[j].1)
    {
      catalog := catalog + [Package(packages[i].0, JNum(i + 1), packages[i].1)];
      i := i + 1;
    }
  }

  /** `build_payload` over the chunks of the document. */
  method BuildPayload(chunks: seq<string>) returns (catalog: Catalog)
    ensures |catalog| == |Payload(chunks)|
    ensures forall i :: 0 <= i < |catalog| ==>
              catalog[i] == Package(Payload(chunks)[i].0, JNum(i + 1), Payload(chunks)[i].1)
    ensures CatalogBotCount(catalog) == BotTitles(chunks)
    ensures forall i, j :: 0 <= i < j < |catalog| ==> catalog[i].package != catalog[j].package
  {
    var packages := BuildPackages(chunks);
    catalog := AssignPackageIds(packages);
    CatalogBotCountOfIds(catalog, packages);
    PayloadCount(chunks);
    PayloadNamesDistinct(chunks);
  }

  /** Giving the packages ids keeps their categories, so the bot count. */
  lemma {:induction false} CatalogBotCountOfIds(catalog: Catalog, packages: Packages)
    requires |catalog| == |packages|
    requires forall i :: 0 <= i < |catalog| ==> catalog[i].categories == packages[i].1
    ensures CatalogBotCount(catalog) == PackagesBotCount(packages)
    decreases |catalog|
  {
    if catalog != [] {
      var n := |catalog| - 1;
      CatalogBotCountOfIds(catalog[..n], packages[..n]);
    }
  }

  // ---------------------------------------------------------------------------------------
  // What the loop promises
  // ---------------------------------------------------------------------------------------

  /** An `@` line with a bot first clears the pending model and the field; a model label then sets the key. */
  lemma TagClears(st: State, chunk: string)
    requires Valid(st) && st.bot.Some? && Kind(chunk) == TagChunk
    ensures var r := Step(st, chunk); var tag := Strip(chunk[1..]);
      && (r.pending.Some? <==> Model <= Lower(tag))
      && (r.pending.Some? ==> r.pending.value == NormalizeModelKey(RestAfterFirstWord(tag)))
      && (r.field.Some? <==> !(Model <= Lower(tag)) && Lower(tag) != Links && NormalizeField(tag).Some?)
      && (r.field.Some? ==> r.field == NormalizeField(tag) && HasKey(r.bot.value.fields, r.field.value))
      && r.bot.value.title == st.bot.value.title && r.bot.value.models == st.bot.value.models
  {
  }

  /** A field label adds the field to the bot only when it is missing, keeping the text it has. */
  lemma TagKeepsFieldText(st: State, chunk: string, f: string)
    requires Valid(st) && st.bot.Some? && Kind(chunk) == TagChunk
    ensures Get(Step(st, chunk).bot.value.fields, f) == Get(st.bot.value.fields, f) || !HasKey(st.bot.value.fields, f)
  {
  }

  /** A pending model key takes exactly the next content line as its link, and is then cleared. */
  lemma PendingTakesOneLine(st: State, chunk: string)
    requires Valid(st) && st.bot.Some? && st.pending.Some? && Kind(chunk) == ContentChunk
    ensures var r := Step(st, chunk);
      && r.pending.None? && r.field == st.field
      && Get(r.bot.value.models, st.pending.value) == Some(chunk)
      && (forall k :: k != st.pending.value ==> Get(r.bot.value.models, k) == Get(st.bot.value.models, k))
      && r.bot.value.fields == st.bot.value.fields && r.bot.value.title == st.bot.value.title
  {
  }

  /** With no pending model, a content line is appended to the lines of the current field. */
  lemma ContentAppendsToField(st: State, chunk: string)
    requires Valid(st) && st.bot.Some? && st.pending.None? && st.field.Some? && st.field.value != []
    requires Kind(chunk) == ContentChunk
    ensures var r := Step(st, chunk); var f := st.field.value;
      && r.field == st.field && r.pending.None?
      && Get(r.bot.value.fields, f) == Some(Get(st.bot.value.fields, f).GetOr([]) + [chunk])
      && (forall k :: k != f ==> Get(r.bot.value.fields, k) == Get(st.bot.value.fields, k))
      && r.bot.value.models == st.bot.value.models
  {
  }

  /** With no bot being read, `@` lines and content lines change nothing. */
  lemma NoBotNoChange(st: State, chunk: string)
    requires Valid(st) && st.bot.None? && Kind(chunk) in {TagChunk, ContentChunk}
    ensures Step(st, chunk) == st
  {
  }

  /** Every marker line flushes first: after it no field and no model is pending. */
  lemma MarkerClears(st: State, chunk: string)
    requires Valid(st) && Kind(chunk) in {MainTitleChunk, SubTitleChunk, BotTitleChunk}
    ensures var r := Step(st, chunk); r.field.None? && r.pending.None? && r.pkg.Some?
    ensures Kind(chunk) != BotTitleChunk ==> Step(st, chunk).bot.None?
  {
  }

  // Counting bots ----------------------------------------------------------------------

  /** The number of `#` chunks. */
  function BotTitles(chunks: seq<string>): nat
    decreases |chunks|
  {
    if chunks == [] then 0
    else BotTitles(chunks[..|chunks| - 1]) + (if Kind(chunks[|chunks| - 1]) == BotTitleChunk then 1 else 0)
  }

  /** The bots of the packages. */
  function PackagesBotCount(ps: Packages): nat {
    SumBy(ps, CategoriesBotCount)
  }

  /** The bots exported so far plus the one being read. */
  function BotCount(st: State): nat {
    PackagesBotCount(st.packages) + (if st.bot.Some? then 1 else 0)
  }

  /** A flush moves the bot being read into the packages, losing none. */
  lemma FlushBotCount(st: State)
    requires Valid(st)
    ensures PackagesBotCount(FlushBot(st).packages) == BotCount(st)
  {
    if st.bot.Some? {
      var ps, p, c := st.packages, st.pkg.value, st.cat.value;
      var cats := ps[p].1;
      var nc := Category(cats[c].category, cats[c].bots + [ExportBot(st.bot.value)]);
      assert FlushBot(st).packages == ps[p := (ps[p].0, cats[c := nc])];
      SumByUpdate(ps, p, (ps[p].0, cats[c := nc]), CategoriesBotCount);
      CategoriesBotCountUpdate(cats, c, nc);
    }
  }

  lemma GetPackageCount(st: State, key: string)
    requires Valid(st)
    ensures PackagesBotCount(GetPackage(st, key).0.packages) == PackagesBotCount(st.packages)
  {
    if !HasKey(st.packages, key) {
      SumByAppend(st.packages, (key, []), CategoriesBotCount);
    }
  }

  lemma GetCategoryCount(st: State, p: nat, key: string)
    requires Valid(st) && p < |st.packages|
    ensures PackagesBotCount(GetCategory(st, p, key).0.packages) == PackagesBotCount(st.packages)
  {
    var ps := st.packages;
    if FindCategory(ps[p].1, key).None? {
      SumByUpdate(ps, p, (ps[p].0, ps[p].1 + [Category(key, [])]), CategoriesBotCount);
      CategoriesBotCountAppend(ps[p].1, Category(key, []));
    }
  }

  lemma EnsurePackageCount(st: State)
    requires Valid(st)
    ensures PackagesBotCount(EnsurePackage(st).packages) == PackagesBotCount(st.packages)
  {
    if st.pkg.None? {
      GetPackageCount(st, PackageFallback);
    }
  }

  /** A `#` chunk adds one bot; every other chunk keeps the number. */
  lemma StepCount(st: State, chunk: string)
    requires Valid(st)
    ensures BotCount(Step(st, chunk)) == BotCount(st) + (if Kind(chunk) == BotTitleChunk then 1 else 0)
  {
    var s1 := FlushBot(st);
    FlushBotCount(st);
    match Kind(chunk)
    case MainTitleChunk =>
      GetPackageCount(s1, PackageKey(TitleValue(chunk)));
    case SubTitleChunk =>
      var s2 := EnsurePackage(s1);
      EnsurePackageCount(s1);
      GetCategoryCount(s2, s2.pkg.value, CategoryKey(TitleValue(chunk)));
    case BotTitleChunk =>
      var s2 := EnsurePackage(s1);
      EnsurePackageCount(s1);
      if s2.cat.None? {
        GetCategoryCount(s2, s2.pkg.value, CategoryFallback);
      }
    case TagChunk =>
    case ContentChunk =>
  }

  /** After any chunks, the bots exported and being read are as many as the `#` chunks. */
  lemma {:induction false} RunCount(chunks: seq<string>)
    ensures BotCount(Run(chunks)) == BotTitles(chunks)
    decreases |chunks|
  {
    if chunks != [] {
      var n := |chunks| - 1;
      RunCount(chunks[..n]);
      StepCount(Run(chunks[..n]), chunks[n]);
    }
  }

  /** Each `#` chunk yields exactly one exported bot. */
  lemma PayloadCount(chunks: seq<string>)
    ensures PackagesBotCount(Payload(chunks)) == BotTitles(chunks)
  {
    RunCount(chunks);
    FlushBotCount(Run(chunks));
  }

  // Names stay distinct ----------------------------------------------------------------

  lemma WithBotDistinct(ps: Packages, p: nat, c: nat, e: Obj)
    requires NamesDistinct(ps) && p < |ps| && c < |ps[p].1|
    ensures NamesDistinct(WithBot(ps, p, c, e))
  {
    var r := WithBot(ps, p, c, e);
    assert CategoriesDistinct(r[p].1) by {
      forall j, j' | 0 <= j < j' < |r[p].1| ensures r[p].1[j].category != r[p].1[j'].category {
        assert r[p].1[j].category == ps[p].1[j].category;
        assert r[p].1[j'].category == ps[p].1[j'].category;
      }
    }
  }

  lemma GetPackageDistinct(st: State, key: string)
    requires Valid(st) && NamesDistinct(st.packages)
    ensures NamesDistinct(GetPackage(st, key).0.packages)
  {
    var ps := st.packages;
    if !HasKey(ps, key) {
      var r := ps + [(key, [])];
      assert forall i :: 0 <= i < |ps| ==> r[i] == ps[i];
    }
  }

  lemma GetCategoryDistinct(st: State, p: nat, key: string)
    requires Valid(st) && p < |st.packages| && NamesDistinct(st.packages)
    ensures NamesDistinct(GetCategory(st, p, key).0.packages)
  {
    var ps := st.packages;
    if FindCategory(ps[p].1, key).None? {
      var r := WithCategory(ps, p, key);
      assert CategoriesDistinct(r[p].1) by {
        forall j, j' | 0 <= j < j' < |r[p].1| ensures r[p].1[j].category != r[p].1[j'].category {
          if j' < |ps[p].1| {
            assert r[p].1[j] == ps[p].1[j] && r[p].1[j'] == ps[p].1[j'];
          } else {
            assert r[p].1[j] == ps[p].1[j];
          }
        }
      }
      assert DistinctKeys(r) by {
        assert forall i :: 0 <= i < |ps| ==> r[i].0 == ps[i].0;
      }
    }
  }

  lemma FlushBotDistinct(st: State)
    requires Valid(st) && NamesDistinct(st.packages)
    ensures NamesDistinct(FlushBot(st).packages)
  {
    if st.bot.Some? {
      WithBotDistinct(st.packages, st.pkg.value, st.cat.value, ExportBot(st.bot.value));
    }
  }

  lemma StepDistinct(st: State, chunk: string)
    requires Valid(st) && NamesDistinct(st.packages)
    ensures NamesDistinct(Step(st, chunk).packages)
  {
    var s1 := FlushBot(st);
    FlushBotDistinct(st);
    match Kind(chunk)
    case MainTitleChunk =>
      GetPackageDistinct(s1, PackageKey(TitleValue(chunk)));
    case SubTitleChunk =>
      if s1.pkg.None? { GetPackageDistinct(s1, PackageFallback); }
      var s2 := EnsurePackage(s1);
      GetCategoryDistinct(s2, s2.pkg.value, CategoryKey(TitleValue(chunk)));
    case BotTitleChunk =>
      if s1.pkg.None? { GetPackageDistinct(s1, PackageFallback); }
      var s2 := EnsurePackage(s1);
      if s2.cat.None? {
        GetCategoryDistinct(s2, s2.pkg.value, CategoryFallback);
      }
    case TagChunk =>
    case ContentChunk =>
  }

  /**
   * Each package key and each category key within a package is appended at most once, so
   * searching the lists by name finds what `package_map` and `category_map` hold.
   */
  lemma {:induction false} RunNamesDistinct(chunks: seq<string>)
    ensures NamesDistinct(Run(chunks).packages)
    decreases |chunks|
  {
    if chunks != [] {
      var n := |chunks| - 1;
      RunNamesDistinct(chunks[..n]);
      StepDistinct(Run(chunks[..n]), chunks[n]);
    }
  }

  /** The packages returned have distinct names, and so have the categories of each. */
  lemma PayloadNamesDistinct(chunks: seq<string>)
    ensures NamesDistinct(Payload(chunks))
  {
    RunNamesDistinct(chunks);
    FlushBotDistinct(Run(chunks));
  }
}
