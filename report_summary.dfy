/**
 * scripts/report_json_summary.py: which text, models and link each bot of the catalog
 * offers, picked from the first of several candidate keys, and the counts and samples
 * the report prints.
 */
module ReportSummary {
  import opened Options
  import opened Text
  import opened Dict
  import opened Json
  import opened Labels

  /** `MODEL_KEYS`, in order. */
  const ModelKeys: seq<string> := [TheModel, TheModels, "model", "models", Garbled, GarbledLong]

  /** `ABOUT_KEYS` */
  const AboutKeys: seq<string> := [About, Description, "about", "description", Garbled]

  /** `LIMIT_KEYS` */
  const LimitKeys: seq<string> := [Limits, TheLimits, Restrictions, "limits", "constraints", Garbled]

  /** `EXAMPLE_KEYS` */
  const ExampleKeys: seq<string> := [Example, Examples, TheExamples, "example", "examples", Garbled]

  /** `URL_KEYS` */
  const UrlKeys: seq<string> := [TheLink, Link, DirectLink, "url", "link", "links", "primaryUrl", "primaryurl", "directurl"]

  /** The keys `pick_link` reads a plain string from. */
  const DirectKeys: seq<string> := ["url", "link", "primaryUrl", "primaryurl", "directurl"]

  /** The model keys `pick_link` falls back to, in order. */
  const ModelLinkKeys: seq<string> := ["4O", "4o", "4o-mini", "gpt-4o", "gpt4o", "5", "gpt-5", "gpt5"]

  /** The width `truncate` cuts at by default. */
  const Width: nat := 120

  // ---------------------------------------------------------------------------------------
  // truncate
  // ---------------------------------------------------------------------------------------

  /** `truncate(s, n)`: stripped, newlines made spaces, and cut to `n` characters plus `...`. */
  function Truncate(s: string, n: nat): (r: string)
    ensures |r| <= n + 3
    ensures '\n' !in r
    ensures r == [] <==> Strip(s) == []
  {
    var t := ReplaceAll(Strip(s), "\n", " ");
    ReplaceCharGone(Strip(s), '\n', " ");
    ReplaceCharLength(Strip(s), '\n', ' ');
    if |t| <= n then t
    else
      assert forall c :: c in t[..n] ==> c in t;
      t[..n] + "..."
  }

  /** A text that fits is only stripped and has its newlines made spaces. */
  lemma TruncateFits(s: string, n: nat)
    requires |Strip(s)| <= n
    ensures Truncate(s, n) == ReplaceAll(Strip(s), "\n", " ")
  {
    ReplaceCharLength(Strip(s), '\n', ' ');
  }

  /** A text that does not fit keeps its first `n` characters, then `...`. */
  lemma TruncateCuts(s: string, n: nat)
    requires |Strip(s)| > n
    ensures |Truncate(s, n)| == n + 3
    ensures Truncate(s, n) == ReplaceAll(Strip(s), "\n", " ")[..n] + "..."
  {
    ReplaceCharLength(Strip(s), '\n', ' ');
  }

  // ---------------------------------------------------------------------------------------
  // pick_value, pick_text
  // ---------------------------------------------------------------------------------------

  /** A value `pick_value` accepts: a string that is not blank, or a non-empty dict. */
  predicate Usable(v: Option<Json>) {
    v.Some? && ((v.value.JStr? && Strip(v.value.s) != []) || (v.value.JObj? && v.value.fields != []))
  }

  /** The position of the first key, in list order, whose value is usable. */
  function FirstUsable(obj: Obj, keys: seq<string>): (r: Option<nat>)
    ensures r.Some? ==> r.value < |keys| && Usable(Get(obj, keys[r.value]))
    ensures r.Some? ==> forall j :: 0 <= j < r.value ==> !Usable(Get(obj, keys[j]))
    ensures r.None? ==> forall j :: 0 <= j < |keys| ==> !Usable(Get(obj, keys[j]))
    decreases |keys|
  {
    if keys == [] then None
    else if Usable(Get(obj, keys[0])) then Some(0)
    else match FirstUsable(obj, keys[1..])
         case None => None
         case Some(i) => Some(i + 1)
  }

  /** A string is returned stripped, a dict as it is. */
  function Picked(v: Json): Json {
    if v.JStr? then JStr(Strip(v.s)) else v
  }

  /** `pick_value`: the value of the first usable key, a string stripped; nothing if there is none. */
  function PickValue(obj: Obj, keys: seq<string>): (r: Option<Json>)
    ensures r.None? <==> FirstUsable(obj, keys).None?
    ensures r.Some? ==> (r.value.JStr? && r.value.s != [] && Stripped(r.value.s)) || (r.value.JObj? && r.value.fields != [])
    ensures r.Some? ==> r.value == Picked(Get(obj, keys[FirstUsable(obj, keys).value]).value)
  {
    match FirstUsable(obj, keys)
    case None => None
    case Some(i) =>
      var v := Get(obj, keys[i]).value;
      if v.JStr? then Some(JStr(Strip(v.s))) else Some(v)
  }

  /** `pick_text`: the picked value if it is a string, otherwise the empty text. */
  function PickText(obj: Obj, keys: seq<string>): (r: string)
    ensures r == [] || Stripped(r)
  {
    var v := PickValue(obj, keys);
    if v.Some? && v.value.JStr? then v.value.s else []
  }

  /** A non-empty dict under an earlier key hides every string after it: the text is empty. */
  lemma PickTextDictFirst(obj: Obj, keys: seq<string>, i: nat)
    requires i < |keys| && Usable(Get(obj, keys[i])) && Get(obj, keys[i]).value.JObj?
    requires forall j :: 0 <= j < i ==> !Usable(Get(obj, keys[j]))
    ensures PickText(obj, keys) == []
  {
    assert FirstUsable(obj, keys) == Some(i);
  }

  /** The text is the stripped string of the first usable key when that is a string. */
  lemma PickTextString(obj: Obj, keys: seq<string>, i: nat)
    requires i < |keys| && Usable(Get(obj, keys[i])) && Get(obj, keys[i]).value.JStr?
    requires forall j :: 0 <= j < i ==> !Usable(Get(obj, keys[j]))
    ensures PickText(obj, keys) == Strip(Get(obj, keys[i]).value.s)
  {
    assert FirstUsable(obj, keys) == Some(i);
  }

  // ---------------------------------------------------------------------------------------
  // pick_models
  // ---------------------------------------------------------------------------------------

  /** The stripped, non-blank string of a value, if it is one. */
  function CleanOf(v: Option<Json>): Option<string> {
    if v.Some? && v.value.JStr? && Strip(v.value.s) != [] then Some(Strip(v.value.s)) else None
  }

  /** `cleaned`: the entries whose value is a non-blank string, stripped, in order. */
  function Cleaned(d: Dict<Json>): Dict<string>
    decreases |d|
  {
    if d == [] then []
    else
      var last := d[|d| - 1];
      var c := CleanOf(Some(last.1));
      if c.Some? then Put(Cleaned(d[..|d| - 1]), last.0, c.value) else Cleaned(d[..|d| - 1])
  }

  /** Every value is a non-empty text with no whitespace at its ends. */
  ghost predicate CleanValues(m: Dict<string>) {
    forall k :: Get(m, k).Some? ==> Get(m, k).value != [] && Stripped(Get(m, k).value)
  }

  lemma {:induction false} CleanedValues(d: Dict<Json>)
    ensures CleanValues(Cleaned(d))
    decreases |d|
  {
    if d != [] {
      CleanedValues(d[..|d| - 1]);
    }
  }

  /** The cleaned dict holds exactly the non-blank strings, stripped, under their own keys. */
  lemma {:induction false} CleanedGet(d: Dict<Json>, k: string)
    requires DistinctKeys(d)
    ensures Get(Cleaned(d), k) == CleanOf(Get(d, k))
    decreases |d|
  {
    if d != [] {
      var n := |d| - 1;
      CleanedGet(d[..n], k);
      GetLastEntry(d, k);
    }
  }

  /** Some value of the dict is a non-blank string. */
  predicate HasCleanString(d: Dict<Json>) {
    exists i :: 0 <= i < |d| && CleanOf(Some(d[i].1)).Some?
  }

  /** `if cleaned:` holds exactly when some value is a non-blank string. */
  lemma {:induction false} CleanedNonEmpty(d: Dict<Json>)
    ensures Cleaned(d) != [] <==> HasCleanString(d)
    decreases |d|
  {
    if d != [] {
      var n := |d| - 1;
      CleanedNonEmpty(d[..n]);
      if CleanOf(Some(d[n].1)).Some? {
        assert Get(Cleaned(d), d[n].0).Some?;
        assert 0 <= n < |d| && CleanOf(Some(d[n].1)).Some?;
      } else {
        assert Cleaned(d) == Cleaned(d[..n]);
        if HasCleanString(d) {
          var i :| 0 <= i < |d| && CleanOf(Some(d[i].1)).Some?;
          assert i < n && d[..n][i] == d[i];
        }
        if HasCleanString(d[..n]) {
          var i :| 0 <= i < n && CleanOf(Some(d[..n][i].1)).Some?;
          assert d[..n][i] == d[i];
        }
      }
    }
  }

  lemma CleanedStep(d: Dict<Json>, i: nat)
    requires i < |d|
    ensures Cleaned(d[..i + 1]) == if CleanOf(Some(d[i].1)).Some? then Put(Cleaned(d[..i]), d[i].0, CleanOf(Some(d[i].1)).value) else Cleaned(d[..i])
  {
    assert d[..i + 1][..i] == d[..i];
  }

  /** The loop that fills `cleaned`. */
  method CleanStrings(d: Dict<Json>) returns (cleaned: Dict<string>)
    ensures cleaned == Cleaned(d)
  {
    cleaned := [];
    var i := 0;
    while i < |d|
      invariant 0 <= i <= |d|
      invariant cleaned == Cleaned(d[..i])
    {
      CleanedStep(d, i);
      var v := d[i].1;
      if v.JStr? {
        var s := Strip(v.s);
        if s != [] {
          cleaned := Put(cleaned, d[i].0, s);
        }
      }
      i := i + 1;
    }
    assert d[..i] == d;
  }

  /** Some string of the dict, stripped, starts with `http`. */
  predicate HasHttp(d: Dict<Json>) {
    exists i :: 0 <= i < |d| && d[i].1.JStr? && "http" <= Strip(d[i].1.s)
  }

  /** A value the second search of `pick_models` stops at: a dict with an `http` string and something left once cleaned. */
  predicate Candidate(v: Json) {
    v.JObj? && HasHttp(v.fields) && Cleaned(v.fields) != []
  }

  /** The second search of `pick_models`: the cleaned first candidate among the values, in order. */
  function FromValues(entries: Dict<Json>): Dict<string>
    decreases |entries|
  {
    if entries == [] then []
    else
      var v := entries[0].1;
      if Candidate(v) then Cleaned(v.fields)
      else FromValues(entries[1..])
  }

  /** The search returns the cleaned dict of the first candidate value. */
  lemma {:induction false} FromValuesFirst(entries: Dict<Json>, i: nat)
    requires i < |entries| && Candidate(entries[i].1)
    requires forall j :: 0 <= j < i ==> !Candidate(entries[j].1)
    ensures FromValues(entries) == Cleaned(entries[i].1.fields)
    decreases i
  {
    if i > 0 {
      assert entries[1..][i - 1] == entries[i];
      assert forall j :: 0 <= j < i - 1 ==> entries[1..][j] == entries[j + 1];
      FromValuesFirst(entries[1..], i - 1);
    }
  }

  /** The search finds nothing exactly when no value is a candidate. */
  lemma {:induction false} FromValuesEmpty(entries: Dict<Json>)
    ensures FromValues(entries) == [] <==> forall j :: 0 <= j < |entries| ==> !Candidate(entries[j].1)
    decreases |entries|
  {
    if entries != [] {
      FromValuesEmpty(entries[1..]);
      assert forall j :: 0 < j < |entries| ==> entries[1..][j - 1] == entries[j];
    }
  }

  /** What `pick_models` returns. */
  function Models(bot: Obj): (r: Dict<string>)
    ensures CleanValues(r)
  {
    var raw := PickValue(bot, ModelKeys);
    if raw.Some? && raw.value.JObj? && Cleaned(raw.value.fields) != [] then
      CleanedValues(raw.value.fields);
      Cleaned(raw.value.fields)
    else if raw.Some? && raw.value.JStr? then [("4O", raw.value.s)]
    else
      FromValuesClean(bot);
      FromValues(bot)
  }

  /**
   * The priority of `pick_models`: the value of the first usable model key; a string gives
   * `{'4O': text}`, a dict with some non-blank string gives its cleaned form; a dict with
   * none, or no usable key, falls through to the search of the bot's values.
   */
  lemma ModelsCases(bot: Obj)
    ensures FirstUsable(bot, ModelKeys).None? ==> Models(bot) == FromValues(bot)
    ensures FirstUsable(bot, ModelKeys).Some? ==>
      var v := Get(bot, ModelKeys[FirstUsable(bot, ModelKeys).value]).value;
      && (v.JStr? ==> Models(bot) == [("4O", Strip(v.s))])
      && (v.JObj? && HasCleanString(v.fields) ==> Models(bot) == Cleaned(v.fields))
      && (v.JObj? && !HasCleanString(v.fields) ==> Models(bot) == FromValues(bot))
  {
    var raw := PickValue(bot, ModelKeys);
    if raw.Some? && raw.value.JObj? {
      CleanedNonEmpty(raw.value.fields);
    }
  }

  lemma {:induction false} FromValuesClean(entries: Dict<Json>)
    ensures CleanValues(FromValues(entries))
    decreases |entries|
  {
    if entries != [] {
      var v := entries[0].1;
      if v.JObj? {
        CleanedValues(v.fields);
      }
      FromValuesClean(entries[1..]);
    }
  }

  /** `pick_models` */
  method PickModels(bot: Obj) returns (models: Dict<string>)
    ensures models == Models(bot)
  {
    var raw := PickValue(bot, ModelKeys);
    if raw.Some? && raw.value.JObj? {
      var cleaned := CleanStrings(raw.value.fields);
      if cleaned != [] {
        return cleaned;
      }
    } else if raw.Some? && raw.value.JStr? && Strip(raw.value.s) != [] {
      StripStripped(raw.value.s);
      return [("4O", Strip(raw.value.s))];
    }
    models := SearchValues(bot);
  }

  /** The loop over `bot.values()` at the end of `pick_models`. */
  method SearchValues(bot: Obj) returns (models: Dict<string>)
    ensures models == FromValues(bot)
  {
    var i := 0;
    while i < |bot|
      invariant 0 <= i <= |bot|
      invariant FromValues(bot) == FromValues(bot[i..])
    {
      assert bot[i..][1..] == bot[i + 1..];
      var value := bot[i].1;
      if value.JObj? && HasHttp(value.fields) {
        var cleaned := CleanStrings(value.fields);
        if cleaned != [] {
          return cleaned;
        }
      }
      i := i + 1;
    }
    return [];
  }

  // ---------------------------------------------------------------------------------------
  // pick_link
  // ---------------------------------------------------------------------------------------

  /** `bot[key].strip()` when `bot[key]` is a string, otherwise the empty text. */
  function DirectAt(bot: Obj, key: string): (r: string)
    ensures r != [] ==> Usable(Get(bot, key)) && Get(bot, key).value.JStr?
  {
    var v := Get(bot, key);
    if v.Some? && v.value.JStr? then Strip(v.value.s) else []
  }

  /** The first non-blank plain string under one of `keys`. */
  function DirectText(bot: Obj, keys: seq<string>): (r: string)
    ensures r == [] || Stripped(r)
    decreases |keys|
  {
    if keys == [] then []
    else if DirectAt(bot, keys[0]) != [] then DirectAt(bot, keys[0])
    else DirectText(bot, keys[1..])
  }

  /** A direct text comes from the first key, in list order, whose plain string is not blank. */
  lemma {:induction false} DirectTextKey(bot: Obj, keys: seq<string>) returns (i: nat)
    requires DirectText(bot, keys) != []
    ensures i < |keys| && DirectAt(bot, keys[i]) == DirectText(bot, keys)
    ensures forall j :: 0 <= j < i ==> DirectAt(bot, keys[j]) == []
    decreases |keys|
  {
    if DirectAt(bot, keys[0]) != [] {
      i := 0;
    } else {
      var j := DirectTextKey(bot, keys[1..]);
      i := j + 1;
      assert keys[1..][j] == keys[i];
      assert forall jj :: 0 < jj < i ==> keys[1..][jj - 1] == keys[jj];
    }
  }

  /** The first key whose plain string is not blank gives the direct text. */
  lemma {:induction false} DirectTextFirst(bot: Obj, keys: seq<string>, i: nat)
    requires i < |keys| && DirectAt(bot, keys[i]) != []
    requires forall j :: 0 <= j < i ==> DirectAt(bot, keys[j]) == []
    ensures DirectText(bot, keys) == DirectAt(bot, keys[i])
    decreases i
  {
    if i > 0 {
      assert keys[1..][i - 1] == keys[i];
      assert forall j :: 0 <= j < i - 1 ==> keys[1..][j] == keys[j + 1];
      DirectTextFirst(bot, keys[1..], i - 1);
    }
  }

  /** There is no direct text exactly when every key's plain string is blank or missing. */
  lemma {:induction false} DirectTextEmpty(bot: Obj, keys: seq<string>)
    ensures DirectText(bot, keys) == [] <==> forall j :: 0 <= j < |keys| ==> DirectAt(bot, keys[j]) == []
    decreases |keys|
  {
    if keys != [] {
      DirectTextEmpty(bot, keys[1..]);
      assert forall j :: 0 < j < |keys| ==> keys[1..][j - 1] == keys[j];
    }
  }

  /** `models.get(key, '').strip()` */
  function ModelAt(models: Dict<string>, key: string): (r: string)
    ensures r == [] || Stripped(r)
  {
    Strip(Get(models, key).GetOr([]))
  }

  /** `models.get(key, '').strip()` for the first model key where that is not empty. */
  function ModelLink(models: Dict<string>, keys: seq<string>): (r: string)
    ensures r == [] || Stripped(r)
    decreases |keys|
  {
    if keys == [] then []
    else if ModelAt(models, keys[0]) != [] then ModelAt(models, keys[0])
    else ModelLink(models, keys[1..])
  }

  /** The first model key with a non-blank link gives the model link. */
  lemma {:induction false} ModelLinkFirst(models: Dict<string>, keys: seq<string>, i: nat)
    requires i < |keys| && ModelAt(models, keys[i]) != []
    requires forall j :: 0 <= j < i ==> ModelAt(models, keys[j]) == []
    ensures ModelLink(models, keys) == ModelAt(models, keys[i])
    decreases i
  {
    if i > 0 {
      assert keys[1..][i - 1] == keys[i];
      assert forall j :: 0 <= j < i - 1 ==> keys[1..][j] == keys[j + 1];
      ModelLinkFirst(models, keys[1..], i - 1);
    }
  }

  /** There is no model link exactly when every model key's link is blank or missing. */
  lemma {:induction false} ModelLinkEmpty(models: Dict<string>, keys: seq<string>)
    ensures ModelLink(models, keys) == [] <==> forall j :: 0 <= j < |keys| ==> ModelAt(models, keys[j]) == []
    decreases |keys|
  {
    if keys != [] {
      ModelLinkEmpty(models, keys[1..]);
      assert forall j :: 0 < j < |keys| ==> keys[1..][j - 1] == keys[j];
    }
  }

  /** `pick_link`: the picked text of the link keys, else a plain string, else a model link, else nothing. */
  function PickLink(bot: Obj, models: Dict<string>): (r: string)
    ensures r == [] || Stripped(r)
  {
    var direct := PickText(bot, UrlKeys);
    if direct != [] then direct
    else
      var plain := DirectText(bot, DirectKeys);
      if plain != [] then plain else ModelLink(models, ModelLinkKeys)
  }

  /**
   * The three tiers of `pick_link`, each in its key order: the picked text of the link keys;
   * else the first plain-string key with a non-blank text; else the first model key with a
   * non-blank link. The link is empty exactly when all three find nothing.
   */
  lemma PickLinkTiers(bot: Obj, models: Dict<string>)
    ensures PickText(bot, UrlKeys) != [] ==> PickLink(bot, models) == PickText(bot, UrlKeys)
    ensures forall i :: PickText(bot, UrlKeys) == [] && 0 <= i < |DirectKeys| && DirectAt(bot, DirectKeys[i]) != []
                        && (forall j :: 0 <= j < i ==> DirectAt(bot, DirectKeys[j]) == [])
                        ==> PickLink(bot, models) == DirectAt(bot, DirectKeys[i])
    ensures forall i :: PickText(bot, UrlKeys) == [] && (forall j :: 0 <= j < |DirectKeys| ==> DirectAt(bot, DirectKeys[j]) == [])
                        && 0 <= i < |ModelLinkKeys| && ModelAt(models, ModelLinkKeys[i]) != []
                        && (forall j :: 0 <= j < i ==> ModelAt(models, ModelLinkKeys[j]) == [])
                        ==> PickLink(bot, models) == ModelAt(models, ModelLinkKeys[i])
    ensures PickLink(bot, models) == [] <==>
              && PickText(bot, UrlKeys) == []
              && (forall j :: 0 <= j < |DirectKeys| ==> DirectAt(bot, DirectKeys[j]) == [])
              && (forall j :: 0 <= j < |ModelLinkKeys| ==> ModelAt(models, ModelLinkKeys[j]) == [])
  {
    DirectTextEmpty(bot, DirectKeys);
    ModelLinkEmpty(models, ModelLinkKeys);
    forall i | 0 <= i < |DirectKeys| && DirectAt(bot, DirectKeys[i]) != []
               && (forall j :: 0 <= j < i ==> DirectAt(bot, DirectKeys[j]) == [])
      ensures DirectText(bot, DirectKeys) == DirectAt(bot, DirectKeys[i])
    {
      DirectTextFirst(bot, DirectKeys, i);
    }
    forall i | 0 <= i < |ModelLinkKeys| && ModelAt(models, ModelLinkKeys[i]) != []
               && (forall j :: 0 <= j < i ==> ModelAt(models, ModelLinkKeys[j]) == [])
      ensures ModelLink(models, ModelLinkKeys) == ModelAt(models, ModelLinkKeys[i])
    {
      ModelLinkFirst(models, ModelLinkKeys, i);
    }
  }

  /**
   * Every plain-string key is also a link key, so the plain-string search finds something
   * only when the picked link value was a dict.
   */
  lemma PlainOnlyAfterDict(bot: Obj, urls: seq<string>, direct: seq<string>)
    requires forall k :: k in direct ==> k in urls
    requires PickText(bot, urls) == [] && DirectText(bot, direct) != []
    ensures PickValue(bot, urls).Some? && PickValue(bot, urls).value.JObj?
  {
    var i := DirectTextKey(bot, direct);
    assert direct[i] in urls;
    var j :| 0 <= j < |urls| && urls[j] == direct[i];
    assert Usable(Get(bot, urls[j]));
  }

  lemma DirectKeysAreUrlKeys()
    ensures forall k :: k in DirectKeys ==> k in UrlKeys
  {
    assert DirectKeys == UrlKeys[3..5] + UrlKeys[6..];
  }

  // ---------------------------------------------------------------------------------------
  // The counting loop of main
  // ---------------------------------------------------------------------------------------

  /** One sample of the report. */
  datatype Sample = Sample(botTitle: Json, about: string, limits: string, example: string, link: string)

  /** The counters and lists of `main`. */
  datatype Summary = Summary(
    total: nat, about: nat, limits: nat, example: nat, links: nat,
    missing: seq<Json>, samples: seq<Sample>)

  const Empty: Summary := Summary(0, 0, 0, 0, 0, [], [])

  /** `bot.get('botTitle', '')` */
  function TitleOf(bot: Obj): Json {
    Get(bot, "botTitle").GetOr(JStr([]))
  }

  function Count(b: bool): nat {
    if b then 1 else 0
  }

  /** The texts, models and link of a bot, as `main` picks them. */
  datatype Picks = Picks(about: string, limits: string, example: string, link: string)

  function PicksOf(bot: Obj): (p: Picks)
    ensures p.about == [] || Stripped(p.about)
    ensures p.limits == [] || Stripped(p.limits)
    ensures p.example == [] || Stripped(p.example)
  {
    Picks(PickText(bot, AboutKeys), PickText(bot, LimitKeys), PickText(bot, ExampleKeys), PickLink(bot, Models(bot)))
  }

  /** One bot counted: every counter it qualifies for goes up, its title kept while fewer than 10 lack a link. */
  function Counted(s: Summary, title: Json, p: Picks): Summary {
    Summary(
      s.total + 1,
      s.about + Count(p.about != []),
      s.limits + Count(p.limits != []),
      s.example + Count(p.example != []),
      s.links + Count(p.link != []),
      if p.link == [] && |s.missing| < 10 then s.missing + [title] else s.missing,
      s.samples)
  }

  /** `if about or limits or example` */
  predicate HasText(p: Picks) {
    p.about != [] || p.limits != [] || p.example != []
  }

  /** The sample of one bot: its texts cut to 120 characters, its link or `(missing)`. */
  function SampleOf(title: Json, p: Picks): (r: Sample)
    ensures r.botTitle == title
    ensures |r.about| <= Width + 3 && |r.limits| <= Width + 3 && |r.example| <= Width + 3
    ensures '\n' !in r.about && '\n' !in r.limits && '\n' !in r.example
    ensures (r.about == [] <==> Strip(p.about) == []) && (r.limits == [] <==> Strip(p.limits) == [])
    ensures r.example == [] <==> Strip(p.example) == []
    ensures r.link != [] && (p.link != [] ==> r.link == p.link)
  {
    Sample(title, Truncate(p.about, Width), Truncate(p.limits, Width), Truncate(p.example, Width),
           if p.link != [] then p.link else "(missing)")
  }

  /** A sample taken while there are fewer than 5 and the bot has some text. */
  function Sampled(s: Summary, title: Json, p: Picks): Summary {
    if |s.samples| < 5 && HasText(p) then s.(samples := s.samples + [SampleOf(title, p)]) else s
  }

  /** One bot: counted, then perhaps sampled. */
  function Observe(s: Summary, title: Json, p: Picks): Summary {
    Sampled(Counted(s, title, p), title, p)
  }

  function Min(a: nat, b: nat): nat {
    if a <= b then a else b
  }

  /**
   * What the report promises: each counter at most the number of bots, the bots missing a
   * link are the rest, 10 of their titles at most, and at most 5 samples, each with some text.
   */
  ghost predicate Valid(s: Summary) {
    && s.about <= s.total && s.limits <= s.total && s.example <= s.total
    && s.links <= s.total
    && |s.missing| == Min(10, s.total - s.links)
    && |s.samples| <= 5
    && (forall i :: 0 <= i < |s.samples| ==>
          (s.samples[i].about != [] || s.samples[i].limits != [] || s.samples[i].example != [])
          && s.samples[i].link != [])
  }

  /** A bot is one more in the total and keeps the promises. */
  lemma ObserveValid(s: Summary, title: Json, p: Picks)
    requires Valid(s)
    requires p.about == [] || Stripped(p.about)
    requires p.limits == [] || Stripped(p.limits)
    requires p.example == [] || Stripped(p.example)
    ensures Valid(Observe(s, title, p)) && Observe(s, title, p).total == s.total + 1
  {
    if p.about != [] {
      StripStripped(p.about);
    }
    if p.limits != [] {
      StripStripped(p.limits);
    }
    if p.example != [] {
      StripStripped(p.example);
    }
  }

  function TallyBots(s: Summary, bots: seq<Obj>): Summary
    decreases |bots|
  {
    if bots == [] then s
    else
      var bot := bots[|bots| - 1];
      Observe(TallyBots(s, bots[..|bots| - 1]), TitleOf(bot), PicksOf(bot))
  }

  function TallyCategories(s: Summary, cats: seq<Category>): Summary
    decreases |cats|
  {
    if cats == [] then s else TallyBots(TallyCategories(s, cats[..|cats| - 1]), cats[|cats| - 1].bots)
  }

  function TallyCatalog(s: Summary, catalog: Catalog): Summary
    decreases |catalog|
  {
    if catalog == [] then s else TallyCategories(TallyCatalog(s, catalog[..|catalog| - 1]), catalog[|catalog| - 1].categories)
  }

  /** The report's figures for a catalog. */
  function Summarize(catalog: Catalog): Summary {
    TallyCatalog(Empty, catalog)
  }

  lemma {:induction false} TallyBotsValid(s: Summary, bots: seq<Obj>)
    requires Valid(s)
    ensures Valid(TallyBots(s, bots)) && TallyBots(s, bots).total == s.total + |bots|
    decreases |bots|
  {
    if bots != [] {
      var n := |bots| - 1;
      TallyBotsValid(s, bots[..n]);
      ObserveValid(TallyBots(s, bots[..n]), TitleOf(bots[n]), PicksOf(bots[n]));
    }
  }

  lemma {:induction false} TallyCategoriesValid(s: Summary, cats: seq<Category>)
    requires Valid(s)
    ensures Valid(TallyCategories(s, cats)) && TallyCategories(s, cats).total == s.total + CategoriesBotCount(cats)
    decreases |cats|
  {
    if cats != [] {
      var n := |cats| - 1;
      TallyCategoriesValid(s, cats[..n]);
      TallyBotsValid(TallyCategories(s, cats[..n]), cats[n].bots);
    }
  }

  lemma {:induction false} TallyCatalogValid(s: Summary, catalog: Catalog)
    requires Valid(s)
    ensures Valid(TallyCatalog(s, catalog)) && TallyCatalog(s, catalog).total == s.total + CatalogBotCount(catalog)
    decreases |catalog|
  {
    if catalog != [] {
      var n := |catalog| - 1;
      TallyCatalogValid(s, catalog[..n]);
      TallyCategoriesValid(TallyCatalog(s, catalog[..n]), catalog[n].categories);
    }
  }

  // ---------------------------------------------------------------------------------------
  // The figures as functions of the bots, in the order the loops visit them
  // ---------------------------------------------------------------------------------------

  /** The bots of some categories, category after category. */
  function CategoryBots(cats: seq<Category>): seq<Obj>
    decreases |cats|
  {
    if cats == [] then [] else CategoryBots(cats[..|cats| - 1]) + cats[|cats| - 1].bots
  }

  /** The bots of a catalog, in the order of the nested loops. */
  function AllBots(catalog: Catalog): seq<Obj>
    decreases |catalog|
  {
    if catalog == [] then [] else AllBots(catalog[..|catalog| - 1]) + CategoryBots(catalog[|catalog| - 1].categories)
  }

  lemma {:induction false} CategoryBotsCount(cats: seq<Category>)
    ensures |CategoryBots(cats)| == CategoriesBotCount(cats)
    decreases |cats|
  {
    if cats != [] {
      CategoryBotsCount(cats[..|cats| - 1]);
    }
  }

  /** The flattened bots are as many as the catalog counts. */
  lemma {:induction false} AllBotsCount(catalog: Catalog)
    ensures |AllBots(catalog)| == CatalogBotCount(catalog)
    decreases |catalog|
  {
    if catalog != [] {
      AllBotsCount(catalog[..|catalog| - 1]);
      CategoryBotsCount(catalog[|catalog| - 1].categories);
    }
  }

  /** Tallying two runs of bots is tallying the first, then the second. */
  lemma {:induction false} TallyBotsAppend(s: Summary, a: seq<Obj>, b: seq<Obj>)
    ensures TallyBots(s, a + b) == TallyBots(TallyBots(s, a), b)
    decreases |b|
  {
    if b == [] {
      assert a + b == a;
    } else {
      var n := |b| - 1;
      assert (a + b)[..|a + b| - 1] == a + b[..n];
      assert (a + b)[|a + b| - 1] == b[n];
      TallyBotsAppend(s, a, b[..n]);
    }
  }

  lemma {:induction false} TallyCategoriesFlat(s: Summary, cats: seq<Category>)
    ensures TallyCategories(s, cats) == TallyBots(s, CategoryBots(cats))
    decreases |cats|
  {
    if cats != [] {
      var n := |cats| - 1;
      TallyCategoriesFlat(s, cats[..n]);
      TallyBotsAppend(s, CategoryBots(cats[..n]), cats[n].bots);
    }
  }

  /** The nested loops tally the flattened bots. */
  lemma {:induction false} TallyCatalogFlat(s: Summary, catalog: Catalog)
    ensures TallyCatalog(s, catalog) == TallyBots(s, AllBots(catalog))
    decreases |catalog|
  {
    if catalog != [] {
      var n := |catalog| - 1;
      TallyCatalogFlat(s, catalog[..n]);
      TallyCategoriesFlat(TallyCatalog(s, catalog[..n]), catalog[n].categories);
      TallyBotsAppend(s, AllBots(catalog[..n]), CategoryBots(catalog[n].categories));
    }
  }

  /** The four counters of the report. */
  datatype Figure = AboutFigure | LimitsFigure | ExampleFigure | LinkFigure

  predicate Shows(p: Picks, f: Figure) {
    match f
    case AboutFigure => p.about != []
    case LimitsFigure => p.limits != []
    case ExampleFigure => p.example != []
    case LinkFigure => p.link != []
  }

  function Counter(s: Summary, f: Figure): nat {
    match f
    case AboutFigure => s.about
    case LimitsFigure => s.limits
    case ExampleFigure => s.example
    case LinkFigure => s.links
  }

  /** What the loop sees of each bot: its title and its picks. */
  function Observations(bots: seq<Obj>): seq<(Json, Picks)>
    decreases |bots|
  {
    if bots == [] then [] else Observations(bots[..|bots| - 1]) + [(TitleOf(bots[|bots| - 1]), PicksOf(bots[|bots| - 1]))]
  }

  function TallyObservations(s: Summary, obs: seq<(Json, Picks)>): Summary
    decreases |obs|
  {
    if obs == [] then s else Observe(TallyObservations(s, obs[..|obs| - 1]), obs[|obs| - 1].0, obs[|obs| - 1].1)
  }

  lemma {:induction false} TallyBotsObservations(s: Summary, bots: seq<Obj>)
    ensures TallyBots(s, bots) == TallyObservations(s, Observations(bots))
    decreases |bots|
  {
    if bots != [] {
      var n := |bots| - 1;
      TallyBotsObservations(s, bots[..n]);
      var obs := Observations(bots);
      assert obs[..|obs| - 1] == Observations(bots[..n]);
    }
  }

  /** The number of bots a counter counts. */
  function Showing(obs: seq<(Json, Picks)>, f: Figure): nat
    decreases |obs|
  {
    if obs == [] then 0 else Showing(obs[..|obs| - 1], f) + Count(Shows(obs[|obs| - 1].1, f))
  }

  /** The titles of the bots without a link, in order. */
  function Linkless(obs: seq<(Json, Picks)>): seq<Json>
    decreases |obs|
  {
    if obs == [] then []
    else
      var o := obs[|obs| - 1];
      Linkless(obs[..|obs| - 1]) + (if o.1.link == [] then [o.0] else [])
  }

  /** The samples of the bots with some text, in order. */
  function Samples(obs: seq<(Json, Picks)>): seq<Sample>
    decreases |obs|
  {
    if obs == [] then []
    else
      var o := obs[|obs| - 1];
      Samples(obs[..|obs| - 1]) + (if HasText(o.1) then [SampleOf(o.0, o.1)] else [])
  }

  /** The first `k` elements, or all of them. */
  function Take<T>(xs: seq<T>, k: nat): (r: seq<T>)
    ensures |r| == if |xs| <= k then |xs| else k
    ensures forall i :: 0 <= i < |r| ==> r[i] == xs[i]
  {
    if |xs| <= k then xs else xs[..k]
  }

  /** Appending at most one element while there is room keeps the first `k` elements. */
  lemma TakeStep<T>(xs: seq<T>, e: seq<T>, k: nat)
    requires |e| <= 1
    ensures Take(xs + e, k) == if |Take(xs, k)| < k then Take(xs, k) + e else Take(xs, k)
  {
    if |xs| >= k {
      assert (xs + e)[..k] == xs[..k];
    }
  }

  /** One bot moves each counter by its figure and the lists as the two guards say. */
  lemma ObserveParts(s: Summary, title: Json, p: Picks)
    ensures var r := Observe(s, title, p);
      && r.total == s.total + 1
      && (forall f :: Counter(r, f) == Counter(s, f) + Count(Shows(p, f)))
      && r.missing == (if p.link == [] && |s.missing| < 10 then s.missing + [title] else s.missing)
      && r.samples == (if |s.samples| < 5 && HasText(p) then s.samples + [SampleOf(title, p)] else s.samples)
  {
  }

  /** `TakeStep` after a run already kept: `pre` the list so far, `xs + e` the elements offered. */
  lemma TakeStepAfter<T>(pre: seq<T>, xs: seq<T>, e: seq<T>, k: nat)
    requires |e| <= 1
    ensures Take(pre + (xs + e), k) == if |Take(pre + xs, k)| < k then Take(pre + xs, k) + e else Take(pre + xs, k)
  {
    assert pre + (xs + e) == (pre + xs) + e;
    TakeStep(pre + xs, e, k);
    assert Take(pre + xs, k) + [] == Take(pre + xs, k);
  }

  /** Each counter counts the bots showing its figure. */
  lemma {:induction false} TallyObservationsCounter(s: Summary, obs: seq<(Json, Picks)>, f: Figure)
    ensures Counter(TallyObservations(s, obs), f) == Counter(s, f) + Showing(obs, f)
    ensures TallyObservations(s, obs).total == s.total + |obs|
    decreases |obs|
  {
    if obs != [] {
      var n := |obs| - 1;
      TallyObservationsCounter(s, obs[..n], f);
      ObserveParts(TallyObservations(s, obs[..n]), obs[n].0, obs[n].1);
    }
  }

  /** The links missing: the titles of the first 10 bots without a link. */
  lemma {:induction false} TallyObservationsMissing(s: Summary, obs: seq<(Json, Picks)>)
    requires |s.missing| <= 10
    ensures TallyObservations(s, obs).missing == Take(s.missing + Linkless(obs), 10)
    decreases |obs|
  {
    if obs == [] {
      assert s.missing + [] == s.missing;
    } else {
      var n := |obs| - 1;
      var o := obs[n];
      TallyObservationsMissing(s, obs[..n]);
      ObserveParts(TallyObservations(s, obs[..n]), o.0, o.1);
      var e := if o.1.link == [] then [o.0] else [];
      assert Linkless(obs) == Linkless(obs[..n]) + e;
      TakeStepAfter(s.missing, Linkless(obs[..n]), e, 10);
    }
  }

  /** The samples: those of the first 5 bots with some text. */
  lemma {:induction false} TallyObservationsSamples(s: Summary, obs: seq<(Json, Picks)>)
    requires |s.samples| <= 5
    ensures TallyObservations(s, obs).samples == Take(s.samples + Samples(obs), 5)
    decreases |obs|
  {
    if obs == [] {
      assert s.samples + [] == s.samples;
    } else {
      var n := |obs| - 1;
      var o := obs[n];
      TallyObservationsSamples(s, obs[..n]);
      ObserveParts(TallyObservations(s, obs[..n]), o.0, o.1);
      var e := if HasText(o.1) then [SampleOf(o.0, o.1)] else [];
      assert Samples(obs) == Samples(obs[..n]) + e;
      TakeStepAfter(s.samples, Samples(obs[..n]), e, 5);
    }
  }

  /** The bots with a link and the bots without one make up all of them. */
  lemma {:induction false} LinklessCount(obs: seq<(Json, Picks)>)
    ensures Showing(obs, LinkFigure) + |Linkless(obs)| == |obs|
    decreases |obs|
  {
    if obs != [] {
      LinklessCount(obs[..|obs| - 1]);
    }
  }

  /**
   * The report's figures over the bots of the catalog, in loop order: the total, each
   * counter the number of bots with that figure, the missing-link figure the number of
   * bots without a link, the first 10 of their titles and the first 5 samples.
   */
  lemma SummarizeFigures(catalog: Catalog)
    ensures var obs := Observations(AllBots(catalog)); var r := Summarize(catalog);
      && r.total == |obs|
      && r.about == Showing(obs, AboutFigure)
      && r.limits == Showing(obs, LimitsFigure)
      && r.example == Showing(obs, ExampleFigure)
      && r.links == Showing(obs, LinkFigure)
      && r.total - r.links == |Linkless(obs)|
      && r.missing == Take(Linkless(obs), 10)
      && r.samples == Take(Samples(obs), 5)
  {
    var bots := AllBots(catalog);
    TallyCatalogFlat(Empty, catalog);
    TallyBotsObservations(Empty, bots);
    TallyFigures(Observations(bots));
  }

  /** The figures of a run of observations tallied from the empty summary. */
  lemma TallyFigures(obs: seq<(Json, Picks)>)
    ensures var r := TallyObservations(Empty, obs);
      && r.total == |obs|
      && r.about == Showing(obs, AboutFigure)
      && r.limits == Showing(obs, LimitsFigure)
      && r.example == Showing(obs, ExampleFigure)
      && r.links == Showing(obs, LinkFigure)
      && r.total - r.links == |Linkless(obs)|
      && r.missing == Take(Linkless(obs), 10)
      && r.samples == Take(Samples(obs), 5)
  {
    TallyObservationsCounter(Empty, obs, AboutFigure);
    TallyObservationsCounter(Empty, obs, LimitsFigure);
    TallyObservationsCounter(Empty, obs, ExampleFigure);
    TallyObservationsCounter(Empty, obs, LinkFigure);
    TallyObservationsMissing(Empty, obs);
    TallyObservationsSamples(Empty, obs);
    assert Empty.missing + Linkless(obs) == Linkless(obs);
    assert Empty.samples + Samples(obs) == Samples(obs);
    LinklessCount(obs);
  }

  /**
   * The figures of a catalog: one per bot in the total, the bots missing a link are those
   * without one, and the lists stay within their bounds.
   */
  lemma SummarizeValid(catalog: Catalog)
    ensures Valid(Summarize(catalog))
    ensures Summarize(catalog).total == CatalogBotCount(catalog)
    ensures Summarize(catalog).total - Summarize(catalog).links == |Linkless(Observations(AllBots(catalog)))|
  {
    TallyCatalogValid(Empty, catalog);
    SummarizeFigures(catalog);
  }

  lemma TallyBotsStep(s: Summary, bots: seq<Obj>, k: nat)
    requires k < |bots|
    ensures TallyBots(s, bots[..k + 1]) == Observe(TallyBots(s, bots[..k]), TitleOf(bots[k]), PicksOf(bots[k]))
  {
    assert bots[..k + 1][..k] == bots[..k];
  }

  lemma TallyCategoriesStep(s: Summary, cats: seq<Category>, j: nat)
    requires j < |cats|
    ensures TallyCategories(s, cats[..j + 1]) == TallyBots(TallyCategories(s, cats[..j]), cats[j].bots)
  {
    assert cats[..j + 1][..j] == cats[..j];
  }

  lemma TallyCatalogStep(s: Summary, catalog: Catalog, i: nat)
    requires i < |catalog|
    ensures TallyCatalog(s, catalog[..i + 1]) == TallyCategories(TallyCatalog(s, catalog[..i]), catalog[i].categories)
  {
    assert catalog[..i + 1][..i] == catalog[..i];
  }

  /** The counters after one bot with the given picks, updated as `main` does. */
  method CountBot(s: Summary, title: Json, p: Picks) returns (r: Summary)
    ensures r == Counted(s, title, p)
  {
    r := s.(total := s.total + 1);
    if p.about != [] {
      r := r.(about := r.about + 1);
    }
    if p.limits != [] {
      r := r.(limits := r.limits + 1);
    }
    if p.example != [] {
      r := r.(example := r.example + 1);
    }
    if p.link != [] {
      r := r.(links := r.links + 1);
    } else if |r.missing| < 10 {
      r := r.(missing := r.missing + [title]);
    }
  }

  /** The sample list after one bot. */
  method SampleBot(s: Summary, title: Json, p: Picks) returns (r: Summary)
    ensures r == Sampled(s, title, p)
  {
    r := s;
    if |r.samples| < 5 && (p.about != [] || p.limits != [] || p.example != []) {
      var sample := Sample(title, Truncate(p.about, Width), Truncate(p.limits, Width), Truncate(p.example, Width),
                           if p.link != [] then p.link else "(missing)");
      assert sample == SampleOf(title, p);
      r := r.(samples := r.samples + [sample]);
    }
  }

  /** One bot in the loop of `main`: the picks, then the counters and lists updated. */
  method ObserveBot(s: Summary, bot: Obj) returns (r: Summary)
    ensures r == Observe(s, TitleOf(bot), PicksOf(bot))
  {
    var about := PickText(bot, AboutKeys);
    var limits := PickText(bot, LimitKeys);
    var example := PickText(bot, ExampleKeys);
    var models := PickModels(bot);
    var link := PickLink(bot, models);
    var p := Picks(about, limits, example, link);
    assert p == PicksOf(bot);
    r := CountBot(s, TitleOf(bot), p);
    r := SampleBot(r, TitleOf(bot), p);
  }

  /** The nested loops of `main` over packages, categories and bots. */
  method Report(catalog: Catalog) returns (s: Summary)
    ensures s == Summarize(catalog)
  {
    s := Empty;
    var i := 0;
    while i < |catalog|
      invariant 0 <= i <= |catalog|
      invariant s == TallyCatalog(Empty, catalog[..i])
    {
      TallyCatalogStep(Empty, catalog, i);
      var cats := catalog[i].categories;
      ghost var s0 := s;
      var j := 0;
      while j < |cats|
        invariant 0 <= j <= |cats|
        invariant s == TallyCategories(s0, cats[..j])
      {
        TallyCategoriesStep(s0, cats, j);
        var bots := cats[j].bots;
        ghost var s1 := s;
        var k := 0;
        while k < |bots|
          invariant 0 <= k <= |bots|
          invariant s == TallyBots(s1, bots[..k])
        {
          TallyBotsStep(s1, bots, k);
          s := ObserveBot(s, bots[k]);
          k := k + 1;
        }
        assert bots[..k] == bots;
        j := j + 1;
      }
      assert cats[..j] == cats;
      i := i + 1;
    }
    assert catalog[..i] == catalog;
  }
}
