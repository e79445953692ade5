# Arabic GPTs catalog scripts, modelled in Dafny

The Arabic-GPTs web site shows a catalog of custom GPT bots: packages, their categories
and the bots in each, with an about text (نبذة), limits (حدود), an example (مثال) and model
links for every bot. The catalog is kept in Word documents, and a set of Python scripts
turns them into `public/new_bots.json` and back. Each script reads the document text line by
line and classifies each line as a main title, a sub-title, a bot title (`#`), a field marker
(`@`) or content. It then builds the nested package → category → bot hierarchy, or merges
texts into an existing catalog, or summarises one.

This project models the logic of those scripts on in-memory data, one module per script:

| module | script | what it is |
|---|---|---|
| `SyncCombinedDoc` | pytoncode/sync_combined_doc.py | parser that raises on a sub-title or bot before any main title; bot records with English aliases; package ids reused by name |
| `GenerateNewBots` | scripts/generate_new_bots_json.py | chunk-by-chunk builder with fallback package and category names, `flush_bot`, URL and model-key normalisers |
| `WordToJson` | pytoncode/word_to_json_with_explanation.py | paragraph parser into main title → sub-title → items, with buffered details written by `save_current_detail` |
| `UpdateFromDocx` | pytoncode/update_from_docx.py | title normalisation, block cutting by known title, description extraction, field overwrite in the catalog |
| `ExtractContent` | pytoncode/extract_content.py | the nested dict written back out as marker lines |
| `ReportSummary` | scripts/report_json_summary.py | priority pickers for text, models and link, and the counting loop of the report |

Shared modules model what the scripts take from Python:
- `Text` holds `str.isspace`, `strip`, `lower` (ASCII), `replace`, `find`, `split` and `join`.
- `Dict` is an insertion-ordered `dict` kept as its sequence of entries.
- `Json` holds JSON values and the typed catalog `packages → categories → bots`.
- `Labels` holds the Arabic marker words.
- `Options` holds `Option` and `Result`.

**How each parser is modelled**
- A parser is a pure `Step(state, line)`. The whole parse is a left fold `Run` of `Step` over the lines.
- A `method` with the source's loop is proved equal to `Run`.
- The state records the current package and category by key or by position.
- In `SyncCombinedDoc` and `WordToJson` the current bot (item) is the last bot of the current category (sub-title). That bot is the one the source edits through its alias.
- `GenerateNewBots` holds the bot being read apart from the packages, as an optional raw bot in the state, until `FlushBot` exports it and appends it to its category. This is how the script works: its current bot belongs to no category until `flush_bot` runs.
- The pending field, model or detail buffer is part of the state.
- Facts about a single line are lemmas about `Step`. Facts about a whole parse, such as bot counts and distinct names, are induction lemmas about `Run`.

**Loops in the other scripts**
- The loops in `build_known_map`, `load_existing_package_ids`, the two `build_payload`s, `update_public_json`, `extract_and_print_content` and `pick_models`, and the report loop, are methods with loops.
- Each of these methods is proved equal to a left-fold function, and the properties are proved about that function.

**Where the code and its descriptions differ, the model follows the code**
- `extract_and_print_content` writes the second separator rule once per main title (pytoncode/extract_content.py:30). Its comment says "sub-titles", but the statement sits at the main-title level of the loop.
- `flush_bot` takes the primary link from `4o`, else from `5`, else it is empty (scripts/generate_new_bots_json.py:130). There is no third fallback to another model.
- No script keeps an "extra links" list or `link-N` keys.
- Package ids are never computed as "max + 1":
  - `sync_combined_doc.py` reuses an existing id by name, and otherwise uses the 1-based position;
  - `generate_new_bots_json.py` always uses the 1-based position.

  Ids may therefore collide, and nothing here claims they are unique.
- No script merges bots between catalogs. `update_from_docx.py` only overwrites the three text fields of bots that are already there.

## Model

| member | source | states |
|---|---|---|
| SyncCombinedDoc.NormalizeLine | pytoncode/sync_combined_doc.py:38-39 | the normalised line has no right-to-left or left-to-right mark and no whitespace at either end |
| SyncCombinedDoc.NormalizeLineIdempotent | pytoncode/sync_combined_doc.py:38-39 | normalising a normalised line changes nothing |
| SyncCombinedDoc.Kind | pytoncode/sync_combined_doc.py:52-95 | defines the class of a normalised line, tested in the order of the source: empty, main title, sub-title, `#`, `@`, else content |
| SyncCombinedDoc.TitleValue | pytoncode/sync_combined_doc.py:56 | defines the title value: the stripped text after the first `:`, or `""` when the line has none |
| SyncCombinedDoc.IsHttpLine | pytoncode/sync_combined_doc.py:128-129 | defines the URL test: the lower-cased line starts with `http://` or `https://` |
| SyncCombinedDoc.NewBot | pytoncode/sync_combined_doc.py:83-89 | defines a new bot: the title, no models, and the three texts empty |
| SyncCombinedDoc.SetCurrentBot | pytoncode/sync_combined_doc.py:123-130 | an in-place edit of the current bot replaces only the last bot of the current category; every other category's list and the package keys are unchanged |
| SyncCombinedDoc.OnMainTitle | pytoncode/sync_combined_doc.py:55-63 | the state after a main title satisfies the parser invariant (current package exists, current bot is the last of its category, texts stripped) |
| SyncCombinedDoc.OnSubTitle | pytoncode/sync_combined_doc.py:65-74 | with a main title in force, the state after a sub-title satisfies the parser invariant |
| SyncCombinedDoc.OnBotTitle | pytoncode/sync_combined_doc.py:76-93 | with a main title in force, the state after a `#` line satisfies the parser invariant |
| SyncCombinedDoc.OnTag | pytoncode/sync_combined_doc.py:95-118 | an `@` line changes only the field and the model |
| SyncCombinedDoc.OnOtherTag | pytoncode/sync_combined_doc.py:98-118 | with a bot, a tag other than نموذج clears the model and sets only the field: نبذة, حدود and مثال select their own field, روابط and any unknown tag select none; without a bot nothing changes |
| SyncCombinedDoc.AppendLine | pytoncode/sync_combined_doc.py:126 | a stripped line added to a field leaves the field stripped |
| SyncCombinedDoc.OnContent | pytoncode/sync_combined_doc.py:120-130 | a content line keeps the parser invariant |
| SyncCombinedDoc.OnTextContent | pytoncode/sync_combined_doc.py:123-126 | a line in a text field becomes the field when that is empty, and is otherwise appended after a newline; only the current bot changes, and every other bot, category and package stays |
| SyncCombinedDoc.OnModelLink | pytoncode/sync_combined_doc.py:127-130 | in model-link mode a URL line is stored under the current model key, overwriting an earlier link, and only the current bot changes; any other line changes nothing; field and model stay |
| SyncCombinedDoc.OnModelLinkHttp | pytoncode/sync_combined_doc.py:127-130 | storing a URL line is the in-place edit of the current bot that puts the line under the current key, and that bot keeps its texts stripped |
| SyncCombinedDoc.SetCurrentBotLast | pytoncode/sync_combined_doc.py:125-130 | after an in-place edit, the current bot is the bot written |
| SyncCombinedDoc.Step | pytoncode/sync_combined_doc.py:50-130 | a line that does not raise keeps the parser invariant |
| SyncCombinedDoc.Run | pytoncode/sync_combined_doc.py:50-132 | a parse that does not raise ends in a state satisfying the invariant |
| SyncCombinedDoc.ParseCombinedDoc | pytoncode/sync_combined_doc.py:42-132 | the loop returns the packages of the fold, or its error |
| SyncCombinedDoc.ErrorStays | pytoncode/sync_combined_doc.py:65-78 | once a line has raised, later lines do not change the outcome |
| SyncCombinedDoc.StepRaises | pytoncode/sync_combined_doc.py:65-78 | a line raises the sub-title error exactly when it is a sub-title with no main title, and the bot error exactly when it is a `#` line with no main title; nothing else raises |
| SyncCombinedDoc.StepMainTitle | pytoncode/sync_combined_doc.py:55-63 | a main title makes its package current, appending it only if new, keeps every existing bot, and clears category, bot, field and model |
| SyncCombinedDoc.StepSubTitle | pytoncode/sync_combined_doc.py:65-74 | a sub-title makes its category current (غير مصنف for an empty value), creates it empty only if missing, keeps every existing list, leaves every other (package, category) as it was (absent ones stay absent), and clears bot, field and model |
| SyncCombinedDoc.StepBotTitle | pytoncode/sync_combined_doc.py:76-93 | a `#` line appends exactly one bot with the stripped title and empty fields and models, to the current category or to غير مصنف; all other lists unchanged |
| SyncCombinedDoc.StepWithoutBot | pytoncode/sync_combined_doc.py:95-121 | with no current bot, `@` lines and content lines leave the state unchanged |
| SyncCombinedDoc.StepModelTag | pytoncode/sync_combined_doc.py:112-114 | `@نموذج <suffix>` selects model-link mode under the stripped suffix, or under `link` when it is empty, and changes nothing else |
| SyncCombinedDoc.StepOtherTag | pytoncode/sync_combined_doc.py:98-118 | with a bot, every other `@` line clears the model and changes only the field: نبذة, حدود and مثال select their own field, روابط and any unknown tag select none; without a bot nothing changes |
| SyncCombinedDoc.StepTextContent | pytoncode/sync_combined_doc.py:123-126 | a content line in a text field becomes the field when that is empty, and is otherwise appended after a newline; only the current bot changes, and every other bot, category and package stays |
| SyncCombinedDoc.StepModelLink | pytoncode/sync_combined_doc.py:127-130 | in model-link mode an http(s) line in any case is stored under the current key, overwriting an earlier link, and only the current bot changes; any other line is dropped; the mode stays |
| SyncCombinedDoc.SetCurrentBotCount | pytoncode/sync_combined_doc.py:123-130 | editing the current bot keeps the number of bots |
| SyncCombinedDoc.OnMainTitleCount | pytoncode/sync_combined_doc.py:55-63 | a main title keeps the number of bots |
| SyncCombinedDoc.OnSubTitleCount | pytoncode/sync_combined_doc.py:65-74 | a sub-title keeps the number of bots |
| SyncCombinedDoc.OnBotTitleCount | pytoncode/sync_combined_doc.py:76-93 | a `#` line adds exactly one bot |
| SyncCombinedDoc.OnContentCount | pytoncode/sync_combined_doc.py:120-130 | a content line keeps the number of bots |
| SyncCombinedDoc.StepCount | pytoncode/sync_combined_doc.py:50-130 | a line adds one bot if it is a `#` line and none otherwise |
| SyncCombinedDoc.RunCount | pytoncode/sync_combined_doc.py:42-132 | a successful parse holds exactly one bot per `#` line |
| SyncCombinedDoc.NonEmptyLinks | pytoncode/sync_combined_doc.py:151 | the filtered links are exactly the entries with a non-empty value |
| SyncCombinedDoc.KeptLinks | pytoncode/sync_combined_doc.py:151 | defines the kept entries: those with a non-empty value, in their order |
| SyncCombinedDoc.KeptLinksMembers | pytoncode/sync_combined_doc.py:151 | an entry is kept exactly when it is an entry of the models with a non-empty value |
| SyncCombinedDoc.KeptLinksAppend | pytoncode/sync_combined_doc.py:151 | filtering two runs of entries one after the other is filtering each in turn |
| SyncCombinedDoc.NonEmptyLinksAppend | pytoncode/sync_combined_doc.py:151 | the filter keeps the order: the filtered concatenation is the first run filtered, then the second |
| SyncCombinedDoc.NonEmptyLinksOne | pytoncode/sync_combined_doc.py:151 | one entry is kept exactly when its value is non-empty |
| SyncCombinedDoc.AliasEntries | pytoncode/sync_combined_doc.py:164-176 | the alias entries pair exactly the alias keys with the value |
| SyncCombinedDoc.AliasesIf | pytoncode/sync_combined_doc.py:164-176 | the aliases are added exactly when the value is present |
| SyncCombinedDoc.EntryMembers | pytoncode/sync_combined_doc.py:156-176 | the record built has the canonical and alias entries of its shape |
| SyncCombinedDoc.ShapedCanonical | pytoncode/sync_combined_doc.py:156-162 | each canonical key of such a record holds its value |
| SyncCombinedDoc.ShapedAlias | pytoncode/sync_combined_doc.py:164-176 | each alias of such a record is present exactly when its value is non-empty, and then equals it |
| SyncCombinedDoc.EnrichBotEntry | pytoncode/sync_combined_doc.py:150-178 | defines the exported record of a bot; `EnrichBotEntryFields` states what it holds |
| SyncCombinedDoc.EnrichBotEntryFields | pytoncode/sync_combined_doc.py:150-178 | the record holds the title, the non-empty links and the stripped texts under their Arabic keys; model/models/links, about/description, limits/constraints, example/examples are present exactly when their value is non-empty |
| SyncCombinedDoc.ExistingIds | pytoncode/sync_combined_doc.py:142-147 | defines the name-to-id mapping, package by package, a later package with the same stripped name overwriting; `ExistingIdsSpec` states what it holds |
| SyncCombinedDoc.LoadExistingPackageIds | pytoncode/sync_combined_doc.py:142-147 | the loop computes the name-to-id mapping of the fold over the packages |
| SyncCombinedDoc.ExistingIdsSpec | pytoncode/sync_combined_doc.py:142-147 | the mapping holds exactly the non-blank stripped package names, and a name maps to the id of the last package with it |
| SyncCombinedDoc.ExistingIdsKeys | pytoncode/sync_combined_doc.py:142-147 | a name is a key of the mapping exactly when it is non-blank and some package's stripped name |
| SyncCombinedDoc.ExistingIdsValues | pytoncode/sync_combined_doc.py:142-147 | a non-blank name that no later package repeats is mapped to that package's id |
| SyncCombinedDoc.ExportBots | pytoncode/sync_combined_doc.py:192-193 | every bot of a category is exported through `enrich_bot_entry`, in order |
| SyncCombinedDoc.ExportCategories | pytoncode/sync_combined_doc.py:190-194 | every category is exported with its name and its bots, in order |
| SyncCombinedDoc.BuildPayload | pytoncode/sync_combined_doc.py:181-196 | packages keep their order and names; a package's id is its earlier id when its name has one, else its 1-based position; the bots exported are as many as the packages hold |
| SyncCombinedDoc.ExportedCategoriesCount | pytoncode/sync_combined_doc.py:190-194 | exported categories hold as many bots as their source categories |
| SyncCombinedDoc.ExportedCount | pytoncode/sync_combined_doc.py:181-196 | an exported catalog holds as many bots as the packages |
| GenerateNewBots.HasWebScheme | scripts/generate_new_bots_json.py:48-49 | defines the scheme test: the text before the first `:` is non-empty and lower-cases to `http` or `https` |
| GenerateNewBots.ToSafeUrl | scripts/generate_new_bots_json.py:44-51 | the result is empty, or the trimmed input with an http or https scheme |
| GenerateNewBots.SchemeFromPrefix | scripts/generate_new_bots_json.py:48-49 | a text that starts with `http:` or `https:` in any case has that scheme |
| GenerateNewBots.WebSchemeByPrefix | scripts/generate_new_bots_json.py:48-49 | the scheme is http or https exactly when the text starts, in any case, with `http:` or `https:` |
| GenerateNewBots.ToSafeUrlByPrefix | scripts/generate_new_bots_json.py:44-51 | the result is the trimmed input exactly when it starts with `http:` or `https:` in any case, and '' otherwise, blank input included |
| GenerateNewBots.ToSafeUrlIdempotent | scripts/generate_new_bots_json.py:44-51 | a safe URL is its own safe form |
| GenerateNewBots.CleanModelToken | scripts/generate_new_bots_json.py:55-56 | defines the cleaning: stripped, lower-cased, Arabic zero made `0`, then `gpt-`, `gpt`, `-` and spaces removed in that order |
| GenerateNewBots.CleanModelTokenShape | scripts/generate_new_bots_json.py:55-56 | the cleaned label holds neither a hyphen nor a space |
| GenerateNewBots.CleanModelTokenIs | scripts/generate_new_bots_json.py:55-56 | the cleaning of a label is its lower-cased, trimmed form without `gpt-` and `gpt`, when that form has no Arabic zero and the result has no hyphen or space |
| GenerateNewBots.NormalizeModelKey | scripts/generate_new_bots_json.py:54-63 | the key is never empty, never holds a space, and holds a hyphen only as `4o-mini` |
| GenerateNewBots.NormalizeModelKeyCases | scripts/generate_new_bots_json.py:57-63 | every branch on the cleaned token, both ways: `4o` exactly for `4o`, `4` or nothing; `4o-mini` exactly for `4omini` or `4omin`; `5` exactly for `5` or `gpt5`; any other token is returned as it is |
| GenerateNewBots.NormalizeModelKeyPassThrough | scripts/generate_new_bots_json.py:57-63 | a cleaned label that names none of the known models is returned as it is |
| GenerateNewBots.NormalizeModelKeyTo4o | scripts/generate_new_bots_json.py:57-63 | a label cleaning to `4o`, `4` or nothing gives `4o` |
| GenerateNewBots.NormalizeModelKeyExamples | scripts/generate_new_bots_json.py:54-63 | "GPT-4O", "gpt4o", "4" and the empty label all give `4o` |
| GenerateNewBots.NormalizeField | scripts/generate_new_bots_json.py:66-68 | the result is None or one of the three canonical fields |
| GenerateNewBots.NormalizeFieldCases | scripts/generate_new_bots_json.py:26-31 | نبذة and النبذة give نبذة, حدود and مثال give themselves, and exactly every other stripped label gives None |
| GenerateNewBots.NonBlankLines | scripts/generate_new_bots_json.py:72 | the kept lines are non-empty and stripped, and no more than the input |
| GenerateNewBots.CollapseLines | scripts/generate_new_bots_json.py:71-73 | the result is stripped |
| GenerateNewBots.CollapseLinesJoin | scripts/generate_new_bots_json.py:71-73 | the result is the stripped non-blank lines joined by newlines (the final trim removes nothing), and '' exactly when there are none |
| GenerateNewBots.SafeModels | scripts/generate_new_bots_json.py:120-125 | the filtered models have distinct keys |
| GenerateNewBots.SafeModelsGet | scripts/generate_new_bots_json.py:120-125 | a model is kept exactly when its link is safe, and then under its key with the trimmed link |
| GenerateNewBots.PrimaryLink | scripts/generate_new_bots_json.py:130 | defines `models.get('4o') or models.get('5') or ''`; `PrimaryLinkChoice` states the choice |
| GenerateNewBots.PrimaryLinkChoice | scripts/generate_new_bots_json.py:130 | the primary link is the non-empty `4o` link, else the `5` link, else empty, and empty exactly when neither is there |
| GenerateNewBots.BotRecord | scripts/generate_new_bots_json.py:132-153 | defines the record, its keys in the order the source assigns them; `BotRecordFields` states what it holds |
| GenerateNewBots.BotRecordShaped | scripts/generate_new_bots_json.py:132-153 | the record built has the canonical, alias, `url` and `hasLink` entries of its shape |
| GenerateNewBots.ShapedGet | scripts/generate_new_bots_json.py:132-153 | each key of such a record holds the value the shape gives it |
| GenerateNewBots.BotRecordFields | scripts/generate_new_bots_json.py:132-153 | the record mirrors the models under النموذج/model/models/links and each text under its Arabic and English names; `url` is present exactly with a primary link; `hasLink` says whether there is one |
| GenerateNewBots.ShapedFields | scripts/generate_new_bots_json.py:132-153 | every key of such a record, looked up |
| GenerateNewBots.ExportBot | scripts/generate_new_bots_json.py:117-153 | defines the record of a finished bot from its safe models, collapsed fields and primary link; `ExportBotFields` states what it holds |
| GenerateNewBots.ExportBotFields | scripts/generate_new_bots_json.py:117-153 | the exported bot's models are exactly the raw models with a safe link, its texts are the collapsed fields, and `url`/`hasLink` follow the primary link |
| GenerateNewBots.FindCategory | scripts/generate_new_bots_json.py:100-107 | the position found holds a category of that name, and none is found only when no category has it |
| GenerateNewBots.WithCategory | scripts/generate_new_bots_json.py:104-106 | appending a category changes only that package's list, by one empty category at the end |
| GenerateNewBots.WithBot | scripts/generate_new_bots_json.py:155 | appending a bot changes only that category, by one bot at the end |
| GenerateNewBots.PackageKey | scripts/generate_new_bots_json.py:92 | the package key is never empty and is stripped |
| GenerateNewBots.CategoryKey | scripts/generate_new_bots_json.py:101 | the category key is never empty and is stripped |
| GenerateNewBots.FallbackKeys | scripts/generate_new_bots_json.py:177-180 | the fallback names are their own keys |
| GenerateNewBots.GetPackage | scripts/generate_new_bots_json.py:91-98 | the package with the key, appended at the end only when no package has it; nothing else changes |
| GenerateNewBots.GetCategory | scripts/generate_new_bots_json.py:100-107 | the category with the key in the package, appended only when the package has none of that name; nothing else changes |
| GenerateNewBots.NewBot | scripts/generate_new_bots_json.py:182-186 | a new bot has the three fields empty and no models |
| GenerateNewBots.FlushBot | scripts/generate_new_bots_json.py:109-159 | a bot being read is appended, exported, to the current category, and nothing is appended without one; bot, field and pending model are always cleared |
| GenerateNewBots.Kind | scripts/generate_new_bots_json.py:162-190 | defines the class of a chunk, tested in the order of the source; the title prefixes carry their colon |
| GenerateNewBots.TitleValue | scripts/generate_new_bots_json.py:164 | defines the title value: the stripped text after the first `:` |
| GenerateNewBots.EnsurePackage | scripts/generate_new_bots_json.py:170-171 | the current package, or the fallback package made current (created only if missing) |
| GenerateNewBots.WithFallbackCategory | scripts/generate_new_bots_json.py:179-180 | the fallback category of the current package is made current |
| GenerateNewBots.OnMainTitle | scripts/generate_new_bots_json.py:162-167 | a main title makes the package of its stripped name (or the fallback) current and leaves no category, bot, field or pending model |
| GenerateNewBots.OnSubTitle | scripts/generate_new_bots_json.py:168-174 | a sub-title makes its category current, in the current package or else in the fallback package |
| GenerateNewBots.OnBotTitle | scripts/generate_new_bots_json.py:175-189 | a `#` line opens a new bot with the stripped title, under the current package and category or the fallbacks |
| GenerateNewBots.OnTag | scripts/generate_new_bots_json.py:190-208 | an `@` line changes only bot, field and pending model, and nothing without a bot |
| GenerateNewBots.OnContent | scripts/generate_new_bots_json.py:210-217 | a content line changes only the bot and the pending model, and nothing without a bot |
| GenerateNewBots.Step | scripts/generate_new_bots_json.py:161-217 | every chunk keeps the builder invariant |
| GenerateNewBots.Run | scripts/generate_new_bots_json.py:161-217 | every run of chunks keeps the builder invariant |
| GenerateNewBots.Payload | scripts/generate_new_bots_json.py:161-219 | defines the packages after every chunk and the final flush; `PayloadCount` and `PayloadNamesDistinct` state what they hold |
| GenerateNewBots.BuildPackages | scripts/generate_new_bots_json.py:161-219 | the loop and its final flush produce the packages of the fold |
| GenerateNewBots.AssignPackageIds | scripts/generate_new_bots_json.py:221-222 | every package gets its 1-based position as id, all else kept |
| GenerateNewBots.BuildPayload | scripts/generate_new_bots_json.py:76-224 | the catalog has ids 1..n in first-seen order, one bot per `#` chunk, and distinct package names |
| GenerateNewBots.CatalogBotCountOfIds | scripts/generate_new_bots_json.py:221-222 | giving packages ids keeps the bot count |
| GenerateNewBots.TagClears | scripts/generate_new_bots_json.py:193-207 | an `@` line sets a pending model exactly for a نموذج label (to the normalised key of the rest), and a field exactly for a known field label; title and models kept |
| GenerateNewBots.TagKeepsFieldText | scripts/generate_new_bots_json.py:204-207 | a field label adds the field only when missing, keeping any text it has |
| GenerateNewBots.PendingTakesOneLine | scripts/generate_new_bots_json.py:213-215 | a pending model takes exactly the next content line as its link and is cleared; other models and fields unchanged |
| GenerateNewBots.ContentAppendsToField | scripts/generate_new_bots_json.py:216-217 | with no pending model, a content line is appended to the current field's lines only |
| GenerateNewBots.NoBotNoChange | scripts/generate_new_bots_json.py:190-212 | with no bot being read, `@` lines and content lines change nothing |
| GenerateNewBots.MarkerClears | scripts/generate_new_bots_json.py:162-189 | every marker line leaves no field and no pending model, and a package in force |
| GenerateNewBots.FlushBotCount | scripts/generate_new_bots_json.py:109-159 | a flush moves the bot being read into the packages, losing none |
| GenerateNewBots.GetPackageCount | scripts/generate_new_bots_json.py:91-98 | looking up a package keeps the bot count |
| GenerateNewBots.GetCategoryCount | scripts/generate_new_bots_json.py:100-107 | looking up a category keeps the bot count |
| GenerateNewBots.EnsurePackageCount | scripts/generate_new_bots_json.py:170-171 | falling back to the default package keeps the bot count |
| GenerateNewBots.StepCount | scripts/generate_new_bots_json.py:161-217 | a `#` chunk adds one bot (exported or being read); every other chunk keeps the number |
| GenerateNewBots.RunCount | scripts/generate_new_bots_json.py:161-217 | after any chunks, the bots exported and being read are as many as the `#` chunks |
| GenerateNewBots.PayloadCount | scripts/generate_new_bots_json.py:161-219 | each `#` chunk yields exactly one exported bot |
| GenerateNewBots.WithBotDistinct | scripts/generate_new_bots_json.py:155 | appending a bot keeps package and category names distinct |
| GenerateNewBots.GetPackageDistinct | scripts/generate_new_bots_json.py:91-98 | get-or-create keeps package and category names distinct |
| GenerateNewBots.GetCategoryDistinct | scripts/generate_new_bots_json.py:100-107 | get-or-create keeps package and category names distinct |
| GenerateNewBots.FlushBotDistinct | scripts/generate_new_bots_json.py:109-159 | a flush keeps names distinct |
| GenerateNewBots.StepDistinct | scripts/generate_new_bots_json.py:161-217 | every chunk keeps names distinct |
| GenerateNewBots.RunNamesDistinct | scripts/generate_new_bots_json.py:91-107 | each package key, and each category key within a package, is appended at most once |
| GenerateNewBots.PayloadNamesDistinct | scripts/generate_new_bots_json.py:161-219 | the packages returned have distinct names, and so have the categories of each |
| WordToJson.CleanValue | pytoncode/word_to_json_with_explanation.py:37-39 | the cleaned value is no longer than the input and neither starts nor ends with `"` |
| WordToJson.CleanValueKeeps | pytoncode/word_to_json_with_explanation.py:37-39 | a value with no whitespace or quote at its ends is already clean |
| WordToJson.TrimCharKeeps | pytoncode/word_to_json_with_explanation.py:39 | `strip(c)` leaves a text that neither starts nor ends with `c` as it is |
| WordToJson.MainTitleName | pytoncode/word_to_json_with_explanation.py:83 | the main-title name is no longer than the line and neither starts nor ends with `"` |
| WordToJson.MainTitleMarkerDropped | pytoncode/word_to_json_with_explanation.py:83 | the `العنوان الرئيسي:` marker at the head of the line is removed: the name is what the rest gives |
| WordToJson.SubTitleText | pytoncode/word_to_json_with_explanation.py:91 | the sub-title text is no longer than the line and has no whitespace at its ends |
| WordToJson.SubTitleMarkerDropped | pytoncode/word_to_json_with_explanation.py:91 | the `العنوان الفرعي:` marker at the head of the line is removed: the text is what the rest gives |
| WordToJson.NewItem | pytoncode/word_to_json_with_explanation.py:113-119 | a new item has the title and the details نبذة, حدود, مثال empty and روابط an empty list, in that order |
| WordToJson.SetItems | pytoncode/word_to_json_with_explanation.py:96-99 | after the assignment the list under main and sub-title is the one given |
| WordToJson.SetItemsOther | pytoncode/word_to_json_with_explanation.py:96-99 | setting one list leaves every other list as it was |
| WordToJson.Dedupe | pytoncode/word_to_json_with_explanation.py:57 | de-duplication keeps exactly the same elements, each once; `DedupeFirstOrder` gives their order |
| WordToJson.FirstAt | pytoncode/word_to_json_with_explanation.py:57 | the index of the first occurrence: it holds the element and no earlier index does |
| WordToJson.FirstAtUnique | pytoncode/word_to_json_with_explanation.py:57 | an index holding the element with none before it is the first occurrence |
| WordToJson.FirstAtPrefix | pytoncode/word_to_json_with_explanation.py:57 | an element of a prefix is first found at the same index in the whole list |
| WordToJson.DedupeFirstOrder | pytoncode/word_to_json_with_explanation.py:57 | `dict.fromkeys` order: the kept elements come in the order of their first occurrences |
| WordToJson.DedupeKeepsPrefix | pytoncode/word_to_json_with_explanation.py:57 | a list with no repeats stays, in order, in front of anything appended to it |
| WordToJson.DedupeOfDistinct | pytoncode/word_to_json_with_explanation.py:57 | a list with no repeats is unchanged |
| WordToJson.CleanedParts | pytoncode/word_to_json_with_explanation.py:53 | the cleaned parts are non-empty and no more than the buffer |
| WordToJson.CleanedPartsOfClean | pytoncode/word_to_json_with_explanation.py:53 | a buffer of clean, non-empty lines is kept as it is |
| WordToJson.DetailValue | pytoncode/word_to_json_with_explanation.py:53 | defines the value written: the cleaned non-empty buffer lines joined by spaces |
| WordToJson.WriteDetail | pytoncode/word_to_json_with_explanation.py:53-67 | the write keeps روابط a list, and a list with no repeated link stays without repeats |
| WordToJson.WriteLinks | pytoncode/word_to_json_with_explanation.py:54-57 | روابط gets the old links followed by the new words, each link once, in the order of first occurrence in old links then words (so the old list is a prefix); other details unchanged |
| WordToJson.WriteModel | pytoncode/word_to_json_with_explanation.py:58-65 | a نموذج value holding `https://` is added once to روابط; any other is stored under its key; nothing else changes |
| WordToJson.WritePlain | pytoncode/word_to_json_with_explanation.py:66-67 | any other detail replaces its key with the joined value; nothing else changes |
| WordToJson.SaveDetail | pytoncode/word_to_json_with_explanation.py:50-69 | the key and buffer are always reset; the data changes only with an item and a key, and then only in the last item of the current list |
| WordToJson.SaveDetailOther | pytoncode/word_to_json_with_explanation.py:50-69 | a save touches no list but the current one |
| WordToJson.IsSeparator | pytoncode/word_to_json_with_explanation.py:77 | defines the separator test: a `--- PAGE` line, or exactly the rule of 40 underscores |
| WordToJson.OnMainTitle | pytoncode/word_to_json_with_explanation.py:81-86 | a main title gets a fresh empty dict (discarding what was under it), no sub-title and no item; other main titles keep what the save left |
| WordToJson.OpenSubTitle | pytoncode/word_to_json_with_explanation.py:96-97 | the sub-title's list is created empty only if missing; every other list is unchanged |
| WordToJson.OnSubTitle | pytoncode/word_to_json_with_explanation.py:87-108 | without a `#` the sub-title gets a fresh empty list; with one, the text before the first `#` is the category (created only if missing) and the text after it a new item at its end; every other list stays as the save left it; without a main title only the save happens |
| WordToJson.ResetSubTitle | pytoncode/word_to_json_with_explanation.py:106-108 | a plain sub-title's list is reset to empty; every other list is unchanged |
| WordToJson.AddItem | pytoncode/word_to_json_with_explanation.py:113-114 | the item is appended to the current list and becomes current; every other list is unchanged |
| WordToJson.OnItemTitle | pytoncode/word_to_json_with_explanation.py:109-119 | a `#` line appends a new item with the cleaned title under a main and sub-title, leaving every other list unchanged, and otherwise only saves |
| WordToJson.OnDetail | pytoncode/word_to_json_with_explanation.py:120-128 | an `@` line saves, then with an item starts a detail with the key before the first `": "` and the value after it |
| WordToJson.DetailHead | pytoncode/word_to_json_with_explanation.py:123-125 | defines the key and first value of an `@` line: the cleaned text before the first `": "` and the cleaned text after it, or `""` when there is none |
| WordToJson.OnContent | pytoncode/word_to_json_with_explanation.py:129-131 | a content line is buffered exactly when an item and a key are active |
| WordToJson.Step | pytoncode/word_to_json_with_explanation.py:71-131 | every paragraph keeps the parser invariant, which includes that the current item's روابط list holds each link once |
| WordToJson.Run | pytoncode/word_to_json_with_explanation.py:71-131 | every run keeps the parser invariant, so every save it reaches writes into an item whose links are distinct, as `WriteLinks` and `WriteModel` require |
| WordToJson.Extract | pytoncode/word_to_json_with_explanation.py:71-133 | defines the data after every paragraph and the final save; `ExtractContentFromDocx` computes it |
| WordToJson.ExtractContentFromDocx | pytoncode/word_to_json_with_explanation.py:41-133 | the loop and final save return the data of the fold |
| UpdateFromDocx.RemoveMarks | pytoncode/update_from_docx.py:52 | the result holds no direction mark and only characters of the input |
| UpdateFromDocx.UnifyQuotes | pytoncode/update_from_docx.py:54 | every « » “ ” becomes `"`, every other character stays |
| UpdateFromDocx.MarkerRun | pytoncode/update_from_docx.py:57 | the leading run of `#`/`@` is maximal |
| UpdateFromDocx.StripMarkers | pytoncode/update_from_docx.py:57 | removing the markers never lengthens the text |
| UpdateFromDocx.StripMarkersSubset | pytoncode/update_from_docx.py:57 | removing markers only removes characters |
| UpdateFromDocx.RemoveMarksNone | pytoncode/update_from_docx.py:52 | a text without direction marks is left unchanged |
| UpdateFromDocx.RemoveMarksAppend | pytoncode/update_from_docx.py:52 | removing marks from two texts joined is removing them from each, order kept |
| UpdateFromDocx.MarkerRunOf | pytoncode/update_from_docx.py:57 | `[#@]+` is greedy: the run in front of a non-marker is all of it |
| UpdateFromDocx.StripMarkersRun | pytoncode/update_from_docx.py:57 | for any whitespace, a non-empty run of `#`/`@`, whitespace and a rest that starts with neither whitespace nor (right after the run) a marker, the result is exactly the rest |
| UpdateFromDocx.NormalizeText | pytoncode/update_from_docx.py:48-59 | defines `normalize_text`: marks removed, quotes unified, stripped, one leading marker run removed, whitespace runs made one space, stripped; `NormalizeTextShape` states the result |
| UpdateFromDocx.NormalizeTextChars | pytoncode/update_from_docx.py:48-59 | a normalised title holds no direction mark and no fancy quote |
| UpdateFromDocx.NormalizeTextShape | pytoncode/update_from_docx.py:48-59 | a normalised title is stripped, holds no direction mark or fancy quote, and its only whitespace is single spaces |
| UpdateFromDocx.NormalizeTextKeeps | pytoncode/update_from_docx.py:48-59 | a text already stripped, single-spaced, free of marks and fancy quotes and not starting with `#`/`@` normalises to itself |
| UpdateFromDocx.NormalizeTextIdempotent | pytoncode/update_from_docx.py:48-59 | normalising twice is normalising once whenever the first result does not start with `#`/`@` (`"# # x"` gives `"# x"`, which a second pass changes, as in the script) |
| UpdateFromDocx.Norms | pytoncode/update_from_docx.py:63-64 | the normalised form of every title, in order |
| UpdateFromDocx.KnownMap | pytoncode/update_from_docx.py:61-65 | defines the map: each title assigned under its normalised form, in order |
| UpdateFromDocx.KnownMapAppend | pytoncode/update_from_docx.py:63-64 | one more title is one more assignment of its normalised form |
| UpdateFromDocx.KnownMapLast | pytoncode/update_from_docx.py:61-65 | a normalised form maps to the last title that has it |
| UpdateFromDocx.KnownMapAbsent | pytoncode/update_from_docx.py:61-65 | a form no title has is not in the map |
| UpdateFromDocx.BuildKnownMap | pytoncode/update_from_docx.py:61-65 | the loop builds the map of the fold |
| UpdateFromDocx.LineKey | pytoncode/update_from_docx.py:81-90 | defines the title a line names: the known title of its normalised form, else of its normalised form without leading markers |
| UpdateFromDocx.BlockStep | pytoncode/update_from_docx.py:80-98 | defines one line of the loop: a line naming a non-empty title flushes and opens that block; any other line joins an open block |
| UpdateFromDocx.ParseBlocks | pytoncode/update_from_docx.py:67-101 | defines `parse_blocks`: the fold over the lines and the last flush; `ParseBlocksResult` states what it holds |
| UpdateFromDocx.BlockText | pytoncode/update_from_docx.py:75 | the text of a block has no whitespace at its ends and is no longer than its lines joined by newlines |
| UpdateFromDocx.Flush | pytoncode/update_from_docx.py:72-78 | the buffer always empties; the stripped joined text is stored under the open title only when both are non-empty, overwriting an earlier text |
| UpdateFromDocx.ParseBlocksLoop | pytoncode/update_from_docx.py:67-101 | the loop and final flush return the blocks of the fold |
| UpdateFromDocx.RunFromAppend | pytoncode/update_from_docx.py:80-98 | the fold over two pieces is the fold over the second from the end of the first |
| UpdateFromDocx.NoTitleNoChange | pytoncode/update_from_docx.py:80-98 | lines before the first title line change nothing |
| UpdateFromDocx.LeadingLinesIgnored | pytoncode/update_from_docx.py:80-101 | the result is that of the lines from the first title line on |
| UpdateFromDocx.TitleLineOpensBlock | pytoncode/update_from_docx.py:86-95 | a title line is not buffered: it flushes the open block and opens its own, empty |
| UpdateFromDocx.BlockStepContent | pytoncode/update_from_docx.py:96-98 | any other line is appended, stripped, to the buffer of an open block, and changes nothing when no block is open |
| UpdateFromDocx.FlushInv | pytoncode/update_from_docx.py:72-78 | a flush stores only non-empty stripped texts under known titles |
| UpdateFromDocx.StepInv | pytoncode/update_from_docx.py:80-98 | every line keeps the block invariant |
| UpdateFromDocx.RunInv | pytoncode/update_from_docx.py:80-98 | every run keeps the block invariant |
| UpdateFromDocx.ParseBlocksResult | pytoncode/update_from_docx.py:67-101 | every text of the result is non-empty and stripped, and stored under a known title |
| UpdateFromDocx.DescOn | pytoncode/update_from_docx.py:106 | a match at the start of a text leaves a non-empty suffix of it that follows a colon, `:` or `：` |
| UpdateFromDocx.OpenOn | pytoncode/update_from_docx.py:106 | the same for the pattern from `(` on |
| UpdateFromDocx.TagOn | pytoncode/update_from_docx.py:106 | the same for the pattern from the label on |
| UpdateFromDocx.CloseOn | pytoncode/update_from_docx.py:106 | the same for the pattern from `)` on |
| UpdateFromDocx.ColonOn | pytoncode/update_from_docx.py:106 | the same for the colon and the group after it |
| UpdateFromDocx.FindDesc | pytoncode/update_from_docx.py:107 | defines `re.search`: the rest after the leftmost position where the pattern matches |
| UpdateFromDocx.ExtractDesc | pytoncode/update_from_docx.py:103-110 | the description is stripped |
| UpdateFromDocx.TrimStartRun | pytoncode/update_from_docx.py:106 | a `\s*` before a part that does not begin with whitespace takes exactly the whitespace run in front of it |
| UpdateFromDocx.DescOnHeading | pytoncode/update_from_docx.py:106 | `الوصف`, then `(`, the label, `)` and a colon (`:` or `：`), with any whitespace runs around them and a non-empty rest, matches at the start and leaves exactly the rest |
| UpdateFromDocx.FindDescFirst | pytoncode/update_from_docx.py:107 | the search stops at the first position where the pattern matches |
| UpdateFromDocx.ExtractDescAfter | pytoncode/update_from_docx.py:103-110 | a text holding that heading, with any whitespace runs and either colon, and no match before it, gives the stripped rest after the colon |
| UpdateFromDocx.ExtractDescLabelled | pytoncode/update_from_docx.py:106-109 | a text that begins with `الوصف(<label>):` gives its stripped rest, as an instance of `ExtractDescAfter` |
| UpdateFromDocx.ExtractDescUnlabelled | pytoncode/update_from_docx.py:110 | a text without `الوصف` is only stripped |
| UpdateFromDocx.FindDescNone | pytoncode/update_from_docx.py:107-110 | no match is found from a position on when `الوصف` begins nowhere there |
| UpdateFromDocx.MapDesc | pytoncode/update_from_docx.py:124-125 | post-processing keeps the keys and their order |
| UpdateFromDocx.MapDescGet | pytoncode/update_from_docx.py:124-125 | each text is replaced by its extracted description |
| UpdateFromDocx.BuildMaps | pytoncode/update_from_docx.py:112-127 | حدود is the blocks as cut; نبذة and مثال have the keys of their blocks |
| UpdateFromDocx.TitleOf | pytoncode/update_from_docx.py:134 | defines the title looked up: `bot.get('botTitle', '')` when it is a string, nothing for a title of another type |
| UpdateFromDocx.NewText | pytoncode/update_from_docx.py:135 | a new text exists exactly when the title is a key of the map with a non-empty text |
| UpdateFromDocx.UpdateBot | pytoncode/update_from_docx.py:134-143 | defines the bot with its three fields overwritten; `UpdateBotFields` states the result |
| UpdateFromDocx.BotUpdates | pytoncode/update_from_docx.py:135-143 | at most three fields of a bot are overwritten |
| UpdateFromDocx.UpdateBotFields | pytoncode/update_from_docx.py:134-143 | each of نبذة, حدود, مثال is overwritten exactly when its map has a non-empty text for the title; no other key changes |
| UpdateFromDocx.UpdatedBots | pytoncode/update_from_docx.py:133-143 | no bot is added or removed, and each bot is that bot updated, in place |
| UpdateFromDocx.UpdatedCategories | pytoncode/update_from_docx.py:132-143 | no category is added or removed; each keeps its name and has its bots updated |
| UpdateFromDocx.UpdatedCatalog | pytoncode/update_from_docx.py:131-143 | no package is added or removed; each keeps its name and id and has its categories updated |
| UpdateFromDocx.UpdateBots | pytoncode/update_from_docx.py:133-143 | the bot loop computes the bots and count of the fold |
| UpdateFromDocx.UpdateCategories | pytoncode/update_from_docx.py:132-143 | the category loop computes the categories and count of the fold |
| UpdateFromDocx.UpdatePublicJson | pytoncode/update_from_docx.py:129-144 | the nested loops compute the updated catalog and the number of overwrites |
| UpdateFromDocx.UpdatedCatalogCount | pytoncode/update_from_docx.py:129-144 | the update keeps every bot, so the bot count |
| UpdateFromDocx.UpdatedCategoriesCount | pytoncode/update_from_docx.py:132-143 | the update keeps the bots of the categories |
| UpdateFromDocx.CatalogUpdatesBound | pytoncode/update_from_docx.py:129-144 | the count returned is at most three per bot |
| UpdateFromDocx.CategoriesUpdatesBound | pytoncode/update_from_docx.py:132-143 | at most three overwrites per bot of the categories |
| UpdateFromDocx.BotsUpdatesBound | pytoncode/update_from_docx.py:133-143 | at most three overwrites per bot |
| UpdateFromDocx.NothingToBring | pytoncode/update_from_docx.py:134-143 | with empty maps no bot changes and nothing is counted |
| ExtractContent.MainHeading | pytoncode/extract_content.py:10 | defines the main-title heading line; `MainHeadingRead` states that the parser reads it back |
| ExtractContent.MainHeadingRead | pytoncode/extract_content.py:10 | a heading written for a clean name that holds no marker is read back as that name by `WordToJson.MainTitleName` (pytoncode/word_to_json_with_explanation.py:83) |
| ExtractContent.SubHeading | pytoncode/extract_content.py:12 | defines the sub-title heading line; `SubHeadingRead` states that the parser reads it back |
| ExtractContent.SubHeadingRead | pytoncode/extract_content.py:12 | a sub-heading written for a stripped name that holds no marker is read back as that text by `WordToJson.SubTitleText` (pytoncode/word_to_json_with_explanation.py:91) |
| ExtractContent.HeadingReadBack | pytoncode/extract_content.py:10-12 | a marker, one space and a stripped name without the marker: removing every marker and stripping gives the name |
| ExtractContent.Hex | pytoncode/extract_content.py:26-28 | the digits of a `repr` escape such as `\x` or `\u`: exactly `width` characters, each between `0` and `f` |
| ExtractContent.EscapeChar | pytoncode/extract_content.py:26-28 | one character as `repr` writes it: never empty and never unprintable |
| ExtractContent.Escaped | pytoncode/extract_content.py:26-28 | a text as `repr` writes it between quotes: at least as long as the text and printable throughout |
| ExtractContent.EscapedPlain | pytoncode/extract_content.py:26-28 | characters that are neither the quote, a backslash nor unprintable are written as they are |
| ExtractContent.Quoted | pytoncode/extract_content.py:26-28 | `repr` of one link: between the quote `QuoteOf` picks (`"` when the text holds `'` and no `"`), escaped, printable throughout |
| ExtractContent.QuotedVerbatim | pytoncode/extract_content.py:26-28 | a text with no backslash, nothing unprintable and not both quotes is written as it is, between `'`, or between `"` when it holds `'` |
| ExtractContent.QuotedMark | pytoncode/extract_content.py:26-28 | the right-to-left mark U+200F is printed as the escape `\u200f` |
| ExtractContent.Display | pytoncode/extract_content.py:26-28 | defines how a value is written in an f-string: a text as it is, a list as Python prints a list of strings, each by `Quoted` |
| ExtractContent.Elements | pytoncode/extract_content.py:20-21 | one line per link of a list, or per character of a text |
| ExtractContent.DetailLines | pytoncode/extract_content.py:17-28 | defines the lines of one detail: a non-empty روابط as `@روابط:` and one line per element; any other non-empty detail as `@<key>: <value>`; an empty one as nothing |
| ExtractContent.ItemLines | pytoncode/extract_content.py:15-29 | defines the lines of one item: `#<title>`, its details in order, and the rule |
| ExtractContent.Lines | pytoncode/extract_content.py:10-30 | defines `output_lines`: per main title its heading, its sub-titles with their items, and the rule |
| ExtractContent.Output | pytoncode/extract_content.py:32 | defines the text returned: the lines joined by newlines; `OutputShape` states its shape |
| ExtractContent.AppendDetail | pytoncode/extract_content.py:16-28 | the detail loop appends the lines of one detail |
| ExtractContent.AppendItem | pytoncode/extract_content.py:14-29 | the item loop appends the lines of one item |
| ExtractContent.AppendSub | pytoncode/extract_content.py:12-29 | the sub-title loop appends the lines of one sub-title |
| ExtractContent.ExtractAndPrintContent | pytoncode/extract_content.py:4-32 | the nested loops and the join produce the text of the specification function |
| ExtractContent.DetailLinesCount | pytoncode/extract_content.py:17-28 | a detail gives its count of lines |
| ExtractContent.DetailsLinesCount | pytoncode/extract_content.py:16-28 | the details give the sum of their counts |
| ExtractContent.ItemsLinesCount | pytoncode/extract_content.py:14-29 | each item gives 1 + its detail lines + 1 |
| ExtractContent.SubsLinesCount | pytoncode/extract_content.py:12-29 | each sub-title gives 1 + its item lines |
| ExtractContent.LinesCount | pytoncode/extract_content.py:10-30 | the output has, per main title, 2 plus the lines of its sub-titles |
| ExtractContent.DetailLinesRules | pytoncode/extract_content.py:17-28 | a detail line is never the rule unless a link is |
| ExtractContent.DetailsLinesRules | pytoncode/extract_content.py:16-28 | the detail lines hold no rule when no link is one |
| ExtractContent.ItemsLinesRules | pytoncode/extract_content.py:14-29 | a list of items holds exactly one rule per item |
| ExtractContent.SubsLinesRules | pytoncode/extract_content.py:12-29 | sub-titles hold exactly one rule per item |
| ExtractContent.LinesRules | pytoncode/extract_content.py:10-30 | the rule comes once after every item and once after every main title, and nowhere else when no link is the rule itself |
| ExtractContent.LinesFirst | pytoncode/extract_content.py:10-11 | the first line is the first main-title heading |
| ExtractContent.OutputShape | pytoncode/extract_content.py:8-32 | the text is empty exactly for empty data, and otherwise opens with the first main-title heading |
| ReportSummary.Truncate | scripts/report_json_summary.py:22-24 | the result has no newline, at most n + 3 characters, and is empty exactly when the stripped input is |
| ReportSummary.TruncateFits | scripts/report_json_summary.py:22-24 | a text that fits is only stripped with newlines made spaces |
| ReportSummary.TruncateCuts | scripts/report_json_summary.py:24 | a text that does not fit keeps its first n characters and gets `...`, n + 3 in all |
| ReportSummary.FirstUsable | scripts/report_json_summary.py:28-36 | the first key in list order holding a non-blank string or a non-empty dict |
| ReportSummary.PickValue | scripts/report_json_summary.py:27-37 | None exactly when no key is usable; otherwise the value of the first usable key, a string stripped and non-empty or a non-empty dict |
| ReportSummary.PickText | scripts/report_json_summary.py:67-69 | the text is empty or stripped |
| ReportSummary.PickTextDictFirst | scripts/report_json_summary.py:67-69 | a dict under an earlier key gives '' even when a later key holds a string |
| ReportSummary.PickTextString | scripts/report_json_summary.py:67-69 | the text is the stripped string of the first usable key when that is a string |
| ReportSummary.Cleaned | scripts/report_json_summary.py:43-48 | defines the cleaned dict: the non-blank strings, stripped, under their keys; `CleanedGet` states it |
| ReportSummary.CleanedValues | scripts/report_json_summary.py:43-48 | the cleaned dict holds only non-empty stripped strings |
| ReportSummary.CleanedGet | scripts/report_json_summary.py:43-48 | the cleaned dict holds exactly the non-blank strings, stripped, under their own keys |
| ReportSummary.CleanStrings | scripts/report_json_summary.py:43-48 | the loop fills the cleaned dict of the fold |
| ReportSummary.CleanedNonEmpty | scripts/report_json_summary.py:43-50 | `if cleaned:` holds exactly when some value of the dict is a non-blank string |
| ReportSummary.Models | scripts/report_json_summary.py:40-64 | the models returned are all non-empty stripped strings |
| ReportSummary.ModelsCases | scripts/report_json_summary.py:40-64 | the priority: the first usable model key's string gives `{'4O': text}`, its dict with some non-blank string gives the cleaned dict, its dict with none (or no usable key) falls through to the search of the bot's values |
| ReportSummary.Candidate | scripts/report_json_summary.py:54-63 | defines the value the second search stops at: a dict with a stripped string starting `http` and something left once cleaned; `FromValuesFirst` and `FromValuesEmpty` state the search by it |
| ReportSummary.FromValues | scripts/report_json_summary.py:54-64 | defines the search of the bot's values; `FromValuesFirst` and `FromValuesEmpty` state its result |
| ReportSummary.FromValuesFirst | scripts/report_json_summary.py:54-63 | the search returns the cleaned dict of the first value, in order, that is a dict with an `http` string and something left once cleaned |
| ReportSummary.FromValuesEmpty | scripts/report_json_summary.py:54-64 | the search returns `{}` exactly when no value is such a dict |
| ReportSummary.FromValuesClean | scripts/report_json_summary.py:54-63 | models found among the bot's values are clean |
| ReportSummary.PickModels | scripts/report_json_summary.py:40-64 | the method returns the models of the specification function |
| ReportSummary.SearchValues | scripts/report_json_summary.py:54-64 | the loop over the bot's values returns the first cleaned dict with an `http` value |
| ReportSummary.DirectAt | scripts/report_json_summary.py:77-80 | a direct text comes from a non-blank string under the key |
| ReportSummary.DirectText | scripts/report_json_summary.py:76-80 | the direct text is empty or stripped |
| ReportSummary.DirectTextKey | scripts/report_json_summary.py:76-80 | a direct text comes from a key whose earlier keys all have a blank or missing plain string |
| ReportSummary.DirectTextFirst | scripts/report_json_summary.py:76-80 | the first key in list order with a non-blank plain string gives the direct text |
| ReportSummary.DirectTextEmpty | scripts/report_json_summary.py:76-80 | there is no direct text exactly when every key's plain string is blank or missing |
| ReportSummary.ModelAt | scripts/report_json_summary.py:82 | `models.get(key, '').strip()` is empty or stripped |
| ReportSummary.ModelLink | scripts/report_json_summary.py:81-84 | the model link is empty or stripped |
| ReportSummary.ModelLinkFirst | scripts/report_json_summary.py:81-84 | the first model key in list order with a non-blank link gives the model link |
| ReportSummary.ModelLinkEmpty | scripts/report_json_summary.py:81-85 | there is no model link exactly when every model key's link is blank or missing |
| ReportSummary.PickLink | scripts/report_json_summary.py:72-85 | the link is empty or stripped |
| ReportSummary.PickLinkTiers | scripts/report_json_summary.py:72-85 | the three tiers in order: a picked link-key text wins; else the first plain-string key with a non-blank text; else the first model key with a non-blank link; `''` exactly when all three find nothing |
| ReportSummary.PlainOnlyAfterDict | scripts/report_json_summary.py:73-80 | the plain-string search finds something only when the picked link value was a dict |
| ReportSummary.DirectKeysAreUrlKeys | scripts/report_json_summary.py:14 | every plain-string key is also a link key |
| ReportSummary.PicksOf | scripts/report_json_summary.py:100-104 | about, limits and example are each empty or stripped |
| ReportSummary.Counted | scripts/report_json_summary.py:99-115 | defines the counters and missing titles after one bot |
| ReportSummary.SampleOf | scripts/report_json_summary.py:118-124 | a sample keeps the title, each text is cut to at most 123 characters without newlines and is empty only for a blank text, and the link is the bot's or `(missing)` |
| ReportSummary.Sampled | scripts/report_json_summary.py:117-124 | defines the samples after one bot |
| ReportSummary.Observe | scripts/report_json_summary.py:99-124 | defines one bot of the loop: counted, then sampled; `ObserveParts` states its effect |
| ReportSummary.ObserveValid | scripts/report_json_summary.py:99-124 | one bot is one more in the total and keeps the report invariant (counters within the total, missing titles up to 10, samples up to 5 with some text and a link shown) |
| ReportSummary.TallyBotsValid | scripts/report_json_summary.py:98-124 | the bots of a category add their number to the total, invariant kept |
| ReportSummary.TallyCategoriesValid | scripts/report_json_summary.py:97-124 | the categories add their bot count to the total, invariant kept |
| ReportSummary.TallyCatalogValid | scripts/report_json_summary.py:96-124 | the catalog adds its bot count to the total, invariant kept |
| ReportSummary.Summarize | scripts/report_json_summary.py:96-124 | defines the summary of a catalog from the empty one; `SummarizeValid` and `SummarizeFigures` state its figures |
| ReportSummary.SummarizeValid | scripts/report_json_summary.py:96-132 | the total is the catalog's bot count; the bots missing links are as many as the bots without a link; at most 10 missing titles and 5 samples |
| ReportSummary.Take | scripts/report_json_summary.py:114-117 | the first k elements, or all of them when there are fewer |
| ReportSummary.TakeStep | scripts/report_json_summary.py:114-117 | appending while there is room keeps the first k elements of everything offered |
| ReportSummary.TakeStepAfter | scripts/report_json_summary.py:114-117 | the same, after a run already kept |
| ReportSummary.AllBotsCount | scripts/report_json_summary.py:96-98 | the bots visited by the nested loops are as many as the catalog counts |
| ReportSummary.TallyBotsAppend | scripts/report_json_summary.py:98-124 | tallying two runs of bots is tallying the first, then the second |
| ReportSummary.TallyCategoriesFlat | scripts/report_json_summary.py:97-124 | the loop over categories tallies their bots in order |
| ReportSummary.TallyCatalogFlat | scripts/report_json_summary.py:96-124 | the nested loops tally the catalog's bots in order |
| ReportSummary.TallyBotsObservations | scripts/report_json_summary.py:98-104 | tallying bots is tallying their titles and picks |
| ReportSummary.ObserveParts | scripts/report_json_summary.py:99-124 | one bot raises the total by one and each counter by its figure, adds its title while fewer than 10 lack a link and its sample while fewer than 5 were taken |
| ReportSummary.TallyObservationsCounter | scripts/report_json_summary.py:99-113 | each counter grows by the number of bots with that figure |
| ReportSummary.TallyObservationsMissing | scripts/report_json_summary.py:112-115 | the missing titles are the first 10 titles of bots without a link |
| ReportSummary.TallyObservationsSamples | scripts/report_json_summary.py:117-124 | the samples are the first 5 samples of bots with some text |
| ReportSummary.LinklessCount | scripts/report_json_summary.py:112-132 | bots with a link and bots without one make up all of them |
| ReportSummary.TallyFigures | scripts/report_json_summary.py:99-132 | the figures of a run of bots from an empty summary |
| ReportSummary.SummarizeFigures | scripts/report_json_summary.py:96-132 | over the catalog's bots in loop order: the total, about, limits, example and link counters each count the bots with that figure, the missing-links figure counts the bots without a link, the missing titles are the first 10 such titles and the samples the first 5 of bots with some text |
| ReportSummary.CountBot | scripts/report_json_summary.py:99-115 | the counters and missing titles after one bot, as the specification function gives them |
| ReportSummary.SampleBot | scripts/report_json_summary.py:117-124 | the samples after one bot, as the specification function gives them |
| ReportSummary.ObserveBot | scripts/report_json_summary.py:98-124 | one bot's picks, counters and lists, as the specification function gives them |
| ReportSummary.Report | scripts/report_json_summary.py:96-124 | the nested loops compute the summary of the fold |
| Text.IsSpace | pytoncode/update_from_docx.py:58 | defines the whitespace class: the code points for which `str.isspace()` holds, which is also what `\s` matches |
| Text.Strip | pytoncode/sync_combined_doc.py:39 | `strip()`: no whitespace at either end, and no longer than the input |
| Text.StripEmpty | scripts/report_json_summary.py:31-33 | `strip()` gives `""` exactly on a text made only of whitespace |
| Text.StripIdempotent | pytoncode/sync_combined_doc.py:39 | stripping twice is stripping once |
| Text.Lower | scripts/generate_new_bots_json.py:55 | defines lower-casing, character by character, ASCII letters only |
| Text.ReplaceAll | scripts/generate_new_bots_json.py:56 | defines `replace`: every non-overlapping occurrence, scanning from the left |
| Text.SplitOnce | pytoncode/word_to_json_with_explanation.py:123 | nothing exactly when the separator does not occur; otherwise the parts around it, which with it rebuild the text, and the separator occurs nowhere before the end of the first part |
| Text.Partition | pytoncode/sync_combined_doc.py:99 | the parts around the first separator (none occurs earlier), which with it rebuild the text, or the whole text and `""` when there is none |
| Text.Words | pytoncode/word_to_json_with_explanation.py:55 | each word is non-empty and holds no whitespace |
| Text.WordsEmpty | pytoncode/word_to_json_with_explanation.py:55 | `split()` gives no word exactly when the text is blank |
| Text.WordsCons | pytoncode/word_to_json_with_explanation.py:55 | leading whitespace is skipped and a word up to the next whitespace or the end is the first word, followed by the words of the rest |
| Text.TrimStartSpaces | pytoncode/update_from_docx.py:57 | whitespace in front does not change what `lstrip()` gives |
| Text.WordPrefixOf | pytoncode/word_to_json_with_explanation.py:55 | a word runs up to the next whitespace |
| Text.CollapseSpaces | pytoncode/update_from_docx.py:58 | defines `re.sub(r'\s+', ' ', s)`; `CollapseSpacesShape` states its result |
| Text.CollapseSpacesShape | pytoncode/update_from_docx.py:58 | after collapsing, the only whitespace is a single space, never two in a row |
| Text.CollapseSingle | pytoncode/update_from_docx.py:58 | a text whose only whitespace is single spaces is left unchanged by collapsing |
| Text.TrimStart | pytoncode/update_from_docx.py:55 | the leading half of `strip()`: no longer than the input and not starting with whitespace |
| Text.TrimStartRemovesSpace | pytoncode/update_from_docx.py:55 | `lstrip()` removes a prefix made only of whitespace |
| Text.TrimEnd | pytoncode/update_from_docx.py:55 | the trailing half of `strip()`: no longer than the input and not ending with whitespace |
| Text.TrimCharStart | pytoncode/sync_combined_doc.py:82 | `lstrip("#")`: a suffix of the input that does not start with the character |
| Text.TrimCharEnd | pytoncode/word_to_json_with_explanation.py:39 | `rstrip(c)`: a prefix of the input that does not end with the character |
| Text.TrimChar | pytoncode/word_to_json_with_explanation.py:39 | `strip(c)`: no longer than the input and neither starting nor ending with the character |
| Text.IndexOf | pytoncode/word_to_json_with_explanation.py:92 | the first position where the text occurs, or none when it occurs nowhere |
| Text.Contains | pytoncode/word_to_json_with_explanation.py:92 | defines `sub in s` as `IndexOf` finding a position; `ContainsChar` states it for one character |
| Text.ContainsChar | pytoncode/sync_combined_doc.py:56 | a one-character text occurs exactly when the character does |
| Text.AfterFirst | pytoncode/sync_combined_doc.py:56 | `line.split(":", 1)[1] if ":" in line else ""`: with `c` present, the text is the part before the first `c` (which holds no `c`), `c`, and the result; without it, `""` |
| Text.Join | pytoncode/extract_content.py:32 | `sep.join(parts)`: the joined text ends with the last part |
| Text.JoinLength | pytoncode/extract_content.py:32 | the joined text is as long as the parts plus one separator between each two |
| Text.JoinStartsWithFirst | pytoncode/extract_content.py:32 | the joined text begins with the first part |
| Text.JoinStripped | scripts/generate_new_bots_json.py:72 | joining non-empty stripped parts gives a stripped text |
| Text.ReplaceLeading | pytoncode/word_to_json_with_explanation.py:83 | an occurrence at the start is replaced and scanning resumes after it |
| Text.ReplaceNone | pytoncode/word_to_json_with_explanation.py:83 | `replace` leaves a text without the pattern as it is |
| Text.ReplaceByNothingShorter | pytoncode/word_to_json_with_explanation.py:83 | replacing by `""` never lengthens |
| Text.StripAfterSpaces | pytoncode/word_to_json_with_explanation.py:39 | whitespace in front of a stripped text is all that `strip()` removes |
| Text.RestAfterFirstWord | scripts/generate_new_bots_json.py:197-198 | `label.split(maxsplit=1)[1]` or `""`: the result has no leading whitespace; the stripped label is its first word, non-empty whitespace and the result, or the result is `""` when only whitespace follows the word |
| Text.SpaceThenRest | scripts/generate_new_bots_json.py:197-198 | whitespace followed by a rest not starting with whitespace: the whitespace is non-empty when the rest is, and an all-whitespace text has an empty rest |
| Dict.Find | scripts/generate_new_bots_json.py:93 | the position of the first entry with the key and no earlier one, or nothing exactly when no entry has the key |
| Dict.Get | pytoncode/update_from_docx.py:87-90 | defines `d.get(k)`: the value of the first entry with the key |
| Dict.Put | pytoncode/update_from_docx.py:77 | `d[k] = v`: `k` then looks up to `v`, every other key keeps its value, and the keys stay, with `k` appended when new |
| Dict.SetDefault | pytoncode/sync_combined_doc.py:58 | `setdefault`: the key is there afterwards, keeping its value when it had one and getting the default otherwise; every other key keeps its value, and the keys stay, with the key appended when new |
| Dict.Pairs | pytoncode/update_from_docx.py:63-64 | every key looks up to the value of its last pair |
| Dict.SumBy | scripts/report_json_summary.py:96-99 | defines the sum of a measure over the entries, which the bot counts use |

## Left out

- Reading the Word documents (`iter_doc_lines`, `iter_chunks`, `read_docx_lines`, python-docx): the lines, chunks or paragraphs are parameters.
- JSON loading and dumping, file existence checks, `mkdir`, `write_text`, argparse, the `main` drivers and all printing are I/O. The catalog and the earlier ids are in-memory values, and the report's printed lines are not modelled, only the figures behind them.
- The collection of known titles in the `main` of update_from_docx.py (lines 153-159) is driver code. The titles are a parameter of `BuildMaps`.
- The JSON text returned by `extract_content_from_docx` (`json.dumps`) is left out. `WordToJson.ExtractContentFromDocx` returns the data it would serialise.
- The catalog is typed as packages → categories → bots. A catalog with missing `packages`, `categories` or `bots` keys, or with non-list values there, is not modelled. Bots are general JSON objects.
- JSON numbers are integers only. Floating-point values are not modelled.
- `package_map` and `category_map` of generate_new_bots_json.py are not kept. Lookups search the package and category lists by name. `GenerateNewBots.RunNamesDistinct` proves those names unique, so the search finds what the maps hold.
- In `SyncCombinedDoc` and `WordToJson`, the current bot (item), which the source edits through an alias, is the last bot of the current category (sub-title), addressed by key. Object identity is not modelled. `GenerateNewBots` needs no alias: its bot being read is kept apart from the packages until it is flushed.
- GenerateNewBots.CleanModelToken: Python's Unicode `str.lower()` is modelled as ASCII lower-casing (`Text.Lower`), so a label with a non-ASCII capital keeps it: `@نموذج Ä` stores its link under `Ä` where the script (scripts/generate_new_bots_json.py:55, returned at line 63) uses `ä`. The other lower-casing tests give the script's answer. These are the `http://` and `https://` prefixes, the URL scheme, and the `نموذج` and `روابط` labels. No character outside ASCII lower-cases to an ASCII letter, `:` or `/` other than `i` or `k`, and none lower-cases to an Arabic letter.
- `str.isspace()` and `strip()` use Python's whitespace table, written out by code point. Case folding and normalisation are not modelled.
- GenerateNewBots.ToSafeUrl: only `urlparse`'s scheme is modelled, as the lower-cased text before the first `:`. Removal of tabs and newlines inside a URL and the remaining URL syntax are not modelled.
- The regular expressions of update_from_docx.py and the `re.split` of word_to_json_with_explanation.py are written as character-level functions. The regex engine itself is not modelled.
- UpdateFromDocx.ExtractDesc: `re.IGNORECASE` is not modelled. `الوصف` and the label are matched exactly, which differs only for labels with Latin letters.
- UpdateFromDocx.BuildMaps: its contract gives the keys of the نبذة and مثال maps. Their values are stated by `UpdateFromDocx.MapDescGet`.
- UpdateFromDocx.TitleOf: a bot title that is not a string looks up nothing. In the source such a title could raise on an unhashable value.
- ExtractContent.Display: a value is a text or a list of texts, which is all that `WordToJson` stores. Numbers, booleans, `null` and nested objects are not modelled. They would differ both in the `if detail_value` test (`0`, `False`, `None`, `{}` are false) and in how the f-string prints them.
- ExtractContent.Quoted: `repr` is modelled with its choice of quote (`"` for a text holding `'` and no `"`, otherwise `'` with `'` escaped), backslashes, `\t`, `\n` and `\r`. Other characters that `str.isprintable` rejects are escaped as `\xNN` or `\uNNNN` only when `Unprintable` lists them. These are the controls, DEL, U+00A0, U+00AD, the Arabic format characters U+0600-U+0605, U+061C and U+06DD, the spaces and directional or invisible format characters U+1680, U+2000-U+200F, U+2028-U+202F, U+205F-U+206F and U+3000, and U+FEFF. Any other character Python escapes, such as an unassigned or private-use code point, is written as it is.
- The `packageId` key order inside a package record and the `{"packages": ...}` wrapper of the payload are JSON layout, not modelled.
