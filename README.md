# aqtinstall: repository model and combinations helpers in Dafny

This project models two parts of aqtinstall, the installer for Qt binaries, and proves
properties of the model.

- **The repository model** (`aqt/repo_model.py`). A JSON document maps each tool name to
  named *schemas*. A schema holds:
  - the names of its positional arguments;
  - a URL template;
  - optional allowed values per argument;
  - *conversions*: rules that derive further template variables from the arguments, one
    nested level of the rule at a time.

  `Schema.fill_template` runs the conversions and formats the template.
  `Schema.yield_urls` expands every argument given as `all` into each of its allowed values,
  by backtracking over one shared dictionary. `RepoModel` lists tools and schemas, and
  `get_schema` builds a `Schema` by popping the reserved entries out of the stored object.
- **The exception classes** (`aqt/exceptions.py`). These are the class hierarchy, the
  keyword defaults, the formatting of an error with its "Suggested follow-up" block, and
  `ArchiveExtractionError`.
- **The network-free helpers of the combinations generator.** These exist in two copies:
  `aqt/generate_combinations.py` and `ci/generate_combinations.py`. The helpers are:
  - the tool blacklist;
  - the enumeration of archive ids;
  - `merge_records`, which keeps the first record per (os, target, arch) and sorts them;
  - `pretty_print_combos`, which aligns records, wraps long module lines at 120 columns and
    puts one minor version per line;
  - `compare_combos`, the set comparison of a generated document with the stored one;
  - `alphabetize_modules`.

  The two copies differ in two places. The version pattern of the ci copy makes the patch
  number optional. The ci copy also skips the `new_archive` key when comparing.
  `datatype Copy = Aqt | Ci` selects the behaviour wherever the copies differ.

Layout, one module per file:

| module | what it holds |
|---|---|
| `Wrappers` | `Option` and `Result` |
| `Strs` | decimal text, joining, splitting, Python's string order and a stable sort |
| `Json` | parsed JSON objects as ordered entry lists |
| `Versions` | the `major.minor.patch` version texts the templates use |
| `Exceptions` | the exception hierarchy and the failures a call can raise |
| `Templates` | `str.format` with named fields |
| `Schema` | allowed values, the conversion rules and `fill_template` |
| `Urls` | `yield_urls` as a function, as a reference product, and as a class over the shared dictionary |
| `Repo` | the document and `RepoModel` |
| `Combos` | the blacklist and `iter_archive_ids` |
| `Merge` | `merge_records` |
| `Pretty` | `pretty_print_combos` and its helpers |
| `Compare` | `compare_combos` and `alphabetize_modules` |

Code that changes state step by step is modelled in the same form:
- `RepoModel`, whose `get_schema` pops entries out of the stored document, is a class.
- The shared `args_dict` of `yield_urls` is the field of the `UrlGenerator` class.
- `alphabetize_modules` sorts the module lists in place, in an array.
- The loops of `merge_records`, `span_multiline`, `iter_minor_versions`, `compare_combos`
  and `fill_template` are methods with loop invariants. Each is proved equal to a
  specification function, and the properties are proved about that function.

Calls into code outside the core become parameters of the model:
- `SimpleSpec(k).__contains__` is a `RangeTest` function. `None` stands for a range text
  that does not parse.
- `os.getcwd()` is a string parameter.
- The pattern match inside `iter_minor_versions` is a function parameter. `fmt_version_list`
  passes the copy's pattern.

## Model

| member | source | states |
|---|---|---|
| Exceptions.EveryKindIsAqtException | aqt/exceptions.py:25-88 | every exception class of the module derives from `AqtException` |
| Exceptions.ChecksumErrorIsDownloadError | aqt/exceptions.py:43-52 | a checksum error is a download error; a download error is not a checksum error; a checksum error is not a connection error |
| Exceptions.NewError | aqt/exceptions.py:26-29 | the error keeps its kind and arguments; without the keywords, there are no suggestions and help is off; given keywords are kept |
| Exceptions.RuleText | aqt/exceptions.py:38 | the banner rule is thirty `=` characters, and the banner has no line break |
| Exceptions.Bullets | aqt/exceptions.py:38-40 | one bullet per suggestion, in order, each being `"* "` followed by the suggestion |
| Exceptions.BaseMessage | aqt/exceptions.py:32 | no arguments give empty text and one argument gives itself; two or more give the tuple repr, which opens with `(`, the repr of the first argument and `, `, closes with `)` and holds no line break |
| Exceptions.Reprs | aqt/exceptions.py:32 | one repr per argument, in order |
| Exceptions.UnescapeEscape | aqt/exceptions.py:32 | the escaping inside a repr loses nothing: the escaped text reads back as the argument |
| Exceptions.ReprPlain | aqt/exceptions.py:32 | text without a backslash, control characters or both kinds of quote is written as it is, between double quotes when it holds an apostrophe and single quotes otherwise |
| Exceptions.EscapePlain | aqt/exceptions.py:32 | text holding neither the quote, a backslash nor a control character needs no escape |
| Exceptions.PairMessage | aqt/exceptions.py:32 | two arguments are written `(` repr `, ` repr `)` |
| Exceptions.ApostropheRepr | aqt/exceptions.py:32 | `it's` is written between double quotes and `x` between single quotes |
| Exceptions.FollowUp | aqt/exceptions.py:37-40 | the block starts with the banner and a line break, and ends with the last suggestion's bullet, with no line break after it |
| Exceptions.Format | aqt/exceptions.py:31-40 | a non-empty format spec raises; without suggestions, the result is the plain message; with suggestions, it is exactly the message, a line break, the banner, a line break and the bullets joined by line breaks |
| Exceptions.FollowUpLines | aqt/exceptions.py:37-40 | split at line breaks, the follow-up block is the banner and then one bullet line per suggestion |
| Exceptions.FormatLines | aqt/exceptions.py:31-40 | split at line breaks, a formatted error is its message, the banner and one line per suggestion |
| Exceptions.NewExtractionError | aqt/exceptions.py:76-84 | raises IndexError exactly when no argument follows the archive; otherwise an extraction error with as many arguments as were given |
| Exceptions.ExtractionErrorShape | aqt/exceptions.py:75-84 | the message names the tool, the archive and the first argument; the other arguments are forwarded; exactly the two fixed suggestions are appended after the caller's; help is off |
| Exceptions.FollowUpTwo | aqt/exceptions.py:37-40 | the exact text of the block for two suggestions |
| Exceptions.FormatTwo | aqt/exceptions.py:31-40 | the exact text of an error with two suggestions, whatever they contain |
| Exceptions.ExtractionErrorText | aqt/exceptions.py:76-84 | the exact text of an extraction error raised without suggestions: its message, the banner and the two fixed suggestions, inner line breaks included |
| Strs.NatToString | aqt/repo_model.py:63-64 | `str(n)` is canonical decimal text |
| Strs.NatToStringValue | aqt/repo_model.py:63-64 | the text of `n` reads back as `n` |
| Strs.Repeat | aqt/exceptions.py:38 | `s * n` has `n` times the length of `s` |
| Strs.Split | aqt/repo_model.py:48 | `str.split` gives at least one part |
| Strs.SplitJoin | aqt/repo_model.py:48 | splitting undoes joining when no part contains the separator |
| Strs.Find | aqt/repo_model.py:46 | the first occurrence at or after `start`, and none means that there is none |
| Strs.StrLeTotal | aqt/generate_combinations.py:158 | Python's string order is total |
| Strs.StrLeTransitive | aqt/generate_combinations.py:158 | Python's string order is transitive |
| Strs.SortBy | aqt/generate_combinations.py:157-158 | `sorted(xs, key=...)` is a permutation of `xs` |
| Strs.SortBySorted | aqt/generate_combinations.py:157-158 | `sorted(xs, key=...)` is ordered by the key |
| Strs.Sort | aqt/generate_combinations.py:326-328 | `sorted(xs)` is a permutation of `xs` and is in order |
| Json.Keys | aqt/repo_model.py:106-110 | `d.keys()` lists the keys in entry order |
| Json.Lookup | aqt/repo_model.py:110-113 | `d[key]` succeeds exactly when the key is present, and returns a stored value of that key |
| Json.IndexOf | aqt/repo_model.py:117-119 | the first position of a key; none exactly when the key is absent |
| Versions.ParseShow | aqt/repo_model.py:62 | the text of a version parses back to the version |
| Versions.ShowParse | aqt/repo_model.py:62 | every text that parses is the text of its version, so each version has one spelling |
| Templates.CloseAt | aqt/repo_model.py:69 | the first `}` at or after a position, and none means there is none |
| Templates.FormatPlainText | aqt/repo_model.py:69 | text without braces is copied unchanged in front of the rest of the output |
| Templates.FormatField | aqt/repo_model.py:69 | a named field is replaced by its variable's value; a missing variable raises KeyError |
| Templates.FormatRender | aqt/repo_model.py:69 | formatting a well-formed template equals the reference substitution of every field |
| Templates.FormatNoFields | aqt/repo_model.py:69 | text without braces formats to itself |
| Schema.AllowedValuesFor | aqt/repo_model.py:71-76 | the schema's own list comes first, then the default table; otherwise a KeyError with the source's message, and only in that case |
| Schema.SplitKey | aqt/repo_model.py:46-48 | a split key is source, `-to-`, target, with no separator before it and none in the target; the unrecognized-key error is raised exactly when the key has no separator |
| Schema.FirstRange | aqt/repo_model.py:38-41 | the first range containing the version, where every earlier range does not; none when no range contains it; an error when an unparsable range is reached first |
| Schema.FirstRangeFinds | aqt/repo_model.py:38-40 | the scan stops at the first containing range |
| Schema.FirstRangeNone | aqt/repo_model.py:38-41 | when no range contains the version, the scan finds none |
| Schema.Choose | aqt/repo_model.py:34-43 | a chosen translation is a part of the rule; `semver` without a version raises NameError; no range containing the version raises the "no resolution for version" SchemaError; a source that is not a variable, or a variable value that is not an entry, raises KeyError for it |
| Schema.ChooseLink | aqt/repo_model.py:34-43 | at one level, `choose_translation` picks the entry named by the variable's value, or the first range containing the version |
| Schema.Translate | aqt/repo_model.py:45-59 | a key without `-to-` and a failed choice raise their failure; a string ends the walk with the key's target; anything else that is not an object raises the "neither a string nor a dictionary" SchemaError; an object without exactly one key raises the "only one key" SchemaError |
| Schema.TranslateLevel | aqt/repo_model.py:45-59 | one level of `recursive_translate`: a string ends the walk with the key's target; a single-key object is followed; any other value raises the "neither a string nor a dictionary" SchemaError; an object with zero or several keys raises the "only one key" SchemaError |
| Schema.NoResolution | aqt/repo_model.py:36-41 | a `semver` rule none of whose ranges contains the version raises "Schema contains no resolution for version" followed by the version |
| Schema.ChainEnd | aqt/repo_model.py:50-52 | a one-level rule binds its target to its string |
| Schema.ChainStep | aqt/repo_model.py:53-59 | a longer rule translates like the rule without its first level |
| Schema.ChainTranslates | aqt/repo_model.py:45-59 | the variable bound is the innermost key's target, and its value is the leaf string, whatever the other entries hold |
| Schema.ChainLonger | aqt/repo_model.py:45-59 | the same for rules of two or more levels |
| Schema.InitialVariables | aqt/repo_model.py:61-64 | without `semver`, the arguments are unchanged; with it, success exactly when it parses, adding the two derived variables and keeping the other arguments |
| Schema.DerivedFromText | aqt/repo_model.py:61-64 | `major_minor_semver` is the version text up to the patch; `semver_underscores` is the text with dots turned into underscores |
| Schema.ApplyStep | aqt/repo_model.py:65-67 | one conversion either fails or binds its target and the rest run after it |
| Schema.RunConversions | aqt/repo_model.py:65-67 | the loop over the conversions computes the specification of the run |
| Schema.FillTemplate | aqt/repo_model.py:31-69 | `fill_template` returns or raises what the specification of copy, derive, convert and format gives |
| Schema.ConversionKeysSplit | aqt/repo_model.py:45-48 | a successful run of conversions had only keys with a source and a target |
| Schema.UnrecognizedKey | aqt/repo_model.py:46-47 | a first key without `-to-` raises the unrecognized-key schema error |
| Schema.FilledKeysSplit | aqt/repo_model.py:31-69 | a template is filled only when every conversion key is well formed |
| Schema.SplitKeyOf | aqt/repo_model.py:48 | a key built from two dash-free names splits back into them |
| Urls.Pop | aqt/repo_model.py:93-97 | `args_dict.pop(name)` removes the name, or raises KeyError when it is absent; the URLs are kept |
| Urls.LoopStep | aqt/repo_model.py:90-92 | one turn binds a value, walks the rest and continues only if nothing failed |
| Urls.YieldAll | aqt/repo_model.py:78-80 | a wrong number of arguments raises the CLI error and produces nothing |
| Urls.CartesianSize | aqt/repo_model.py:83-97 | there are as many combinations as the product of the list sizes |
| Urls.CartesianMembers | aqt/repo_model.py:83-97 | a combination picks one value from each list, and every such pick is a combination |
| Urls.WalkProduct | aqt/repo_model.py:83-97 | a level of the backtracking yields, in order, the URLs of every combination of the remaining values, and restores the dictionary |
| Urls.WalkAllProduct | aqt/repo_model.py:89-93 | the same for an `all` argument |
| Urls.WalkFixedProduct | aqt/repo_model.py:94-97 | the same for an argument given a value |
| Urls.LoopProduct | aqt/repo_model.py:90-92 | the loop over the allowed values yields each value's combinations in turn |
| Urls.YieldAllIsProduct | aqt/repo_model.py:78-99 | with distinct argument names and non-empty value lists, the generator yields one URL per combination, in order, until a template fails |
| Urls.YieldAllCount | aqt/repo_model.py:78-99 | without a failing template, the number of URLs is the product of the list sizes |
| Urls.EmptyValuesFail | aqt/repo_model.py:89-93 | an `all` argument with no values yields nothing and raises KeyError at the `pop` |
| Urls.RepeatedNameFails | aqt/repo_model.py:94-97 | two fixed arguments with one name yield one URL, then the outer `pop` raises KeyError |
| Urls.UrlGenerator.constructor | aqt/repo_model.py:78-83 | a new generator starts with an empty dictionary and nothing produced |
| Urls.UrlGenerator.Helper | aqt/repo_model.py:83-97 | the recursive `helper` appends exactly the URLs of the specification and raises its failure; on success it leaves the dictionary as the specification does |
| Urls.UrlGenerator.BindEach | aqt/repo_model.py:89-93 | the loop over the allowed values does the same for the loop's specification |
| Urls.UrlGenerator.YieldUrls | aqt/repo_model.py:78-99 | `yield_urls` produces exactly the URLs and the failure of the specification |
| Repo.PopKey | aqt/repo_model.py:117-118 | `d.pop(key)` raises KeyError exactly when the key is missing; otherwise it returns the stored value and the entries without that one |
| Repo.PopOr | aqt/repo_model.py:119 | `d.pop(key, default)` returns the default and leaves the object alone when the key is absent; otherwise it is `pop` |
| Repo.PopOrAbsent | aqt/repo_model.py:119 | popping an absent key with a default keeps the object |
| Repo.ToSchema | aqt/repo_model.py:114-121 | the schema carries the tool, the name, the argument strings, the template string and the remaining entries; a falsy `allowed_values` gives no lists, and any other value gives its lists |
| Repo.Locate | aqt/repo_model.py:113 | `definition[tool][schema]` raises KeyError for a missing tool; success exactly when the schema object exists, at its first position |
| Repo.PopEntries | aqt/repo_model.py:117-119 | without `args`, KeyError and nothing is popped |
| Repo.PopEntriesUnique | aqt/repo_model.py:117-120 | after the pops, `args` is gone, and on success the remaining entries are exactly the non-reserved ones |
| Repo.ExtractSchema | aqt/repo_model.py:112-121 | a missing tool raises KeyError and changes nothing; a built schema has the requested tool and schema names |
| Repo.LookupRemoveOther | aqt/repo_model.py:117-119 | popping one key leaves the value stored under any other key |
| Repo.PopEntriesFields | aqt/repo_model.py:117-119 | the popped values are the stored `args` and `url_template`, and the stored `allowed_values` or `{}` when absent |
| Repo.ExtractFields | aqt/repo_model.py:112-121 | a built schema holds the stored object's `args` names, its `url_template` string and its `allowed_values` lists, and no lists when that entry is absent or falsy |
| Repo.ExtractConversions | aqt/repo_model.py:120 | the conversions are the stored object's other entries, in order, each of them kept |
| Repo.ExtractKeepsNames | aqt/repo_model.py:112-121 | `get_schema` changes no tool name and no schema name |
| Repo.ExtractKeepsListing | aqt/repo_model.py:106-121 | after `get_schema`, every listing of tools and schemas is as before |
| Repo.ExtractTwiceFails | aqt/repo_model.py:113-117 | the stored object is consumed: asking for the same schema again raises KeyError for `args` |
| Repo.MissingTemplateKeepsPop | aqt/repo_model.py:117-118 | a missing `url_template` raises after `args` has already left the stored object |
| Repo.SchemaNames | aqt/repo_model.py:110 | the schema names of a tool are its object's keys; a missing tool raises KeyError |
| Repo.RepoModel.constructor | aqt/repo_model.py:103-104 | the model holds the parsed document |
| Repo.RepoModel.ListToolNames | aqt/repo_model.py:106-107 | the tool names in document order |
| Repo.RepoModel.ListSchemas | aqt/repo_model.py:109-110 | the schema names of the tool, in order; a missing tool raises KeyError |
| Repo.RepoModel.GetSchema | aqt/repo_model.py:112-121 | returns or raises what `ExtractSchema` specifies and leaves the document it specifies; tool and schema listings are unchanged |
| Combos.AnyPrefix | aqt/generate_combinations.py:32-34 | true exactly when some prefix of the tuple starts the name |
| Combos.AnySuffix | aqt/generate_combinations.py:35-37 | true exactly when some suffix of the tuple ends the name |
| Combos.IsBlacklistedTool | aqt/generate_combinations.py:31-38 | a tool is blacklisted exactly when it starts with `tools_qt3dstudio_` or ends with `_preview` or `_early_access` |
| Combos.Extensions | aqt/generate_combinations.py:48-56 | the four Android ABIs for Qt 6 Android, `wasm` and the empty extension for Qt 5 desktop, and otherwise only the empty extension |
| Combos.WithExtensions | aqt/generate_combinations.py:67-68 | exactly one id per extension for the category, host and target, in the order of the extensions |
| Combos.ForTargets | aqt/generate_combinations.py:63-68 | exactly the ids of the given targets and their extensions, leaving out Qt 6 WinRT |
| Combos.TargetsOf | aqt/generate_combinations.py:60-62 | the given targets, or the host's table entry; KeyError for the host exactly when neither exists |
| Combos.ForHosts | aqt/generate_combinations.py:59-68 | raises exactly when some host has no targets; otherwise exactly the ids over the hosts |
| Combos.ForCategoriesMembers | aqt/generate_combinations.py:58-68 | the same over the categories |
| Combos.ArchiveIdMembers | aqt/generate_combinations.py:41-68 | ids enumerated are exactly the category, host, target and extension combinations, leaving out Qt 6 WinRT; the only failure is a host without targets when none are given |
| Combos.IterArchiveIds | aqt/generate_combinations.py:41-68 | the ids come in the order of the four nested loops: category, then host in sorted order, then target, then extension |
| Combos.ForTargetsNested | aqt/generate_combinations.py:63-68 | the ids of the targets are each target's ids in turn, one per extension |
| Combos.ForHostsNested | aqt/generate_combinations.py:59-68 | the ids of the hosts are each host's target ids in turn |
| Combos.ForCategoriesNested | aqt/generate_combinations.py:58-68 | the ids of the categories are each category's host ids in turn |
| Combos.NoQt6WinRT | aqt/generate_combinations.py:64-66 | no Qt 6 WinRT id is ever produced |
| Merge.DedupStep | aqt/generate_combinations.py:152-156 | one record is kept exactly when its hash has not been seen |
| Merge.DedupHashes | aqt/generate_combinations.py:150-156 | every hash of the input is kept |
| Merge.DedupUnique | aqt/generate_combinations.py:150-156 | no record is kept twice and no two kept records share a hash |
| Merge.DedupFirst | aqt/generate_combinations.py:152-156 | each kept record is the first of the input with its hash |
| Merge.InsertOrdered | aqt/generate_combinations.py:158 | stable insertion by one field keeps the order on the later fields among equal keys |
| Merge.SortByOrdered | aqt/generate_combinations.py:158 | a stable sort by field `f` turns an order on `fields` into an order on `f` then `fields` |
| Merge.SortAll | aqt/generate_combinations.py:157-158 | the successive sorts keep the records |
| Merge.SortAllStep | aqt/generate_combinations.py:157-158 | one more sorting key sorts the previous result |
| Merge.SortAllOrdered | aqt/generate_combinations.py:157-158 | sorting stably by each key in turn orders by the last key first |
| Merge.MergeRecords | aqt/generate_combinations.py:149-159 | the two loops compute the de-duplicated records, sorted by arch, then target, then os_name |
| Merge.MergeOrdered | aqt/generate_combinations.py:149-159 | the result is in lexicographic (os_name, target, arch) order |
| Merge.MergeKeepsRecords | aqt/generate_combinations.py:149-159 | the result is a permutation of the kept records, with one record per hash and every input hash represented |
| Pretty.Indent | aqt/generate_combinations.py:179 | `"  " * depth` is `2 * depth` spaces |
| Pretty.PadRight | aqt/generate_combinations.py:178 | `{:<10}` pads with spaces on the right up to the width and never cuts |
| Pretty.QuoteAll | aqt/generate_combinations.py:203 | each module name is quoted, in order |
| Pretty.FmtDictEntry | aqt/generate_combinations.py:177-188 | with an os_name of at most seven characters, the target field starts in the same column on every line |
| Pretty.DictEntryToolName | aqt/generate_combinations.py:182-186 | a tool name adds exactly its field just before the arch field |
| Pretty.RFind | aqt/generate_combinations.py:194 | a found position holds the character, inside the window |
| Pretty.RFindLast | aqt/generate_combinations.py:194 | `rfind` finds the last occurrence in the window; none means there is none |
| Pretty.SpanBreak | aqt/generate_combinations.py:194-196 | a pass that replaces a space shortens what remains beyond the window start |
| Pretty.SpanFrom | aqt/generate_combinations.py:193-196 | the loop either ends with text or never ends |
| Pretty.SpanPass | aqt/generate_combinations.py:194-196 | one pass of the loop body makes progress exactly when the specification breaks the line, and gives its text and new window |
| Pretty.SpanMultiline | aqt/generate_combinations.py:190-197 | the `while` loop computes the specification |
| Pretty.SpanShort | aqt/generate_combinations.py:193 | a line that fits is returned unchanged |
| Pretty.SpanStep | aqt/generate_combinations.py:194-196 | a pass that ends in text replaces a space strictly inside the window |
| Pretty.SpanPieces | aqt/generate_combinations.py:190-197 | the output is the line's space-separated pieces, joined by a line break and the indent |
| Pretty.SpanUndo | aqt/generate_combinations.py:190-197 | turning every inserted break and indent back into a space restores the line |
| Pretty.FmtModuleEntry | aqt/generate_combinations.py:199-205 | a record line of at most 120 characters is left alone; any output is the line with some spaces turned into a break and the indent |
| Pretty.LeadingDigitsRun | aqt/generate_combinations.py:209 | the leading run of `\d+` is all digits and is maximal |
| Pretty.MinorOfShow | aqt/generate_combinations.py:209-217 | both patterns read the minor number of a `major.minor.patch` text |
| Pretty.MinorOfParts | aqt/generate_combinations.py:209 | for three digit runs joined by dots, the group is the value of the second run |
| Pretty.MinorCopiesDiffer | ci/generate_combinations.py:209 | `6.2` matches only the ci pattern; wherever the aqt pattern matches, the ci pattern gives the same minor number |
| Pretty.Runs | aqt/generate_combinations.py:211-222 | there are no runs exactly when there are no entries |
| Pretty.RunsFlatten | aqt/generate_combinations.py:211-222 | the runs put back together give the entries |
| Pretty.RunsLast | aqt/generate_combinations.py:222 | the last run ends with the last entry |
| Pretty.RunsUniform | aqt/generate_combinations.py:218-221 | every run is non-empty and holds one minor version |
| Pretty.RunsBoundaries | aqt/generate_combinations.py:218-221 | neighbouring runs hold different minor versions |
| Pretty.RunsPartition | aqt/generate_combinations.py:211-222 | the runs are the maximal blocks of equal minor version, in order |
| Pretty.IterMinorVersions | aqt/generate_combinations.py:211-222 | the loop yields the runs, or raises on an entry the pattern does not match |
| Pretty.RunsFirst | aqt/generate_combinations.py:214-215 | the first entry opens the first run |
| Pretty.RunsExtend | aqt/generate_combinations.py:216-218 | an entry with the current minor version extends the open run |
| Pretty.RunsCut | aqt/generate_combinations.py:218-221 | an entry with a new minor version closes the open run and starts another |
| Pretty.RunsNext | aqt/generate_combinations.py:216-221 | one step of the loop, in both cases |
| Pretty.GroupLines | aqt/generate_combinations.py:225-230 | one line per run, its versions quoted and joined by `, ` |
| Pretty.FmtVersionList | aqt/generate_combinations.py:207-232 | an empty list gives empty text; it raises exactly when some entry does not match the copy's pattern; otherwise the text is the lines of the minor-version runs joined by `,`, a line break and the indent |
| Pretty.VersionListLines | aqt/generate_combinations.py:224-230 | without line breaks in the entries, the list has one line per minor version: the indent (none on the first), the run's quoted versions joined by `, `, and a comma on every line but the last |
| Pretty.RunsLines | aqt/generate_combinations.py:224-230 | runs without line breaks give one line each, with that layout |
| Pretty.JoinLines | aqt/generate_combinations.py:224-225 | parts without line breaks joined by `,`, a line break and an indent split back into one line per part, each with its indent and comma |
| Pretty.ModuleLinesErr | aqt/generate_combinations.py:236-241 | the only way the module lines stop is a wrap that never ends |
| Pretty.PrettyPrint | aqt/generate_combinations.py:172-248 | printing raises exactly when a version list has an entry the pattern does not match; an endless wrap is passed on; the output is one array holding one object, starting with the `qt` list and ending with the last list |
| Pretty.AssembleFrame | aqt/generate_combinations.py:248 | the joined sections put between `[{` and `}]` start with the `qt` header and end with a list's close |
| Compare.TextSets | aqt/generate_combinations.py:281-285 | two lists of strings give equal sets exactly when they hold the same strings |
| Compare.ReportDifference | aqt/generate_combinations.py:289-302 | a difference is reported exactly when the superset has an element the subset lacks |
| Compare.KeyDiffers | aqt/generate_combinations.py:314-321 | the two reports on a key find a difference exactly when the sets differ |
| Compare.CompareModulesEntry | aqt/generate_combinations.py:263-279 | two module rows differ exactly when their sets of modules differ |
| Compare.ZipModulesMeaning | aqt/generate_combinations.py:306-311 | the zipped rows raise AssertionError exactly when a pair within the shorter length disagrees on the Qt version; otherwise they differ exactly when some pair's module sets differ |
| Compare.CompareModuleColumns | aqt/generate_combinations.py:306-312 | the loop over the zipped rows computes the specification of the `modules` key |
| Compare.CompareCombos | aqt/generate_combinations.py:304-323 | the loop over the keys computes the comparison's specification |
| Compare.CompareMeaning | aqt/generate_combinations.py:251-323 | the comparison raises exactly when some compared key fails; otherwise it reports a difference exactly when some compared key differs |
| Compare.CiIgnoresNewArchive | ci/generate_combinations.py:307-309 | in the ci copy, stored documents that agree except on `new_archive` compare alike |
| Compare.NewArchiveCopiesDiffer | ci/generate_combinations.py:263-264 | a version missing from the stored `new_archive` is a difference for the aqt copy and not for the ci copy |
| Compare.Alphabetized | aqt/generate_combinations.py:326-328 | there is one output row per input row |
| Compare.AlphabetizedAt | aqt/generate_combinations.py:328 | row `i` of the result is row `i` with its module list sorted |
| Compare.AlphabetizedRows | aqt/generate_combinations.py:326-328 | each row keeps its Qt version and its modules, now in order |
| Compare.SortedElems | aqt/generate_combinations.py:266-268 | sorting a module list keeps its set of modules |
| Compare.AlphabetizeKeepsComparison | aqt/generate_combinations.py:391-402 | alphabetizing the stored module rows before comparing never changes the result of the module comparison |
| Compare.AlphabetizeModules | aqt/generate_combinations.py:326-328 | every module list is sorted in place, and nothing else changes |

## Left out

- Output through `print`, the `printer` callback and logging is left out: the comparison's
  result is modelled, and its messages are not.
- Network access, `MetadataFactory`, progress bars, reading and writing
  `combinations.json`, git and pull-request calls, and the command line are left out. The
  generated document is an input of the comparison and of the printer.
- `json.loads` is left out: `RepoModel` is built from the parsed document. A document that
  is not an object, and objects with duplicate keys, are not modelled; the lemmas that
  need distinct keys require them.
- `os.getcwd()` in `ArchiveExtractionError` is a parameter.
- `SimpleSpec` containment is the `RangeTest` parameter; semantic-version ranges are not
  modelled.
- `Version` parsing covers plain `major.minor.patch` texts without leading zeros.
  Prerelease and build suffixes, and `Version`'s own error message, are not modelled; a
  text that does not parse is a ValueError.
- Python's `\d` also matches non-ASCII digits; the model takes `0`-`9` only.
- TypeError and AttributeError, including `None.group` on an entry the pattern does not
  match, are one failure kind, `TypeMismatch`.
- `conversions=None` is not modelled: `get_schema` always passes the remaining entries.
- `get_schema` does not check the types of what it pops. A value of the wrong JSON type is
  reported as `TypeMismatch` when the `Schema` is built, after the pops.
- Exceptions.Repr: `repr` escapes ASCII control characters, the backslash and the quote;
  it does not escape the non-ASCII characters Python treats as unprintable.
- Exceptions.NewExtractionError: its contract states the kind and the argument count;
  `ExtractionErrorShape` and `ExtractionErrorText` state the message and suggestions.
- Urls.Walk and Urls.Loop carry no contract of their own: they are the specification
  of `helper` and of its loop, and `WalkProduct`, `LoopProduct`, `LoopStep`,
  `EmptyValuesFail` and `RepeatedNameFails` state what they compute.
- `str(dict)` of a record is modelled by the record itself. Two records with the same
  fields in another key order would print differently; generated records always have one
  key order. A plain string equal to a record's text counts as distinct from the record.
- A column mixing strings and records is not modelled: `to_set` looks only at the first
  element. Each column is a list of one type.
- The format width of `{:<10}` is modelled for the fields `fmt_dict_entry` pads; other
  format specs are not.
- `Format` models `format(e, spec)` only for the empty spec. Any other spec is an error,
  as for an object without its own `__format__` support.
- Generators are modelled by their complete output. Laziness, and a consumer that stops
  early, are not modelled.
- A `span_multiline` call that never terminates (the window's only space is the one
  before the indent, or there is no space) is the `Loops` outcome.
- `pretty_print_combos` takes a `Document` record rather than a dictionary; a missing key
  is not modelled.
- Pretty.IterMinorVersions: takes the pattern match as a function parameter rather than a
  compiled regular expression; `Pretty.MatchFor` gives each copy's pattern.
- Compare.AlphabetizeModules: takes the `combos["modules"]` list rather than the
  document, so a KeyError for a missing `modules` key is not modelled.
- Schema.SplitKey: its contract does not name the ValueError of a key with two separators (the failed unpacking); it states only that such a key is not split.
- Schema.Choose: its contract states which failures it raises and that a chosen
  translation is a part of the rule; `Schema.ChooseLink` and `Schema.FirstRange` state
  which entry it picks.
- Pretty.Runs: its contract states only that empty input gives no runs; the lemmas
  `RunsFlatten`, `RunsUniform` and `RunsBoundaries` state what the runs are.
- Pretty.SpanFrom: its contract states only the possible outcomes; `SpanPieces` and
  `SpanUndo` state what the text is.
- Pretty.RFind: its contract states only what a found position holds; `RFindLast`
  states that it is the last one.
- Repo.PopEntries: its contract states only the missing-`args` case;
  `Repo.PopEntriesUnique` and `Repo.MissingTemplateKeepsPop` state the others.
- Urls.YieldAll: its contract states only the arity check; `YieldAllIsProduct` states
  the rest.
- Compare.Alphabetized: its contract states only the length; `AlphabetizedAt` and
  `AlphabetizedRows` state the rows.
- Strs.Split: its contract states only that there is at least one part;
  `Strs.SplitJoin` states the round trip.
- The CLI error of `yield_urls` is raised at the call here, whereas the source raises it
  when the generator is first consumed; nothing is yielded before it in either case.
