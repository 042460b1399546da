# yuca generation core in Dafny

yuca builds documents such as CVs from three inputs:

- a template folder holding Jinja files and a `config.yml`;
- a user data file, the context;
- a recipe, the user's config.

`generate` (yuca/generation.py) does the following, in order:

1. Copies the template folder into the output folder.
2. Copies a recipe's replacement files over the template's overridable files.
3. Applies the recipe's *overrides* and then its *filters* to the context:
   - Both are trees whose keys follow the pattern `name` or `name[digits]`.
   - The route generator flattens a tree into `(route, leaf)` pairs. One route list is shared by every level of the recursion and is pushed and popped as keys are visited.
   - For each pair, the navigator walks the context to the dict holding the route's last field, and the applicator assigns into that dict in place.
   - An override stores the leaf itself.
   - A filter stores `[data[key][i] for i in leaf]`.
4. Escapes every string of the context when the template's `scape_format` is `latex`.
5. Merges the template's default settings with the user's.
6. Looks up the translations for the context's `lang`.
7. Renders each listed template file that exists in the output folder.

The project also models two other source files:

- The warehouse registry (yuca/app_data.py): an ordered list of warehouse folders and the index of the active one, cleaned of folders that no longer exist.
- Two name helpers of the template commands (yuca/template/template_app.py).

Modules, one file each:

- `Values` (values.dfy): JSON-like values.
  - Dicts are ordered field lists.
  - Python's dict lookup, assignment and `update` are modelled, as are its negative list indices.
  - Paths are read with `Get` and written in place with `Put`.
- `SettingsKey` (settings_key.dfy): the key pattern `([^\[\]]+)(\[(\d+)\]|)$`.
- `Routes` (routes.dfy): the route generator.
  - `Flatten` is its output.
  - `RouteBuffer` is the shared route list.
  - `RoutesAndVals` is the recursive method.
- `Navigation` (navigation.dfy): `_get_data_from_route`.
- `Applicators` (applicators.dfy): overrides, filters and their composition.
- `Escaping` (escaping.dfy): LaTeX escaping of a string and of a whole context.
- `Generation` (generation.py's `process_files` and `generate`, in generation.dfy).
- `TemplateNames` (template_names.dfy): `get_name_from_url` and the `.yml` suffix of a recipe name.
- `Registry` (app_data.dfy): the `AppData` class.

Each method is proved equal to a specification function of its inputs, or its new state is stated in terms of the old one. The properties are lemmas about those functions.

Effects outside the program become parameters:

- `existing`: the folders that exist on disk.
- `outputFiles`: the files present in the output folder after the template folder was copied into it.
- `stored` / `storedActive`: the stored registry.

A copy is an entry of a plan, and rendering is the list of files rendered with the final context.

Behaviour kept as yuca's code has it, where a reader might expect otherwise:

- A key `name[i]` whose value is not a dict loses its index. The route ends at `name`, so the whole list is overridden or filtered (`Routes.IndexedLeafDropsIndex`).
- Python's `$` also matches before a final newline, so a key such as `a[12]\n` is accepted (`SettingsKey.AcceptedNewlineKey`).
- Filter indices follow Python subscripting:
  - negative indices count from the end;
  - `True`/`False` are 1 and 0;
  - a string target yields its characters;
  - a dict target is indexed by key.
- The generator is lazy. Directives yielded before a malformed key are applied before the assertion fails, and the run then stops.
- `lang` is read after escaping. With the `latex` format, a tag such as `pt_BR` becomes `pt\_BR` and no longer finds its translations (`Generation.EscapedLanguageMissesIntl`).
- A format other than `latex` leaves the context unchanged (`Escaping.EscapedOtherFormat`).
- LaTeX escaping is not idempotent (`Escaping.EscapeLatexNotIdempotent`).
- An active index out of range makes `_check_warehouses_path` raise IndexError. A negative one counts from the end.
- `switch_to_warehouse(int)` stores the index without a bounds check.

## Model

| member | source | states |
|---|---|---|
| Values.Lookup | yuca/generation.py:108 | a dict lookup finds a value exactly when the key is among the dict's keys |
| Values.Assign | yuca/generation.py:132 | after `data[key] = v` the key reads `v`, every other key reads what it read before, the key set gains `key`, the dict grows only for a new key, and keys stay distinct |
| Values.Update | yuca/generation.py:184 | `dict.update` yields the union of both key sets |
| Values.UpdateLookup | yuca/generation.py:182-184 | after `settings.update(user_settings)` a user key reads the user's value and any other key reads the default |
| Values.PyIndex | yuca/generation.py:126 | a Python subscript of a length-`n` sequence is defined exactly for `-n <= i < n` and reads position `i` or `n + i` |
| Values.Get | yuca/generation.py:108-115 | the chained subscripts `data[k]` and `data[k][j]`: a name reads the first field with that key of a dict, an index reads a position of a list within its length; any other step, a missing key or an out-of-range index gives None |
| Values.Put | yuca/generation.py:126-132 | the root value once an assignment into the nested object reached by the path has been made in place: the dicts and lists along the path are rebuilt with the new part, and a path that does not exist leaves the value unchanged |
| SettingsKey.ParseKey | yuca/generation.py:12 | the match of the key pattern: the bracket-free name with no index, or the name and the integer value of the digits in `[...]` that end the key (before an optional newline), or None where the assertion fails |
| SettingsKey.NameLength | yuca/generation.py:12 | the greedy name part is bracket-free and stops at a bracket or the end |
| SettingsKey.DigitsEnd | yuca/generation.py:12 | the greedy `\d+` run holds only digits and stops at a non-digit or the end |
| SettingsKey.PlainKey | yuca/generation.py:12 | a key parses with no index exactly when it is non-empty and bracket-free, and then its name is the whole key |
| SettingsKey.LayoutIsConcat | yuca/generation.py:12 | the positional layout of an indexed key is exactly the concatenation `name + "[" + digits + "]" + tail` |
| SettingsKey.IndexedKey | yuca/generation.py:12 | `name[digits]`, optionally followed by one newline, parses to the name and the integer value of the digits |
| SettingsKey.IndexedKeyShape | yuca/generation.py:12 | conversely, every parse with an index comes from a key laid out as a bracket-free name, `[`, a non-empty digit run worth the index, `]`, and at most one newline |
| SettingsKey.RejectedKeys | yuca/generation.py:78-79 | the empty key, a key with no name, non-digit or empty indices, two indices, and a stray bracket fail the assertion |
| SettingsKey.AcceptedKeys | yuca/generation.py:75-76 | `projects[0]` gives the name `projects` and the index 0 |
| SettingsKey.AcceptedNewlineKey | yuca/generation.py:12 | `a[12]` followed by a newline is accepted with index 12 |
| SettingsKey.TitleKey | yuca/generation.py:77-81 | a plain key gives itself as the name and no index |
| Routes.RouteBuffer.constructor | yuca/generation.py:71 | a route started afresh is empty |
| Routes.RoutesAndVals | yuca/generation.py:70-97 | the recursive generator over the shared route yields exactly the pairs of `Flatten` for the route it started from, and when it does not fail the shared route is back to what it was |
| Routes.Flatten | yuca/generation.py:70-97 | what the generator yields for a dict when the route holds a prefix: the pairs in key order and the first malformed key, if any. A dict value is descended under its name, plus the index for an indexed key; a leaf is yielded under its name only |
| Routes.FlattenYieldsLeaves | yuca/generation.py:70-97 | the generator fails exactly when some key of the tree is malformed; otherwise it yields one pair per non-dict leaf, in key order, and an empty nested dict yields nothing |
| Routes.FlattenRoutesWellFormed | yuca/generation.py:82-92 | every yielded route extends the route the generator started from, ends with a field name, and has each index right after a field name |
| Routes.RoutesAreWellFormed | yuca/generation.py:70-97 | from an empty route, every yielded route is non-empty, starts and ends with a field name, and has each index right after a field name |
| Routes.FaultPersists | yuca/generation.py:78-79 | once a key fails the assertion, the keys after it yield nothing more and the failure is the run's outcome |
| Routes.PlainLeaf | yuca/generation.py:82-92 | a plain key holding a leaf yields the single route made of its name |
| Routes.IndexedLeafDropsIndex | yuca/generation.py:84-92 | an indexed key holding a leaf yields a route with the name only, without the index |
| Routes.IndexedDictAddsIndex | yuca/generation.py:84-90 | an indexed key holding a dict flattens the inner dict under the name followed by the index |
| Navigation.LocateFrom | yuca/generation.py:102-120 | from position `i` on: the last route item is returned with the current dict and its path. An index item is skipped. A name fails with TypeError on a non-dict and KeyError on a missing key; followed by an index it needs a list (NotAList), an index within it (IndexError) and a dict there (NotADict); followed by a name it needs a dict (NotADict) |
| Navigation.Locate | yuca/generation.py:100-120 | walks every route item but the last. A name reads a field, an integer after it indexes the list found, and each step must end on a dict. Returns the container, the last item and the path taken; an empty route raises IndexError, a missing key KeyError, a bad index IndexError, and a non-list or non-dict step fails its assertion |
| Navigation.GetDataFromRoute | yuca/generation.py:100-120 | the navigation loop over consecutive route items returns what `Locate` specifies, including its errors |
| Navigation.LocateSingle | yuca/generation.py:100-120 | a one-item route returns the context itself and that item |
| Navigation.LocateParent | yuca/generation.py:100-120 | for a generated route, success returns the route's last item as the key and, as the container, the value at the route without its last item, which is a dict unless the route has one item |
| Navigation.LocateSucceedsIff | yuca/generation.py:100-120 | navigation along a generated route succeeds exactly when every intermediate step, through names and list positions, reaches a dict |
| Applicators.SlotOf | yuca/generation.py:125-126 | the target of `data[key] = ...`: the dict `_get_data_from_route` returns, its path and the last route item as the key; navigation errors pass through, and a container that is not a dict or an integer last item gives TypeError |
| Applicators.Store | yuca/generation.py:132 | the context after `data[key] = x`: the key of the located dict is replaced, or appended when missing, and the dict is written back at its path |
| Applicators.OverrideAt | yuca/generation.py:131-132 | one override: navigation errors abort, otherwise the leaf is stored at the route's last field |
| Applicators.AsInt | yuca/generation.py:126 | the integer a subscript uses: a number as itself, `True` as 1 and `False` as 0; anything else is not an integer |
| Applicators.Iterated | yuca/generation.py:126 | what `for i in selected_indices` runs over: a list's elements, a string's characters, a dict's keys in order; a null, boolean or number leaf is not iterable |
| Applicators.Position | yuca/generation.py:126 | the position a subscript reads in a sequence of length `n`: TypeError for a non-integer, IndexError outside `-n <= i < n`, and otherwise `i` or `n + i` |
| Applicators.FilterAt | yuca/generation.py:125-126 | one filter: navigation errors abort, a non-iterable leaf gives TypeError, the first failing subscript aborts, and otherwise the selected elements are stored as a list at the route's last field |
| Applicators.Apply | yuca/generation.py:125-132 | one directive: an override in overriding mode, a filter in filtering mode |
| Applicators.ApplyAll | yuca/generation.py:124-132 | the directives applied one after the other to the context each one left, in order; the first failing one decides the outcome |
| Applicators.Process | yuca/generation.py:123-132 | a whole applicator: the pairs the generator yields before any malformed key are applied in order; a failing directive aborts, and otherwise a malformed key raises MalformedKey after those pairs |
| Applicators.Preprocess | yuca/generation.py:150-152 | the overrides are processed first and the filters then run on their result; the first failure of either aborts |
| Applicators.Subscript | yuca/generation.py:126 | `data[key][i]`: KeyError when the key is missing. A list or string target takes a Python integer index (a bool counts as 0 or 1, a string yields a one-character string). A dict target takes a key. Anything else raises TypeError |
| Applicators.Select | yuca/generation.py:126 | the comprehension takes the subscripts in order and aborts at the first error; an empty selection never reads the target |
| Applicators.SelectIndices | yuca/generation.py:126 | the comprehension's loop returns `Select`: each index read in order, with the first failing subscript aborting |
| Applicators.ApplyDirective | yuca/generation.py:123-132 | one iteration of either loop is navigation followed by the in-place assignment of the override or the selection |
| Applicators.ApplyDirectives | yuca/generation.py:123-132 | the loop over the lazy generator applies the pairs in order, and stops at the first failing directive or at a malformed key |
| Applicators.ProcessOverrides | yuca/generation.py:129-132 | `_process_overrides` is the loop in overriding mode |
| Applicators.ProcessFilters | yuca/generation.py:123-126 | `_process_filters` is the loop in filtering mode |
| Applicators.PreprocessCtxWithUserSettings | yuca/generation.py:150-152 | overrides run first, then filters on their result; a failure of either aborts |
| Applicators.SelectErrPersists | yuca/generation.py:126 | the first failing index decides the outcome of the comprehension |
| Applicators.ApplyErrPersists | yuca/generation.py:123-132 | the first failing directive decides the outcome of the loop |
| Applicators.SlotOfRoute | yuca/generation.py:125-126 | the assignment targets the field named last in the route, inside the dict found at the rest of the route |
| Applicators.SlotOfSucceedsIff | yuca/generation.py:131-132 | an assignment along a generated route can be made exactly when every step reaches a dict and the container is a dict; the target field itself need not exist |
| Applicators.StoreReadBack | yuca/generation.py:132 | after the in-place assignment, the assigned path reads the stored value |
| Applicators.StoreFrame | yuca/generation.py:132 | the in-place assignment leaves every path that neither contains nor lies inside the assigned one unchanged |
| Applicators.OverrideReadBack | yuca/generation.py:131-132 | after an override, the route reads the overriding value |
| Applicators.FilterReadBack | yuca/generation.py:125-126 | after a filter, the route holds the list of the selected elements of what it held before |
| Applicators.ApplyFrame | yuca/generation.py:123-132 | one override or filter leaves every path disjoint from its route unchanged |
| Applicators.ApplyAllFrame | yuca/generation.py:123-132 | a run of directives leaves every path disjoint from all their routes unchanged |
| Applicators.OverridesReadBack | yuca/generation.py:129-132 | after a run of overrides, a route reads its own value unless a later route overlaps it |
| Applicators.LaterOverrideWins | yuca/generation.py:129-132 | when a route is overridden twice, the later value is the one kept |
| Applicators.ProcessOverridesSpec | yuca/generation.py:129-132 | over a whole tree, each generated route not overlapped by a later one reads its leaf, and paths disjoint from all routes are unchanged |
| Applicators.FiltersReadBack | yuca/generation.py:123-126 | after a run of filters, a route that no other route of the run overlaps holds the list of the selected elements of the value it held before the run |
| Applicators.ProcessFiltersSpec | yuca/generation.py:123-126 | over a whole tree, each yielded route that no other yielded route overlaps ends up holding the selected elements of its value before filtering |
| Applicators.ProcessFiltersFrame | yuca/generation.py:123-126 | filtering a whole tree leaves paths disjoint from all its routes unchanged |
| Applicators.SelectFromList | yuca/generation.py:126 | selecting integer positions of a list succeeds exactly when each is in range, possibly counting from the end, and yields those elements in the order given, repeats included |
| Applicators.FilterExamples | yuca/generation.py:126 | positions select `A, C` and `D, B, B` from `A, B, C, D`; an out-of-range position fails; an empty selection never reads the target |
| Applicators.OverrideReplacesList | yuca/generation.py:129-132 | overriding a list key replaces the whole list |
| Applicators.FilterPicksThird | yuca/generation.py:123-126 | filtering `[A, B, C]` with `[2]` leaves `[C]` |
| Applicators.FilterOutOfRange | yuca/generation.py:126 | filtering `[A, B]` with `[2]` raises IndexError |
| Applicators.OverridesBeforeFilters | yuca/generation.py:150-152 | because overrides come first, a filter can select an element that only the overriding list has |
| Escaping.LatexEscape | yuca/generation.py:28-43 | the replacement table: `\`, `{`, `}`, `[`, `]`, `^`, `_`, `~`, `&`, `%`, `$`, `#`, `<` and `>` each map to their LaTeX form; any other character has no entry |
| Escaping.EscapeChar | yuca/generation.py:49-52 | one character becomes its table entry when it has one, and itself otherwise |
| Escaping.EscapeLatex | yuca/generation.py:47-54 | the concatenation, in input order, of what each character becomes |
| Escaping.EscapeTriple | yuca/generation.py:47-54 | a three-character string escapes to the concatenation of its characters' replacements |
| Escaping.EscapeLatexSpecialChars | yuca/generation.py:26-54 | the character loop builds `EscapeLatex` of the input: each character is replaced through the table or kept |
| Escaping.EscapeCharShape | yuca/generation.py:28-43 | every replacement in the table is at least two characters long and starts with `\` or `{`; any other character is kept as itself |
| Escaping.EscapeLatexAppend | yuca/generation.py:47-52 | escaping distributes over concatenation |
| Escaping.EscapeLatexLength | yuca/generation.py:47-52 | escaping never shortens a string, and strictly lengthens one holding a table character |
| Escaping.EscapeLatexFixed | yuca/generation.py:47-52 | a string is left unchanged exactly when it holds no table character |
| Escaping.PlainEscape | yuca/generation.py:51-52 | a string without table characters is returned as is |
| Escaping.EscapeLatexExample | yuca/generation.py:28-54 | `100% & $5` becomes `100\% \& \$5` |
| Escaping.EscapeLatexNotIdempotent | yuca/generation.py:29 | escaping a backslash twice doubles it twice, so escaping is not idempotent |
| Escaping.Escaped | yuca/generation.py:57-67 | escaping a context keeps its shape: strings stay strings, lists keep their length, dicts keep their keys in order, and other values are unchanged |
| Escaping.EscapeStrings | yuca/generation.py:57-67 | the in-place recursive walk over dicts and lists returns `Escaped` of its input |
| Escaping.LookupEscaped | yuca/generation.py:58-60 | in an escaped dict every key reads the escaped value it read before |
| Escaping.EscapedGet | yuca/generation.py:57-67 | every path of the escaped context reads the escaped value of the same path before |
| Escaping.EscapedLeaves | yuca/generation.py:64-67 | a string leaf becomes its escaped form, and null, boolean and number leaves are unchanged |
| Escaping.EscapedOtherFormat | yuca/generation.py:65 | with a format other than `latex` the context is unchanged |
| Generation.Eligible | yuca/generation.py:142-144 | a user file is copied only when its key names an overridable slot whose value is not None; other keys are skipped |
| Generation.CopyPlan | yuca/generation.py:141-147 | the copies for each eligible user file, in the order of the user's files, from the static folder under its user name to the output folder under the slot's name; TypeError at the first eligible file whose user name or slot is not a string, with nothing copied after it |
| Generation.ProcessFiles | yuca/generation.py:135-147 | the copy loop makes exactly the copies of `CopyPlan` and stops at the first path that cannot be joined |
| Generation.CopyFailurePersists | yuca/generation.py:145-147 | once a copy fails, later user files add no copies |
| Generation.CopyPlanSpec | yuca/generation.py:141-147 | the copy loop fails exactly when a user file whose key names an overridable slot that is not None, or that slot, is not a string; otherwise every such file is copied from the static folder onto its slot's file name, every copy comes from some user file and its slot, and there are at most as many copies as user files |
| Generation.CopyPlanOrder | yuca/generation.py:141-147 | the copies are made in the order of the user's files: those for the first files come first, so a later copy onto the same slot overwrites an earlier one |
| Generation.Rendered | yuca/generation.py:190-197 | the template files present in the output folder, in list order |
| Generation.Skipped | yuca/generation.py:190-195 | the template files missing from the output folder, in list order |
| Generation.RenderTemplates | yuca/generation.py:190-197 | the loop renders the listed files that exist, in list order, and skips the others |
| Generation.RenderedAppend | yuca/generation.py:190-197 | rendered and skipped files of a concatenated list are those of each part, in order |
| Generation.RenderedSpec | yuca/generation.py:190-197 | a file is rendered exactly when it is listed and exists, and skipped exactly when it is listed and missing; together they are the listed files |
| Generation.Intl | yuca/generation.py:188 | `config["intl"].get(context["lang"])`: KeyError without an intl table or a `lang`; AttributeError when the table is not a dict; TypeError for an unhashable list or dict `lang`; otherwise the entry for the language, or None when it has none |
| Generation.EscapeRequested | yuca/generation.py:177-178 | escaping is asked for when `scape_format` is a string among the valid formats |
| Generation.EscapeRequestedIff | yuca/generation.py:177-178 | strings are escaped exactly when `scape_format` is `latex` |
| Generation.Prepared | yuca/generation.py:174-179 | the user data after overrides and filters, escaped when escaping is asked for; a preprocessing failure is the result |
| Generation.RunOutcome | yuca/generation.py:155-197 | a run: KeyError without the static folder and TypeError when it is not a string; then the copies, stopping at a copy failure; then preprocessing and escaping; a context that is not a dict gives TypeError; then `settings` is assigned, the `intl` lookup may fail; KeyError without `template_files`; otherwise Done with the copies, the final context and the rendered and skipped files |
| Generation.Generate | yuca/generation.py:155-197 | a run makes the copies, preprocesses, escapes, adds `settings` and `intl`, and renders, or reports the error that stopped it |
| Generation.GenerationContext | yuca/generation.py:174-188 | in a complete run, `settings` is the defaults updated with the user's settings; `lang` is present and is not a list or dict; `intl` is the language's entry, or None when a string tag has no entry or `lang` is a number, boolean or null; every other key is as preprocessing and escaping left it |
| Generation.GenerationRequiredKeys | yuca/generation.py:160-190 | a run stops with KeyError without the recipe's static folder, cannot complete without the template's `intl` or `template_files`, and stops with KeyError, after its copies, when the context has no `lang` |
| Generation.GenerationRenders | yuca/generation.py:190-197 | the files rendered are the listed files present after copying, a listed file the user replaced is rendered, and rendered plus skipped is the listed set as a multiset |
| Generation.EscapedLanguageMissesIntl | yuca/generation.py:177-188 | with `latex`, the language `pt_BR` is escaped before it is looked up, so its translations are not found |
| TemplateNames.GetNameFromUrl | yuca/template/template_app.py:14-23 | the slice between the last `/` and the last occurrence of the ending, or the end of the URL when the ending does not occur; None when there is no `/` or the ending does not come after it |
| TemplateNames.RecipeFileName | yuca/template/template_app.py:39 | the recipe name, with `.yml` appended unless it already ends with it |
| TemplateNames.RFind | yuca/template/template_app.py:15-16 | `rfind` returns -1 or a position where the substring occurs, and no occurrence lies after it |
| TemplateNames.GetNameFromUrlSpec | yuca/template/template_app.py:14-23 | None exactly when the URL has no `/` or the ending's last occurrence starts at or before the last `/`; otherwise the URL is its part through the last `/`, the name (holding no `/`), and a rest that is empty when the ending does not occur and otherwise begins exactly at the ending's last occurrence |
| TemplateNames.GetNameFromUrlNoEnding | yuca/template/template_app.py:17-18 | without the ending, the name runs to the end of the URL |
| TemplateNames.GetNameFromUrlGitEnding | yuca/template/template_app.py:14-23 | `https://h/foo.git` gives `foo` |
| TemplateNames.GetNameFromUrlEmptyName | yuca/template/template_app.py:20-23 | `a/.git` gives the empty name |
| TemplateNames.GetNameFromUrlNone | yuca/template/template_app.py:20-21 | an ending before the last `/`, or a URL without `/`, gives None |
| TemplateNames.RecipeFileNameSpec | yuca/template/template_app.py:39 | the recipe file name always ends with `.yml`; a name that already does is kept, any other gets exactly `.yml` appended, and normalising twice is normalising once |
| TemplateNames.RecipeFileNameExamples | yuca/template/template_app.py:39 | `cv` becomes `cv.yml`, `cv.yml` stays, `cv.yaml` becomes `cv.yaml.yml` |
| Registry.Added | yuca/app_data.py:88-89 | the list after `add_warehouse`: the path is appended when it is not registered yet |
| Registry.Pruned | yuca/app_data.py:39 | the registered folders that exist, in their order |
| Registry.Relocated | yuca/app_data.py:40-44 | where the previously active path stands in the pruned list, or 0 when it was pruned |
| Registry.IndexOf | yuca/app_data.py:41 | `list.index` returns the first position holding the path |
| Registry.AppData.constructor | yuca/app_data.py:30-31 | the stored list and active index are read as given |
| Registry.AppData.Load | yuca/app_data.py:23-33 | loading reads the stored state and then checks its paths |
| Registry.AppData.CheckWarehousesPath | yuca/app_data.py:35-45 | an empty list is left alone; an active index out of range raises IndexError with the state unchanged; otherwise the missing folders are dropped and the active index follows the previously active path |
| Registry.AppData.HasWarehouses | yuca/app_data.py:63-66 | true exactly when the list is non-empty |
| Registry.AppData.ActiveWarehouse | yuca/app_data.py:68-72 | succeeds exactly when a warehouse is registered and the active index is in range, and then returns the registered path at that index, counted from the end when negative; fails with NoWarehouses on an empty list and IndexError on an index out of range |
| Registry.AppData.SwitchToWarehousePath | yuca/app_data.py:74-81 | the active index becomes the first index of the path; an unregistered path raises ValueError and an empty registry fails; the list never changes |
| Registry.AppData.SwitchToWarehouseIndex | yuca/app_data.py:74-81 | the index is stored as given when a warehouse is registered; the list never changes |
| Registry.AppData.AddWarehouse | yuca/app_data.py:83-89 | the path is appended unless already registered; the active index is untouched |
| Registry.AddedSpec | yuca/app_data.py:88-89 | adding keeps earlier entries in place, registers the path, grows the list by at most one, creates no duplicate, and adding again changes nothing |
| Registry.AddedExamples | yuca/app_data.py:88-89 | adding a new path appends it; adding a registered path changes nothing |
| Registry.PrunedSpec | yuca/app_data.py:39 | pruning keeps exactly the existing folders, never grows the list, and keeps a list whose folders all exist |
| Registry.PrunedAppend | yuca/app_data.py:39 | pruning distributes over concatenation, so relative order is kept |
| Registry.PrunedNoDuplicates | yuca/app_data.py:39 | a list without duplicates stays without duplicates |
| Registry.PrunedIdempotent | yuca/app_data.py:39 | pruning twice is pruning once |
| Registry.RelocatedSpec | yuca/app_data.py:40-44 | after pruning, the active index points at the previously active path if it still exists and is 0 otherwise, and is in range unless no folder is left |
| Registry.PruneExamples | yuca/app_data.py:39-44 | with `b` gone, `a, b, c` becomes `a, c`, an active `c` moves to 1, and an active `b` falls back to 0 |

## Left out

- Jinja rendering (`fill_template_file`, yuca/generation.py:16-23) is not modelled: a rendered file is a name in the list of files rendered with the final context.
- `shutil.copytree` and `shutil.copyfile` are not modelled. Their effect on the output folder is the `outputFiles` parameter plus the copy plan, and file-system failures (a missing source file, permissions) are not modelled.
- Path joining is modelled only as far as its TypeError on a non-string. `user_folder / user_file` with an absolute user path, and normalisation, are not modelled.
- `load_template_config` and YAML loading are not modelled. The configs are typed records whose `or {}` defaults are already applied, and a config value of the wrong kind, such as a list for `overridable_files`, is not modelled.
- Aliasing between sub-objects of the context is not modelled. The model's context is a tree of values, so one slot never shares an object with another. In Python, two slots can hold the same dict or list object. YAML anchors can cause this. So can a filter with a repeated index (yuca/generation.py:126): `[data[key][i] for i in selected_indices]` puts the same object into every slot that repeats the index.
- Applicators.Select: a repeated index copies the selected value into each slot, where Python stores one shared object. A later override through one slot (say `xs[1]: {...}` after the filter `xs: [0, 0]`) therefore changes only that slot in the model, but both slots in Python.
- Escaping.Escaped: each slot of a shared dict or list is escaped once, where Python's in-place walk (yuca/generation.py:57-67) escapes the shared object once per slot. With the context `xs: [{t: "a_b"}]`, the filter `xs: [0, 0]` and the `latex` format, Python leaves `a\\\_b` in both slots; the model has `a\_b` in both.
- Generation.Generate: a failed run reports the copies made and the error, but not the partly overridden or filtered `user_data` that Python leaves behind, because the source mutates the caller's dict in place.
- SettingsKey.ParseKey: `\d` is modelled as the ASCII digits only; Python also matches other Unicode decimal digits.
- Values.Value has integers only, and dict keys are strings only. Floats and non-string keys are not modelled.
- Applicators.SlotOf answers TypeError for a route ending in an index, where Python would use an integer dict key. The generator never yields such a route (Routes.RoutesAreWellFormed).
- `logging.error` for a missing template file (yuca/generation.py:194) is not modelled; the file is recorded as skipped.
- AppData persistence is not modelled: the data file under `platformdirs`, `load_yaml`/`save_yaml`, `_update` (yuca/app_data.py:47-50), the `update_data_after_run` decorator (12-17) and the `instance()` singleton (52-56). A registry is one `AppData` object whose state changes in memory.
- `AppData.get_warehouses` (yuca/app_data.py:58-61) only returns the list; it is the `warehouses` field.
- Registry.AppData.SwitchToWarehousePath: a `Path` argument is taken as its string form.
- The assertion `assert AppData.has_warehouses()` fails with AssertionError in Python; the model reports it as the error `NoWarehouses`.
- The other functions of yuca/template/template_app.py (git cloning, template resolution, the commands) and the rest of the repository (command-line interface, data handlers) are not part of this model.
