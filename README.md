# Tool registry and release helper, modelled in Dafny

This project models two parts of a small smart-home integration package.

The first part is the agent tool registry in `agent_layer/tool_registry.py`. A tool is a
named function with a declared parameter list (`ToolParameter`, `ToolDefinition`). The
`tool_function` decorator infers that list from a Python signature. The registry files
each definition by name and by category. It renders OpenAI function-calling schemas and
exports them. `execute_tool` validates a caller's loosely typed argument dict, calls the
tool and wraps the outcome in a `{success, result | error, tool_name}` envelope.

The second part is the version bump in `release.py`. It checks a `MAJOR.MINOR.PATCH`
string, reads the current version out of `setup.py`, rewrites the version in each listed
file (two literal patterns, or a JSON `version` key), and runs the prompt loop and
bookkeeping of `main` up to the git step.

Modules:

- `values.dfy` (`PyValues`): Python values as tagged variants. It covers `None`, `str`,
  `int`, `float`, `bool`, `list` and insertion-ordered `dict`, plus `isinstance` (where
  `bool` is an `int`), Python `==` and `in`, `d[k] = v`, `d.get(k)` and `repr`.
- `tool_definition.dfy` (`ToolModel`): the two records and `to_openai_schema`. The method
  with its loop is proved equal to the schema function; lemmas state what that schema
  holds.
- `validation.dfy` (`Validation`): `_validate_type` and `_validate_parameters`. The
  method with its early exits is proved equal to a fold. Lemmas cover the fail-fast order,
  the validated dict key by key, and the error texts.
- `tool_function.dfy` (`ToolInference`): the decorator's inference from a signature given
  as data.
- `registry.dfy` (`Registry`): `ToolRegistry` as a class. Its dicts are maps plus
  insertion-order sequences, under an invariant: every name is filed under itself, every
  order lists each key once, and every category names only registered tools.
- `scenarios.dfy` (`RegistryScenarios`): the decorated device tools `set_property_value`
  and `call_action`, run through inference, registration, validation, execution and
  export.
- `release.dfy` (`Release`): `str.strip`, `validate_version`, `get_current_version`,
  `re.sub` with a literal pattern, `update_version_in_file` and `main` up to the git
  step. The working tree is a map from path to text.
- `release_scenarios.dfy` (`ReleaseScenarios`): concrete versions, prompts and setup.py
  texts.

Two behaviours of `tool_registry.py` a caller may not expect:

- `execute_tool` raises `ValueError` for an unknown tool or a definition without a
  function (`tool_registry.py:118-123`, outside the `try`). It does not return a failure
  envelope. `ExecuteTool` returns `Err` for these two cases.
- `set_property_value(..., value: Any)` gets the declared type `"string"`, because `Any` is
  not one of the five recognised annotations (`tool_registry.py:223-239`). So a boolean
  `value` is rejected with `Parameter 'value' must be of type string`. The tool is never
  reached (`RegistryScenarios.BooleanValueRejected`).

## Model

| member | source | states |
|---|---|---|
| PyValues.IsInstance | agent_layer/tool_registry.py:188-198 | `isinstance(value, cls)`, where a `bool` is also an `int` (a definition; `IsInstanceTable` states it per class) |
| PyValues.IsInstanceTable | agent_layer/tool_registry.py:188-198 | `int` admits integers and booleans; every other class admits exactly its own values |
| PyValues.NumberOf | agent_layer/tool_registry.py:170-174 | the bound checks compare `True` as 1 and `False` as 0, and an `int` by its value |
| PyValues.PyEq | agent_layer/tool_registry.py:166 | Python `==` as the enum test uses it: numbers by value across `int`, `float` and `bool`, lists element by element, dicts by key-to-value mapping (a definition; its consequences are stated by `Validation.CheckParamOrder`) |
| PyValues.PyIn | agent_layer/tool_registry.py:166 | `value in param.enum`: some element of the list is `==` to the value (a definition, used by `Validation.CheckParamOrder`) |
| PyValues.Repr | agent_layer/tool_registry.py:166-167 | `str(param.enum)` in the enum message: a string is its text between quotes, a list is bracketed, a dict braced |
| PyValues.StrRepr | agent_layer/tool_registry.py:166-167 | a string's `repr` is its text between two equal quotes, double exactly when it holds a single quote and no double one |
| PyValues.DictSetLookup | agent_layer/tool_registry.py:55 | after `d[k] = v`, looking up `k` gives `v` and every other key keeps its value |
| PyValues.DictSetKeys | agent_layer/tool_registry.py:55 | `d[k] = v` keeps the key order when `k` is present, and otherwise appends `k` last |
| ToolModel.ParamSchema | agent_layer/tool_registry.py:41-53 | a parameter schema is a dict of two to six entries; `ParamSchemaFields` and `ParamSchemaKeys` state each entry |
| ToolModel.ParamSchemaFields | agent_layer/tool_registry.py:41-53 | a parameter schema always has `type` and `description`; it has `enum` only for a non-empty list, and `minimum`, `maximum` and `default` only when they are not `None`, each with the declared value |
| ToolModel.ParamSchemaKeys | agent_layer/tool_registry.py:41-53 | a parameter schema starts with `type` and `description` and has no key outside the six |
| ToolModel.Schema | agent_layer/tool_registry.py:35-71 | the function envelope around `properties` and `required` (a definition; `PropertiesKeys`, `PropertiesLookup`, `RequiredListMembers` and `RequiredListOrder` state its content) |
| ToolModel.ToOpenAISchema | agent_layer/tool_registry.py:35-71 | the loop over the parameters builds exactly the schema function: `properties` from `d[k] = v` per parameter, `required` in order, inside the fixed function envelope |
| ToolModel.PropertiesKeys | agent_layer/tool_registry.py:40-55 | the keys of `properties` are exactly the declared names, each once |
| ToolModel.PropertiesLookup | agent_layer/tool_registry.py:40-55 | under each name `properties` holds the schema of the last parameter declared with that name |
| ToolModel.PropertiesOfDistinct | agent_layer/tool_registry.py:40-55 | with distinct names, each parameter's own schema sits under its name |
| ToolModel.RequiredListMembers | agent_layer/tool_registry.py:57-58 | `required` lists a name if and only if some parameter with that name is required |
| ToolModel.RequiredListOrder | agent_layer/tool_registry.py:38-58 | `required` equals a front-to-back reference definition: one entry per required parameter, in declaration order |
| Validation.ErrorTextNamesParameter | agent_layer/tool_registry.py:156-174 | every validation message contains the offending parameter's name in single quotes |
| Validation.MissingRequiredText | agent_layer/tool_registry.py:155-156 | the message for a missing required parameter is `Required parameter '<name>' is missing` |
| Validation.WrongTypeText | agent_layer/tool_registry.py:162-163 | the message for a wrong type is `Parameter '<name>' must be of type <type>` |
| Validation.ValidateType | agent_layer/tool_registry.py:183-198 | `isinstance` against the classes the type table lists, true for an unknown type name (a definition; `ValidateTypeTable` states it per type name) |
| Validation.ValidateTypeTable | agent_layer/tool_registry.py:183-198 | for each of the six type names, exactly which values pass (a `bool` passes as `integer` and `number`); an unknown type name accepts everything |
| Validation.CheckParam | agent_layer/tool_registry.py:154-174 | the checks of one loop iteration; an error always names the parameter checked |
| Validation.CheckParamOrder | agent_layer/tool_registry.py:154-174 | for one parameter the first failing check wins (missing, type, enum, minimum, maximum), each as an if-and-only-if; an absent optional parameter passes |
| Validation.Validate | agent_layer/tool_registry.py:149-181 | the result or error of `_validate_parameters` as a fold over the parameters (a definition; `ValidateFailsFast` and `ValidatedDict` state it) |
| Validation.ValidateParameters | agent_layer/tool_registry.py:149-181 | the loop with its early exits computes the validation fold |
| Validation.ValidateFailsFast | agent_layer/tool_registry.py:154-174 | validation succeeds if and only if every parameter passes its checks; on failure the error is that of the first failing parameter |
| Validation.ErrorNamesDeclaredParameter | agent_layer/tool_registry.py:154-174 | a validation error always names a declared parameter |
| Validation.ValidatedDict | agent_layer/tool_registry.py:151-181 | on success the result is exactly the key-by-key description: only declared names, supplied values unchanged, and non-`None` defaults for absent names |
| Validation.ValidateExactArguments | agent_layer/tool_registry.py:151-181 | arguments that name exactly the declared parameters and pass every check come back unchanged |
| Validation.AbsentParameter | agent_layer/tool_registry.py:178-179 | an absent, singly declared parameter is passed if and only if its default is not `None`, and then with that default |
| Validation.UndeclaredKeyIgnored | agent_layer/tool_registry.py:154-181 | adding an argument key that names no parameter changes neither success, nor the error, nor the validated dict |
| ToolInference.InferredType | agent_layer/tool_registry.py:223-239 | `int`, `float`, `bool`, `list` and `dict` map to integer, number, boolean, array and object, each as an if-and-only-if; anything else, or no annotation, gives string |
| ToolInference.InferParameter | agent_layer/tool_registry.py:223-247 | the name is kept, the description is `Parameter <name>`, the parameter is required if and only if there is no default, and the default is carried only when not required |
| ToolInference.DeclaredMembers | agent_layer/tool_registry.py:219-221 | a formal parameter is declared if and only if it is not `self` |
| ToolInference.DeclaredWithoutSelf | agent_layer/tool_registry.py:219-221 | without a `self` parameter every formal parameter is declared, in order |
| ToolInference.InferParameters | agent_layer/tool_registry.py:217-247 | the loop yields one inferred parameter per non-`self` formal parameter, in order |
| ToolInference.ToolFunction | agent_layer/tool_registry.py:206-256 | the name is the override or the function's name (an empty override counts as absent); the description is the override, else the docstring, else `Execute <name>`; plus the inferred parameters, the function and the category, which defaults to "general" |
| ToolInference.InferredRequiredNames | agent_layer/tool_registry.py:219-226 | the schema's `required` list names a parameter if and only if the signature has it, it is not `self`, and it has no default |
| Registry.Resolve | agent_layer/tool_registry.py:99-102 | each definition found is the one filed under some listed, registered name, and there are no more of them than names |
| Registry.RegisterIndexesTool | agent_layer/tool_registry.py:83 | storing a definition under its name keeps the tool table indexed |
| Registry.RegisterIndexesCategory | agent_layer/tool_registry.py:85-87 | creating or extending a category list keeps the category table indexed |
| Registry.RegisterResolves | agent_layer/tool_registry.py:83-87 | after registration every name filed under a category is still a registered tool |
| Registry.ToolRegistry.constructor | agent_layer/tool_registry.py:77-79 | a new registry is empty and satisfies the invariant |
| Registry.ToolRegistry.RegisterTool | agent_layer/tool_registry.py:81-87 | last write wins under the name, so `get_tool(d.name)` gives `d` and every other name gives what it gave before; a new name goes last; the name is appended to its category's list even when already there; the invariant is kept |
| Registry.ToolRegistry.GetTool | agent_layer/tool_registry.py:91-93 | a definition is found if and only if the name is registered, and it is the definition filed under that name |
| Registry.ToolRegistry.GetTools | agent_layer/tool_registry.py:95-97 | the definitions in registration order, one per name |
| Registry.ToolRegistry.GetToolsByCategory | agent_layer/tool_registry.py:99-102 | the definitions the category's list names, in list order, repeats kept; empty for an unknown category |
| Registry.ToolRegistry.GetOpenAITools | agent_layer/tool_registry.py:104-106 | one schema per tool, in registration order |
| Registry.ToolRegistry.GetToolNames | agent_layer/tool_registry.py:108-110 | the registered names, each once, in registration order |
| Registry.ToolRegistry.GetCategories | agent_layer/tool_registry.py:112-114 | the categories, each once, in the order they were first used |
| Registry.ToolRegistry.ExportSchema | agent_layer/tool_registry.py:200-205 | the format defaults to `openai`, which gives the schema list; any other format fails with `Unsupported format: <format>` |
| Registry.ToolRegistry.ExecuteTool | agent_layer/tool_registry.py:116-147 | an unknown name or a definition without a function raises `ValueError`; a validation error gives a failure envelope and the function is not called; otherwise the function is called once with the validated dict, and its result or exception text is enveloped |
| RegistryScenarios.SetPropertyInferred | agent_layer/tool_registry.py:384-385 | `set_property_value` declares four required parameters, with `value: Any` typed as string |
| RegistryScenarios.CallActionInferred | agent_layer/tool_registry.py:398-399 | `call_action`'s `params = None` makes it optional with default `None` |
| RegistryScenarios.BooleanValueValidation | agent_layer/tool_registry.py:384-385 | a boolean `value` fails the type check for string |
| RegistryScenarios.StringValueValidation | agent_layer/tool_registry.py:384-385 | well-typed arguments are validated to themselves |
| RegistryScenarios.SetPropertyRegistry | agent_layer/tool_registry.py:412-415 | registering the decorated tool files it under its name with the inferred parameters |
| RegistryScenarios.BooleanValueRejected | agent_layer/tool_registry.py:384-385 | `execute_tool` with a boolean `value` returns the type failure and never calls the tool |
| RegistryScenarios.StringValueAccepted | agent_layer/tool_registry.py:384-385 | a string `value` succeeds; an extra undeclared key is not forwarded |
| RegistryScenarios.MissingDeviceId | agent_layer/tool_registry.py:384-385 | leaving out `device_id` fails with its missing message, even with a wrong `value`, and the tool is not called |
| RegistryScenarios.UnknownToolRaises | agent_layer/tool_registry.py:118-120 | an unknown tool raises `Tool 'turn_on' not found` |
| RegistryScenarios.NoFunctionRaises | agent_layer/tool_registry.py:122-123 | a definition without a function raises |
| RegistryScenarios.CallActionSchema | agent_layer/tool_registry.py:398-399 | `params` has a schema entry without `default` and is not in `required` |
| RegistryScenarios.CallActionValidation | agent_layer/tool_registry.py:398-399 | omitting `params` forwards nothing for it |
| RegistryScenarios.ReRegisterTwice | agent_layer/tool_registry.py:81-87 | registering one definition twice keeps one name but lists it twice in its category |
| RegistryScenarios.MoveCategory | agent_layer/tool_registry.py:99-102 | after re-registering under a new category, the old category still yields the new definition |
| RegistryScenarios.ExportOpenAI | agent_layer/tool_registry.py:200-203 | an export in the default format lists the single tool's schema |
| RegistryScenarios.ExportYaml | agent_layer/tool_registry.py:204-205 | a `yaml` export is refused |
| Release.Strip | release.py:96 | the stripped text neither starts nor ends with whitespace |
| Release.StripRemovesSpaces | release.py:96 | `strip` removes only whitespace, and only at the two ends |
| Release.ValidateVersion | release.py:75-78 | `re.match(r'^\d+\.\d+\.\d+$', v)` with greedy digit runs (a definition; `ValidateVersionMeaning` states which texts pass) |
| Release.ValidateVersionMeaning | release.py:75-78 | `validate_version` holds if and only if the text is three non-empty digit runs joined by dots, optionally followed by one newline |
| Release.StrippedVersionValid | release.py:96-102 | on a stripped answer `validate_version` is exactly the release-string test |
| Release.ReleaseCharacters | release.py:75-78 | a release string holds only digits and dots |
| Release.CaptureAt | release.py:16 | a match at an index captures a non-empty, quote-free text |
| Release.CaptureAtMeaning | release.py:16 | the pattern matches at an index capturing `v` if and only if `v` is non-empty and quote-free and `version="<v>"` occurs there |
| Release.FirstCapture | release.py:16 | the search finds the leftmost index where the pattern matches, or reports that none does |
| Release.CurrentVersion | release.py:11-19 | a current version needs setup.py, and is non-empty and quote-free |
| Release.CurrentVersionFound | release.py:11-19 | there is no current version if and only if setup.py is missing or has no match; otherwise it is non-empty and quote-free, setup.py contains `version="<it>"`, and it is the capture at the first index where the pattern matches |
| Release.ReplaceAll | release.py:53 | `re.sub` of a literal pattern: every leftmost, non-overlapping occurrence is replaced (a definition; `ReplaceAllLeftmost`, `ReplaceAllAbsent`, `ReplaceAllOnce`, `ReplaceAllSelf` and `ReplaceAllLength` state it) |
| Release.ReplaceAllLength | release.py:53 | replacing with a text of the pattern's length keeps the length |
| Release.ReplaceAllAbsent | release.py:53 | substitution leaves a text without the pattern unchanged |
| Release.ReplaceAllSelf | release.py:53 | replacing a pattern by itself changes nothing |
| Release.ReplaceAllLeftmost | release.py:53 | text before the first occurrence is kept, that occurrence is replaced, and scanning resumes after it |
| Release.ReplaceAllOnce | release.py:53 | a single occurrence is replaced and all other text is kept |
| Release.LastComponent | release.py:31 | the file name is the end of the path that follows the last `/`, or the whole path when it has none |
| Release.IsJsonPath | release.py:31 | `Path.suffix == '.json'`: the file name after the last `/` ends with `.json` after a non-empty stem |
| Release.JsonPathSuffix | release.py:31 | a JSON path ends with `.json` with a character other than `/` before it |
| Release.Rewrite | release.py:50-55 | when no pattern was replaced the text is unchanged |
| Release.RewriteTwo | release.py:50-55 | with two patterns, the text is the original with every occurrence of the first replaced, then every occurrence of the second |
| Release.RewriteUpdatedIff | release.py:50-55 | `updated` holds if and only if some pattern occurs in the original text; otherwise the text is unchanged |
| Release.JsonUpdate | release.py:31-42 | the file is written if and only if the result is `True` |
| Release.FileUpdate | release.py:22-62 | only the named file can change, and no file appears or disappears |
| Release.JsonFileUpdated | release.py:31-39 | a JSON object with `version` gives `True`; read back, the file has the same keys with only `version` changed |
| Release.JsonFileUntouched | release.py:33-42 | unparsable JSON gives `False`, an object without `version` gives `None`, and neither file is rewritten |
| Release.TextFileUpdated | release.py:43-62 | a non-JSON file gives `True` if and only if `version="old"` or `version='old'` occurs in it, and then holds the text with every `version="old"` made `version="new"` and then every `version='old'` made `version='new'`; otherwise `False` and it is not written |
| Release.UpdateVersionInFile | release.py:22-62 | the method with its pattern loop computes the file-update function |
| Release.FirstAcceptable | release.py:95-106 | an accepted answer is non-empty, a valid version and different from the current one |
| Release.AcceptedVersion | release.py:95-106 | the accepted version is a release string different from the current one |
| Release.FirstAcceptableSpec | release.py:95-106 | the accepted version is the first acceptable stripped answer, all earlier answers were refused, and there is none if and only if every answer is refused |
| Release.ReadNewVersion | release.py:95-106 | the prompt loop returns the first acceptable stripped answer |
| Release.UpdateResults | release.py:117-121 | one result per listed file unless a call raised, which is then the last; the first is the result of updating the first file; only the last may have raised |
| Release.UpdateFrom | release.py:117-121 | the loop fails if and only if some call raised, with that call's message; otherwise the count is the number of calls that returned `True` |
| Release.UpdateFromFrame | release.py:117-121 | files outside the list are never touched and no file is created |
| Release.UpdateFiles | release.py:117-121 | the loop computes the update fold, stopping at the first exception |
| Release.Main | release.py:81-125 | how `main` ends before the git step and the tree afterwards (a definition; `MainExitStatus` and `MainTree` state it) |
| Release.MainExitStatus | release.py:87-125 | exit status 1 if and only if setup.py has no version, every answer is refused, a file update raises, or no listed file's update returns `True`; otherwise the git step follows with tag `v<new>` and the count of files updated |
| Release.MainTree | release.py:81-125 | only the listed files can change, none is created or removed, and nothing changes before a new version is accepted |
| Release.RunRelease | release.py:81-141 | the method computes `Main`: the outcome and the tree afterwards |
| ReleaseScenarios.ValidVersionExamples | release.py:75-78 | `1.2.3`, `10.0.25` and `1.2.3\n` pass |
| ReleaseScenarios.InvalidVersionExamples | release.py:75-78 | `1.2`, `1.2.3.4`, `v1.2.3`, `1..3`, `1.2.3 ` and the empty text fail |
| ReleaseScenarios.StripExamples | release.py:96 | `strip` removes spaces, tabs and newlines at the ends |
| ReleaseScenarios.PromptExample | release.py:95-106 | empty, unchanged and malformed answers are skipped; a padded valid one is accepted |
| ReleaseScenarios.CurrentVersionExamples | release.py:11-19 | the first match wins; an empty value does not match; without setup.py there is none |

## Left out

- The rest of the package is not modelled: the Mijia adapter, configuration, `publish.py`, `setup.py` as a program, and the tests.
- The device tool bodies in `tool_registry.py` are not modelled, nor `get_adapter` and `initialize_adapter`; tool functions are parameters (`Callable`).
- Logging (`_LOGGER`) and all of `release.py`'s printing are left out: they do not change state.
- `async`/`await` is left out: a coroutine and a plain function are one call here. There is no concurrency in the registry.
- The JSON text of `export_schema` is not modelled: `ExportSchema` returns the schema values that `json.dumps` would print.
- CPython's float formatting is a parameter (`floatText`) in the enum and bound messages, and `repr` of strings does not model escaping.
- `@wraps`, the `_tool_definition` attribute and the module-level auto-registration loop are left out; the scenarios register the definition directly.
- The signature is given as data: `inspect.signature` and the comparison of annotations with `int`, `float`, `bool`, `list` and `dict` are reduced to the `Annotation` variants.
- `\d` is modelled as ASCII digits only; Python also matches other Unicode decimal digits.
- `re.sub` is modelled for replacement texts without backslashes.
- `json.loads` and `json.dumps` are parameters (`decode`, `dumps`). Release.JsonFileUpdated assumes that `dumps` prints what `decode` reads back, because that round trip is not modelled.
- Release.JsonUpdate: the `TypeError` texts are those of current CPython versions; the JSON value it gets back is a model value, so a float key or duplicate keys in the file are not distinguished.
- `Path.exists()` is membership in the tree, and `Path.suffix` is modelled for `/`-separated paths.
- In `main`, the git step is left out: the commit and tag commands, the second and third prompts, and the exit codes after it. `RunRelease` stops with `Bumped`, which carries the tag name to create.
- `input()` raising `EOFError` when the answers run out is the `InputExhausted` outcome. Like an exception from a file update (`Crashed`), it ends the interpreter with status 1 and a traceback, which is not modelled.
- Release.UpdateFrom: a `None` return is counted as not updated, as `if` does; an exception ends the loop, keeping the files already written.
