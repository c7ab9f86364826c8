# converter.js core, modelled in Dafny

The converter reads a serverless application document and derives an API
description from it. This project models the part of `converter.js` with
real logic:

- **The four string helpers** that derive names: `toTextSpace`, `toSnake`,
  `toCamelCase` and `toPascalCase` (module `Casing`, with their properties in
  module `CaseProperties`). Each one is written as its chain of regular
  expression replacements over ASCII characters. This includes the
  backtracking of `/\s+(.)(\w+)/g` in `toPascalCase`.
- **`getProjectInfo`**, the project record derived from the document's
  `service` name (module `ProjectInfo`).
- **The event projection** in `main`. Every event of every function becomes
  one resource descriptor, classified as an HTTP route (`x-api`) or another
  event (`x-event`). Descriptors are then grouped by resource path in the
  `ResourcePaths` table.
  - Module `Projection` holds the descriptor of one event and the reference
    definitions of the grouped table (`Paths`, `Group`).
  - Module `ResourceTable` holds the loop that fills the table in place
    (class `ResourceGroup` stands for a JavaScript array of descriptors).
    It also holds `convertArray`, which flags each element with
    `-first`/`-last`/`hasMore` and sets `isEmpty`, and `convertResources`,
    which flattens the table into `{ResourcePath, ResourceData}` entries.
- **Module `Values`** gives the JavaScript notions the code relies on: parsed
  YAML values, truthiness, property lookup and `Object.keys` order.

Facts about the projection in converter.js that the model keeps:

- A truthy `schedule` event gets the path `<function>/schedule` (line 190).
- The catch-all event's `ServiceTag` is the raw value under the event's first
  key (line 197). It is not reshaped into a tag list.
- `ServiceName` is the document's `service` as written (line 199). Only the
  operation name is derived: `OperationName` is `toCamelCase` of the function
  name and `Description` is `toTextSpace` of that (lines 202-203).
- `ServicePolicy` is read from the document's root-level `iamRoleStatements`
  (line 200), not from `provider.iamRoleStatements`, which line 157 reads.
- No value of the document is interpolated: `${...}` placeholders pass
  through unchanged.

The main results:

- `ResourceTable.ResourceEntries` proves that the projection followed by
  `convertResources` yields one entry per distinct resource path, in
  first-seen order. Each entry holds exactly the descriptors on that path, in
  declaration order, flagged by position.
- `Projection.TableHoldsEveryEvent` proves that the lists of the table,
  taken together, are a rearrangement of all descriptors. Each descriptor
  is in exactly one list, and there is one per declared event.
- The `CaseProperties` lemmas give closed forms of the case helpers:
  - `toTextSpace` and `toSnake` on any identifier without surrounding white
    space;
  - `toPascalCase` on alphanumeric input, and on two words joined by one
    separator;
  - `toCamelCase` on two words joined by one separator. On other inputs the
    lemmas state only its first character and that it holds no separators.
- The lemmas also pin down the quirks: `toSnake("fooBar")` is `"oo-bar"`, and
  `toPascalCase("foo  B")` is `"Foob"` but `toPascalCase("foo B")` is
  `"FooB"`.

## Model

| member | source | states |
|---|---|---|
| Values.Get | converter.js:197 | `obj[key]` is defined exactly when some field has that key, and then it is that field's value |
| Values.Truthy | converter.js:176-185 | the JavaScript truthiness tests: `undefined`, `null`, `false`, `0` and `""` are falsy, and every array and object is truthy |
| Casing.ToTextSpace | converter.js:36-40 | the replacement chain as written; its properties are in TextSpaceShape, TextSpaceLength and TextSpaceCapitals |
| Casing.ToSnake | converter.js:42-46 | the replacement chain as written; its properties are in SnakeShape, SnakeHasNoCapitals and SnakeOfCapitalized |
| Casing.ToCamelCase | converter.js:48-52 | the replacement chain as written; its properties are in CamelHasNoSeparators, CamelFirst and CamelOfTwoWords |
| Casing.CamelMarks | converter.js:49-50 | the first replacement of toCamelCase: offset 0 lowered if it is a word character, and every other match of `(?:^\w\|[A-Z]\|\b\w)` raised; CamelMarksAt states it per offset |
| Casing.ToPascalCase | converter.js:54-64 | the replacement chain as written; its properties are in PascalIsAlnum, PascalOfAlnum, PascalOfTwoWords, PascalOneLetterWord and PascalDoubleSpaceOneLetter |
| Casing.CapitalizeWords | converter.js:58-61 | `/\s+(.)(\w+)/g` with its backtracking: a white-space run followed by a character and word characters becomes the raised character and the lowered word; for a run of two or more before a single word character, `(.)` takes the run's last character unless that character is a line feed or carriage return, which `.` does not match; PascalOneLetterWord and PascalDoubleSpaceOneLetter pin both cases down |
| CaseProperties.TextSpaceShape | converter.js:36-40 | for an identifier without surrounding white space, toTextSpace raises the first character and puts a space before every later capital |
| CaseProperties.TextSpaceLength | converter.js:36-40 | for a non-empty input without white space at either end, the result gains one character per capital, less one for a leading capital |
| CaseProperties.TextSpaceCapitals | converter.js:36-40 | for a non-empty input without white space at either end, the result starts with the raised first character, and every later capital follows a space |
| CaseProperties.SnakeShape | converter.js:42-46 | for a non-empty input without white space at either end, toSnake lowers the input with '-' before each capital and drops the first character of that |
| CaseProperties.SnakeHasNoCapitals | converter.js:42-46 | toSnake never returns a capital letter, on any input |
| CaseProperties.SnakeOfCapitalized | converter.js:42-46 | a capitalised identifier gives its kebab-case form ("EventBridge" gives "event-bridge") |
| CaseProperties.CamelHasNoSeparators | converter.js:48-52 | toCamelCase output holds no white space and no '-', on any input |
| CaseProperties.CamelFirst | converter.js:49-50 | an input starting with a word character gives a result starting with that character lowered |
| CaseProperties.CamelMarksAt | converter.js:49-50 | after offset 0, a word character that follows a non-word character is raised and every other character is kept |
| CaseProperties.CamelOfTwoWords | converter.js:48-52 | two alphanumeric words joined by '-' or a space become camelCase ("get-user" gives "getUser") |
| CaseProperties.PascalIsAlnum | converter.js:54-64 | toPascalCase output holds letters and digits only, on any input |
| CaseProperties.PascalOfAlnum | converter.js:54-64 | an alphanumeric input only has its first character raised |
| CaseProperties.PascalOfTwoWords | converter.js:54-64 | two alphanumeric words joined by one '-', '_' or space, the second at least two characters long: the first keeps its case apart from its raised first letter, and the second is capitalised with the rest lowered (a one-letter second word is not matched by `/\s+(.)(\w+)/`: "foo-b" gives "Foob", by PascalOneLetterWord) |
| CaseProperties.PascalOneLetterWord | converter.js:54-64 | one '-', '_' or space before a one-letter word: the separator becomes one space, `/\s+(.)(\w+)/` finds no match, and the letter keeps its case ("foo-b" gives "Foob") |
| CaseProperties.PascalDoubleSpaceOneLetter | converter.js:58-61 | two spaces before a one-letter word: the regex backtracks, so the letter is lowered |
| CaseProperties.EventKeySlug | converter.js:196 | the catch-all path segment `toPascalCase().toSnake()` of an alphanumeric key that starts with a letter is its kebab-case form with the first letter lowered |
| ProjectInfo.GetProjectInfo | converter.js:139-147 | the project name is toPascalCase of the service (so "my-service" gives "MyService" by PascalOfTwoWords) and is alphanumeric, the deployment name is the name plus "Demo", the description is toTextSpace of the name, region and profile are the fixed constants, and an alphanumeric service keeps its name apart from its raised first letter |
| ProjectInfo.ProjectDescOfAlnum | converter.js:141 | for an alphanumeric service, the description is the raised name with a space before every later capital |
| Projection.Common | converter.js:199-203 | every descriptor of a function carries the service name, the root policy, the provider runtime or the default "nodejs12.x", the camelCase operation name without separators, and its description |
| Projection.Describe | converter.js:179-203 | `x-api` exactly for a truthy `http`, with public, lower-cased path and method; otherwise `x-event`/`patch` with the raw `schedule`; the path is `<k>/schedule` for a truthy schedule, otherwise `<k>/` plus the slug of the first key with its value as tag; all other fields are shared by the function |
| Projection.FunctionDescriptors | converter.js:177-208 | one descriptor per event of a function |
| Projection.AllDescriptors | converter.js:175-210 | one descriptor per declared event across all functions |
| Projection.Paths | converter.js:204-207 | the table's keys are distinct, and a path is a key exactly when some descriptor has it |
| Projection.Group | converter.js:204-207 | a path's list holds only descriptors with that path, and is empty exactly when no descriptor has it |
| Projection.EveryDescriptorGrouped | converter.js:204-207 | the lists of all keys, one after the other, hold the same descriptors as `ds` with the same multiplicities: every descriptor is in exactly one list |
| Projection.TableHoldsEveryEvent | converter.js:174-210 | the lists of the filled table together hold each descriptor of every event exactly once, and as many descriptors as the functions declare events |
| ResourceTable.ResourceGroup.constructor | converter.js:205 | a new list is empty and has no `isEmpty` property |
| ResourceTable.ResourceGroup.Push | converter.js:207 | `push` appends the descriptor and changes nothing else |
| ResourceTable.Decorated | converter.js:68-75 | the flagged list keeps its length and every other field; element i has `-first` iff i = 0, `-last` iff it is the last one, and `hasMore` iff it is not |
| ResourceTable.DecoratedFlagsAgree | converter.js:71-73 | `hasMore` is the negation of `-last`, and only the first element is `-first` |
| ResourceTable.ConvertArray | converter.js:66-79 | a missing list becomes a new empty one with `isEmpty` true; otherwise the same list is returned, flagged in place, with `isEmpty` set to whether it was empty |
| ResourceTable.Record | converter.js:204-207 | the descriptor joins the list of its path, created on first sight, and the table stays equal to the reference grouping of the descriptors seen so far |
| ResourceTable.StartList | converter.js:204-207 | a new path gets a fresh list holding the descriptor, appended to the key order |
| ResourceTable.AppendTo | converter.js:207 | a known path's list grows by the descriptor and no other list changes |
| ResourceTable.AddEvents | converter.js:177-208 | after one function's events the table equals the reference grouping of all descriptors so far |
| ResourceTable.BuildResourcePaths | converter.js:174-210 | the filled table's keys are `Paths` of all descriptors in order, each list is `Group` of its path, and every list is new |
| ResourceTable.ConvertResources | converter.js:81-90 | one entry per key, in key order, holding that key's list, and every list converted by convertArray |
| ResourceTable.ResourceEntries | converter.js:174-213 | the `ResourcePaths` handed to the template: one entry per distinct path in first-seen order, holding exactly that path's descriptors in order, flagged, and non-empty |
| ResourceTable.TwoRoutesShareOnePath | converter.js:174-210 | two functions with an HTTP event on the same path share one entry, first function first, flagged first and last |

## Left out

- Command-line handling, the template and file output, and YAML linting (converter.js:11-34, 92-137, 149-172, 211-225) are input/output. They are not modelled.
- extractServicePolicy and buildExternalResources (converter.js:98-116) render templates and copy values. They are not modelled.
- The `toString` override that convertArray installs (converter.js:77) depends on a global `arrayMode` the code never defines. It is not modelled.
- YAML parsing is not modelled. The document enters as `ServerlessSpec`: the service name, the provider runtime, the root `iamRoleStatements` and the functions in key order.
- Character classes are ASCII: a non-ASCII character is neither word nor space and has no case. Unicode case mapping is not modelled.
- Numbers in the document are integers; floating point and NaN truthiness are not modelled.
- Projection.WellFormedEvent: events are modelled as objects only. A non-empty object with distinct keys, none of them an array index, and with string `path` and `method` under a truthy `http` is required. The code handles the other shapes differently, and the model leaves them out. An empty object makes `Object.keys(evt)[0].toPascalCase()` throw (line 196). So does an `http` without a string `path` or `method` (lines 183-184). Index keys are listed first by Object.keys, so the first key is not the first declared. A string or array event (`- foo`) reaches the catch-all with first key `"0"`: it gets the path `<function>/` and the tag `"f"`, without throwing.
- Projection.ValidSpec: function names that are array indices are excluded, since Object.keys would list them first. Function names must also be distinct.
- Projection.PlainTableKey: lower-cased HTTP paths that are array indices, `constructor` or `__proto__` are excluded. Index keys would be reordered in the table. For the other two names, `ResourcePaths[path]` already holds an inherited value.
- Values.IsIndexKey: the bound 2^32 - 1 is checked on the decimal value. Keys with leading zeros or non-digit characters are never array indices.
- Projection.Describe: the `service.X || ...` defaults (converter.js:183-184, 190, 196, 202) always take the right-hand side, because `service` is a fresh object. An event whose first key holds `undefined` is not representable.
- ResourceTable.ConvertArray: a falsy argument other than a missing list (`0`, `""`) is not modelled. Only `null` stands for it, and the table never holds either.
- ResourceTable.ConvertResources: requires distinct keys and that no two keys share a list. The table built by BuildResourcePaths has both properties.
