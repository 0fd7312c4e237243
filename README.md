# pyblitz, modelled in Dafny

pyblitz turns an OpenAPI 3.1.0 specification into a Python client module.
This project models its core in Dafny and proves properties of the model.

- **Parser.** `Parser_3_1_0.parse` reads the decoded specification. It records:
  - the servers;
  - a tree of endpoints, one per path segment, holding the HTTP methods recorded at each endpoint;
  - the schema models with their properties;
  - for every method, the schema classes that its responses refer to. Each is recorded under a status code and the key path that reaches it.
- **Generator.** `_EndpointWriter` emits the Python text for the servers, the endpoint classes and the schema classes.
- **Schema runtime.** An emitted schema class has behaviour of its own at run time: `serialize`, `_loadJsonDict` and `fromResponse`.
- **Responses.** `Response` decodes a response body. It then replaces the parts that the parser registered for the response's status code by schema instances: the path-descriptor walk of `_transformSchema`.
- **Common.** The shared helpers `convertDashesToCamelCase` and `capitalize`.

The model follows the source's structure. The Python classes whose objects are updated in place are Dafny classes with `modifies` frames:
- the parser (`OpenApiParser.Parser`);
- `Method` and `Schema` (`Records.Method`, `Records.Schema`);
- the response (`Responses.Response`);
- an emitted schema instance (`SchemaRuntime.SchemaObject`).

Every `for` and `while` statement of the source is a method with loop invariants. Each such method is proved equal to a pure function, and the source's promises are stated about that function as lemmas. There is one exception: the generator `allSchemaInResponseJson` (pyblitz/generator/parser.py:227-230), whose nested loops only `yield`, is the recursive function `Records.AllEntries`. It is proved to list each recorded triple exactly once, in the loops' order. Comprehensions and generator expressions are functions.

Two facts about Python are assumed throughout:
- the keys of a dict are distinct (`Json.DistinctKeys` holds for what `json.loads` returns and is kept by item assignment);
- the Python version is 3.11 or earlier, where a slice is not hashable.

Value-like data is modelled with datatypes:
- servers, properties, JSON values, path descriptors;
- the endpoint tree, as an arena of nodes whose parents come before their children.

A Python dict is `Dicts.Dict`: a map plus the keys in insertion order.

Python exceptions become `Err` values of `Wrappers.Error`. Each error path of the source is modelled, for example:
- `KeyError` for a missing key;
- `IndexError` for `url[-1]` on `""`;
- `AttributeError` for `None.addMethod`;
- the `assert` statements, as `AssertionError`.

JSON references inside the structure are modelled as paths from the root. `JsonPaths.SetAt` writes through such a path, and its lemmas cover the usual facts:
- a write reads back;
- writes at paths that are apart do not interfere;
- the second of two writes wins.

## Model

| member | source | states |
|---|---|---|
| CamelCase.Capitalize | pyblitz/common/__init__.py:9-10 | fails with IndexError exactly on the empty string; otherwise same length, first character upper-cased, the rest unchanged |
| CamelCase.CapitalizeAll | pyblitz/common/__init__.py:4-7 | definition: `_capitalize` of each piece in order, stopping at the first failure; `CapitalizeAllSpec` states its contract |
| CamelCase.ConvertDashesToCamelCase | pyblitz/common/__init__.py:1-7 | definition: the pieces between dashes, the first kept and the others capitalized and joined; the lemmas below state its contract |
| CamelCase.CapitalizeIdempotent | pyblitz/common/__init__.py:9-10 | capitalizing a capitalized string changes nothing |
| CamelCase.CapitalizeAllSpec | pyblitz/common/__init__.py:4-7 | capitalizing the pieces after the first dash fails (IndexError) iff one of them is empty, else yields one capitalized piece per piece |
| CamelCase.ConvertFailsIffEmptyPiece | pyblitz/common/__init__.py:1-7 | conversion fails, with IndexError, iff some piece after a dash is empty |
| CamelCase.NoDashUnchanged | pyblitz/common/__init__.py:1-7 | a string without dashes is its own camel case |
| CamelCase.ConvertOfJoin | pyblitz/common/__init__.py:1-7 | dash-joined pieces convert to the first piece followed by the others capitalized |
| CamelCase.ConvertResultShape | pyblitz/common/__init__.py:1-7 | a converted string has no dash and is shorter by the number of dashes |
| CamelCase.ConvertIdempotent | pyblitz/common/__init__.py:1-7 | converting a converted string changes nothing |
| CamelCase.DoubleDashFails | pyblitz/common/__init__.py:1-7 | two dashes in a row raise IndexError |
| CamelCase.TrailingDashFails | pyblitz/common/__init__.py:1-7 | a trailing dash raises IndexError |
| Common.Capitalize | common/__init__.py:9-10 | the same `capitalize`: error iff empty, first character upper-cased, rest kept |
| Common.ConvertDashesToCamelCase | common/__init__.py:1-7 | no dash means unchanged; a result has no dash, loses one character per dash and is a fixed point; fails iff a piece after a dash is empty |
| Strs.Split | pyblitz/generator/parser.py:69 | `str.split(sep)` gives at least one piece, none containing the separator |
| Strs.JoinSplit | pyblitz/generator/parser.py:69 | joining the pieces of a split with the separator gives the string back |
| Strs.SplitJoin | pyblitz/generator/parser.py:69 | splitting a join of separator-free pieces gives the pieces back |
| Strs.Upper | pyblitz/generator/generate.py:220 | `str.upper()` maps every character and keeps the length |
| Strs.ParseInt | pyblitz/generator/parser.py:87 | `int()` succeeds iff the string is an optional `+` or `-` followed by at least one ASCII digit, with the digits' value negated after `-`; any other string, such as the status code `default`, raises ValueError |
| Strs.DefaultCodeFails | pyblitz/generator/parser.py:87 | the OpenAPI status code `default` makes `int()` raise ValueError |
| Strs.ParseIntOfNatToString | pyblitz/generator/parser.py:294 | `int(str(n)) == n`, so a formatted server index reads back |
| Records.MakeServer | pyblitz/generator/parser.py:105-108 | IndexError iff the url is empty; exactly one trailing slash is dropped; name and description kept |
| Records.ServerStripsOneSlash | pyblitz/generator/parser.py:107 | `url + "/"` is stored as `url` |
| Records.AddSchemaEntry | pyblitz/generator/parser.py:221-225 | after recording, (code, path) is bound to the schema reference and every other binding is unchanged |
| Records.AddEntriesAppend | pyblitz/generator/parser.py:221-225 | recording two batches in turn is recording their concatenation |
| Records.AddEntriesBinding | pyblitz/generator/parser.py:221-225 | the binding for (code, path) after a batch is the last entry for it, or the old binding |
| Records.AddEntries | pyblitz/generator/parser.py:221-225 | definition: one `addSchemaToResponseJson` per entry, in order; keeps every per-code dict valid; `AddEntriesAppend` and `AddEntriesBinding` state what it records |
| Records.AllEntries | pyblitz/generator/parser.py:227-230 | lists exactly the (code, path, reference) triples bound, each once, in the order of the two loops: status codes in insertion order, and the paths of one code in insertion order |
| Records.EntriesFromOrdered | pyblitz/generator/parser.py:228-230 | the entries from one status code on come in the order of the nested loops, none twice |
| Records.Method.AddSchemaToResponseJson | pyblitz/generator/parser.py:221-225 | the method's response map becomes `AddSchemaEntry` of the old one |
| Records.Method.AllSchemaInResponseJson | pyblitz/generator/parser.py:227-230 | yields exactly the recorded triples, each once, status codes and then paths in insertion order |
| Records.RecordedEntryListed | pyblitz/generator/parser.py:221-230 | a recorded triple is listed, and every other listed triple was listed before at another (code, path) |
| Records.RecordProp | pyblitz/generator/parser.py:90-99 | the schema exists afterwards; its description is the old one or, when new, the given one; the property is set by name; other schemas unchanged; a new name is appended to the order |
| Records.RecordPropsAppend | pyblitz/generator/parser.py:90-99 | recording two lists of properties in turn is recording their concatenation |
| Records.DescriptionIsFirstSeen | pyblitz/generator/parser.py:95-97 | a schema keeps the description of its first recorded property |
| Records.LastPropWins | pyblitz/generator/parser.py:256-258 | a property name holds the last property recorded under it |
| Records.RecordProps | pyblitz/generator/parser.py:90-99 | definition: one `_recordSchemaProperty` per record, in order; keeps every schema stored under its own name; `RecordPropsAppend`, `DescriptionIsFirstSeen` and `LastPropWins` state what it records |
| Records.Schema.AddProp | pyblitz/generator/parser.py:256-258 | the property dict gains or replaces the entry for the property's name |
| Records.Schema.GetPropFromName | pyblitz/generator/parser.py:260-264 | succeeds iff the property exists, giving the property stored under that name; KeyError otherwise |
| Records.Schema.HasProp | pyblitz/generator/parser.py:260-261 | definition: the name is a key of the property dict; `GetPropFromName` succeeds exactly when it holds |
| Records.Schema.Props | pyblitz/generator/parser.py:252-254 | the values of the property dict: one per name in insertion order, each the property stored under that name, and every stored property listed |
| EndpointTree.ClassNameOfBraced | pyblitz/generator/parser.py:150-155 | a `{name}` segment is named after `name`, camel-cased |
| EndpointTree.ClassNameOfPlain | pyblitz/generator/parser.py:150-155 | a plain segment without dashes is its own class name |
| EndpointTree.ClassNameOf | pyblitz/generator/parser.py:150-155 | definition: IndexError for the empty segment; otherwise the braces of a `{name}` segment are stripped and the rest camel-cased; `ClassNameOfBraced` and `ClassNameOfPlain` state its values |
| EndpointTree.IsVariable | pyblitz/generator/parser.py:152 | definition: the segment starts with `{`, the test `className` uses; it is the corrected reading of generate.py:204 |
| EndpointTree.PathOf | pyblitz/generator/parser.py:161-166 | definition: the parent's path, `/`, the segment, with an empty parent path for a root; `FollowRootPath`, `RecordMethodPath` and `CachePath` state its values |
| EndpointTree.NewEndpoint | pyblitz/generator/parser.py:126-140 | a new endpoint is placed after all others, fresh (no children, methods or caches) with that segment and parent; the roots are unchanged; `NewEndpointSpec` states the parent link |
| EndpointTree.NewEndpointSpec | pyblitz/generator/parser.py:126-140 | a new endpoint becomes the child of its parent under its name, with path `parent path + "/" + name`; every other child lookup and all methods are unchanged |
| EndpointTree.StepInto | pyblitz/generator/parser.py:74-83 | one segment of `_recordMethod`: the existing child is reused, else a fresh one is created; the tree only grows |
| EndpointTree.Enter | pyblitz/generator/parser.py:74-83 | the loop body as a method equals `StepInto` |
| EndpointTree.WalkPath | pyblitz/generator/parser.py:72-83 | the segment loop as a method equals `Walk` |
| EndpointTree.Walk | pyblitz/generator/parser.py:72-83 | the segment loop keeps the tree valid, only grows it, keeps every endpoint's methods, and ends at an endpoint when there is a segment |
| EndpointTree.WalkFollows | pyblitz/generator/parser.py:72-83 | after the walk, following the segments reaches the endpoint the walk returned |
| EndpointTree.WalkReuses | pyblitz/generator/parser.py:75-82 | walking an existing path creates nothing |
| EndpointTree.WalkCreatesLeaf | pyblitz/generator/parser.py:75-82 | walking a missing path ends at a newly created endpoint |
| EndpointTree.AddMethod | pyblitz/generator/parser.py:191-193 | only that endpoint's methods change, to `Put(verb, method)` |
| EndpointTree.PathSegmentsEmpty | pyblitz/generator/parser.py:69-71 | the segment list is empty iff the url is empty |
| EndpointTree.PathSegmentsJoin | pyblitz/generator/parser.py:69-71 | `"/"` + the segments joined by `"/"` is the url with a leading slash |
| EndpointTree.PathSegments | pyblitz/generator/parser.py:69-71 | no segment contains `/`; `PathSegmentsEmpty` and `PathSegmentsJoin` state its values |
| EndpointTree.FollowRootPath | pyblitz/generator/parser.py:161-166 | `getPath` of the endpoint reached by some segments is those segments, each after a slash |
| EndpointTree.RecordMethod | pyblitz/generator/parser.py:65-84 | AttributeError iff the url is empty (`None.addMethod`); otherwise the tree only grows |
| EndpointTree.RecordMethodReaches | pyblitz/generator/parser.py:65-84 | the url's endpoint exists afterwards and its methods are the old ones with this verb put |
| EndpointTree.RecordMethodPath | pyblitz/generator/parser.py:65-84 | the recorded endpoint's path is the url, with a leading slash added when missing |
| EndpointTree.RecordMethodKeepsOthers | pyblitz/generator/parser.py:65-84 | every endpoint reachable before stays reachable with the same methods; new intermediate endpoints hold no method; an existing path adds no endpoint |
| EndpointTree.RecordMethodRoot | pyblitz/generator/parser.py:74-78 | the first segment is a root endpoint afterwards |
| EndpointTree.RecordMethodHolds | pyblitz/generator/parser.py:65-84 | the method is held afterwards, and no other new method is |
| EndpointTree.RecordPath | pyblitz/generator/parser.py:65-84 | the method version equals `RecordMethod`, and holds the method |
| EndpointTree.MapRecordMethod | pyblitz/generator/parser.py:65-84 | recording commutes with viewing method objects as their data |
| EndpointTree.CacheClassName | pyblitz/generator/parser.py:150-155 | memoising the class name changes only that endpoint's cache |
| EndpointTree.CachePath | pyblitz/generator/parser.py:161-166 | memoising the path stores `PathOf` and the current parent, nothing else |
| EndpointTree.CachesOnlyKeeps | pyblitz/generator/parser.py:150-166 | changed caches leave structure, paths and methods as they were |
| EndpointTree.GetChildFromName | pyblitz/generator/parser.py:179-183 | succeeds iff `hasChild`, giving the child stored under that segment (which has that segment and this parent); KeyError otherwise |
| EndpointTree.HasChild | pyblitz/generator/parser.py:179-180 | definition: the segment is a key of the children dict; `GetChildFromName` succeeds exactly when it holds |
| EndpointTree.Children | pyblitz/generator/parser.py:170-172 | the values of the children dict: one per segment in insertion order, each the child stored under it; every child is listed once and points back to this endpoint |
| EndpointTree.GetMethodFromName | pyblitz/generator/parser.py:195-199 | succeeds iff `hasMethod`, giving the method stored under that verb; KeyError otherwise |
| EndpointTree.HasMethod | pyblitz/generator/parser.py:195-196 | definition: the verb is a key of the methods dict; `GetMethodFromName` succeeds exactly when it holds |
| EndpointTree.Roots | pyblitz/generator/parser.py:54-56 | the values of the root dict: one per first segment in insertion order, each the root stored under it; every root is listed once and has no parent |
| OpenApiParser.Parser.RecordServer | pyblitz/generator/parser.py:62-63 | the server list gains the server at its end; nothing else changes |
| OpenApiParser.Parser.RecordMethod | pyblitz/generator/parser.py:65-84 | fails with AttributeError iff the url is empty, leaving the tree; else the tree becomes `EndpointTree.RecordMethod` of the old one and the method is added to the held objects |
| OpenApiParser.Parser.RecordSchemaProperty | pyblitz/generator/parser.py:90-99 | the schema registry, read through the Schema objects, becomes `RecordProp` of the old one |
| OpenApiParser.Parser.RegisterSchema | pyblitz/generator/parser.py:95-97 | a fresh, empty Schema object is entered under the new name |
| OpenApiParser.Parser.AddPropTo | pyblitz/generator/parser.py:98-99 | the named schema's properties gain the property; the parser's own fields are unchanged |
| OpenApiParser.Parser.GetPath | pyblitz/generator/parser.py:161-166 | returns `PathOf` of the endpoint; only caches change |
| OpenApiParser.Parser.ClassName | pyblitz/generator/parser.py:150-155 | returns `ClassNameOf` of the endpoint's segment; only caches change |
| OpenApiParser.Parser.ParseServers | pyblitz/generator/parser.py:292-297 | fails as `ServersOf` fails; otherwise appends exactly `ServersOf(doc)` |
| OpenApiParser.Parser.ParseSchemas | pyblitz/generator/parser.py:299-302 | fails as `SchemasOf` fails; otherwise records exactly its property records, in order |
| OpenApiParser.Parser.ParseSchemaList | pyblitz/generator/parser.py:299-302 | the outer loop equals `SchemasFrom` |
| OpenApiParser.Parser.ParseSchema | pyblitz/generator/parser.py:300-302 | one schema's properties, as `SchemaRecords` |
| OpenApiParser.Parser.ParsePropList | pyblitz/generator/parser.py:300-302 | the inner loop equals `PropRecordsFrom` |
| OpenApiParser.Parser.ParseMethod | pyblitz/generator/parser.py:306-314 | fails as `MethodOf` fails; otherwise the tree view is the old one with that method recorded |
| OpenApiParser.Parser.ParsePath | pyblitz/generator/parser.py:305-314 | the verb loop of one path equals recording `PathRecords` |
| OpenApiParser.Parser.ParsePaths | pyblitz/generator/parser.py:304-314 | the path loop equals recording `PathsOf`; schemas are untouched |
| OpenApiParser.Parser.Parse | pyblitz/generator/parser.py:287-314 | fails as `ParseDoc` fails; otherwise servers, schema registry and endpoint tree are the old ones extended by what `ParseDoc` finds |
| OpenApiParser.Parser.Endpoints | pyblitz/generator/parser.py:54-56 | the values of the endpoint dict: every root endpoint once, in the order its segment was first recorded |
| OpenApiParser.Parser.Schema | pyblitz/generator/parser.py:58-60 | the values of the schema dict: every registered Schema object once, in insertion order, each under its own name |
| OpenApiParser.ScanResponses | pyblitz/generator/parser.py:311-314 | the response loop records exactly the entries of `ResponsesOf`, or fails as it fails |
| OpenApiParser.ScanResponseList | pyblitz/generator/parser.py:311-314 | the same loop, from a list of responses |
| OpenApiParser.ScanResponseAt | pyblitz/generator/parser.py:311-314 | one turn of that loop: response `i`'s layer is scanned; its exception ends the loop, or its entries join those already recorded |
| ParseSpec.ServerElems | pyblitz/generator/parser.py:292-293 | what `zip(serverList, …)` iterates: elements, keys or characters; TypeError for other values |
| ParseSpec.ServersFrom | pyblitz/generator/parser.py:293-297 | one server per element |
| ParseSpec.ServerOf | pyblitz/generator/parser.py:294-296 | definition: `description` (KeyError or TypeError when missing or not a dict), then `url`; a truthy description is the name, else `NO_NAME_FOUND_<idx + 1>`; `UnnamedServer` and `NamedServerOf` state its values |
| ParseSpec.ServersOf | pyblitz/generator/parser.py:292-297 | definition: `servers` of the document, what `zip` iterates over it, one server per element; `OpenApiParser.Parser.ParseServers` appends exactly these |
| ParseSpec.UnnamedServer | pyblitz/generator/parser.py:293-296 | a server whose description is falsy (`null`, `""`, `false`, `0`, an empty list or dict) is named `NO_NAME_FOUND_<idx + 1>`, with the description built from that name |
| ParseSpec.UnnamedServerOf | pyblitz/generator/parser.py:293-296 | any dict whose `description` is falsy gets the numbered name and the description built from it |
| ParseSpec.NamedServerOf | pyblitz/generator/parser.py:294-296 | a dict whose `description` is a non-empty string is named by it, with the description built from that name |
| ParseSpec.PropRecordsNamed | pyblitz/generator/parser.py:300-302 | one record per property, under the schema's name and the property's own name, in order |
| ParseSpec.SchemaWithoutPropertiesUnrecorded | pyblitz/generator/parser.py:299-302 | a schema whose properties are empty records nothing |
| ParseSpec.SchemasOf | pyblitz/generator/parser.py:299-302 | definition: for each schema of `components.schemas`, one record per property, in order; `PropRecordsNamed` states its shape |
| ParseSpec.GenEndpointDesc | pyblitz/generator/parser.py:365-368 | a description is some summary, a blank line, then some text |
| ParseSpec.EndpointDescOfStrings | pyblitz/generator/parser.py:365-368 | string summary and description give `summary + "\n\n" + description` |
| ParseSpec.MethodWith | pyblitz/generator/parser.py:308-314 | fails iff the url is empty or the response scan fails; otherwise a method with that verb, description and a valid response map |
| ParseSpec.MethodOf | pyblitz/generator/parser.py:306-314 | a parsed method carries its path's url (never empty) and its verb, with a valid response map |
| ParseSpec.CheckVersion | pyblitz/generator/parser.py:288-290 | passes iff the document is a dict whose `openapi` is `"3.1.0"` |
| ParseSpec.OtherVersionRefused | pyblitz/generator/parser.py:289-290 | any other version fails with AssertionError |
| ParseSpec.MissingVersionRefused | pyblitz/generator/parser.py:288-290 | a non-dict fails with AssertionError, a dict without `openapi` with KeyError |
| ParseSpec.ParseDoc | pyblitz/generator/parser.py:287-314 | definition: version check, then servers, schemas and paths, the first exception stopping the parse; `OpenApiParser.Parser.Parse` is proved to do exactly this |
| ParseSpec.PathsOf | pyblitz/generator/parser.py:304-314 | definition: for each path of `paths`, each verb other than `parameters` as a `MethodOf`, in order; `PathsNamed` and `VerbsNamed` state its shape |
| ParseSpec.RecordAll | pyblitz/generator/parser.py:304-314 | recording the parsed methods in turn keeps the tree valid; `RecordAllOk` and `RecordAllAppend` state when it fails and how it composes |
| ParseSpec.RecordAllOk | pyblitz/generator/parser.py:304-314 | recording parsed methods fails iff one of their urls is empty |
| ParseSpec.RecordAllAppend | pyblitz/generator/parser.py:304-314 | recording two lists in turn is recording their concatenation |
| ParseSpec.VerbsNamed | pyblitz/generator/parser.py:305-309 | every method read from a path is recorded under that path's url |
| ParseSpec.PathsNamed | pyblitz/generator/parser.py:304-309 | every method read from the paths has a non-empty url and is not `parameters` |
| ParseSpec.ParsedRecordable | pyblitz/generator/parser.py:304-314 | what a successful parse finds can all be recorded, and no `parameters` entry is a method |
| Scanner.WalkPointerAppend | pyblitz/generator/parser.py:321-323 | following a path in two parts equals following it whole |
| Scanner.MissingKeyFails | pyblitz/generator/parser.py:321-323 | a missing key on the way raises KeyError |
| Scanner.WalkPointer | pyblitz/generator/parser.py:321-323 | definition: one subscript per pointer segment, from the document root; `WalkPointerAppend` and `MissingKeyFails` state its values |
| Scanner.FollowPointer | pyblitz/generator/parser.py:319-323 | the pointer loop equals `WalkPointer` |
| Scanner.ResolveLayer | pyblitz/generator/parser.py:317-340 | a `$ref` layer is resolved through `ResolveRef`; any other layer is itself |
| Scanner.ResolveRef | pyblitz/generator/parser.py:318-338 | definition: the `$ref` branch: split at `/`, follow the pointer, then `properties` for `schemas`, the nested `get` chain for `responses` (None when absent), AssertionError for any other kind |
| Scanner.LayerEntries | pyblitz/generator/parser.py:316-349 | definition: the entries one layer records, or its exception; `ScanOpenApiObjectLayer` is proved to record exactly these |
| Scanner.ItemsEntries | pyblitz/generator/parser.py:342-349 | definition: the entries of each dict item or list element in order; `ScanItems` is proved to record exactly these |
| Scanner.ScanOpenApiObjectLayer | pyblitz/generator/parser.py:316-349 | records exactly `LayerEntries`, or fails as it fails |
| Scanner.ScanItems | pyblitz/generator/parser.py:342-349 | the item loop records exactly `ItemsEntries` |
| Scanner.ScanResponseData | pyblitz/generator/parser.py:351-363 | records exactly `DataEntries` |
| Scanner.DataEntries | pyblitz/generator/parser.py:351-363 | definition: a `schemas` `$ref` becomes one entry, anything else is scanned as a layer; fuel stands for the recursion limit; `DataEntriesUnder` and `SchemaRefRecorded` state its values |
| Scanner.RecordResponseSchema | pyblitz/generator/parser.py:86-88 | passes iff the status code parses as an int; the entry is then added to the method's response map; otherwise `int()`'s error, map unchanged |
| Scanner.RecordResponseSchemaAsWritten | pyblitz/generator/parser.py:86-88 | as written, it always fails: ValueError from `int()`, else AttributeError |
| Scanner.SchemaRefRecorded | pyblitz/generator/parser.py:353-359 | a `$ref` into `schemas` becomes exactly one entry: code, key path, last pointer segment |
| Scanner.ResponseRefWithoutContentSkipped | pyblitz/generator/parser.py:327-336 | a `$ref` to a response without `content` records nothing |
| Scanner.ResponseRefFollowed | pyblitz/generator/parser.py:327-334 | a `$ref` to a response continues at its JSON schema's `properties` |
| Scanner.OtherRefFails | pyblitz/generator/parser.py:337-338 | any other `$ref` kind raises AssertionError |
| Scanner.DataEntriesUnder | pyblitz/generator/parser.py:351-363 | every entry carries the parsed status code and a key path that extends the scanned one and ends in `$ref` |
| Scanner.ScannedEntriesListed | pyblitz/generator/parser.py:221-230 | every scanned entry ends up listed, against the last reference scanned for it |
| Generate.Spaces | pyblitz/generator/generate.py:168 | `_indentStr * n` is 4n spaces |
| Generate.IndentIsReplace | pyblitz/generator/generate.py:288-289 | indenting replaces every newline by a newline and the indent |
| Generate.IndentNoNewline | pyblitz/generator/generate.py:288-289 | one-line code is unchanged |
| Generate.IndentLength | pyblitz/generator/generate.py:288-289 | the text grows by 4n per newline |
| Generate.IndentAppend | pyblitz/generator/generate.py:288-289 | indenting distributes over concatenation |
| Generate.IndentTwice | pyblitz/generator/generate.py:288-289 | indenting by a then b is indenting by a + b |
| Generate.DedentIndent | pyblitz/generator/generate.py:288-289 | indentation can be undone, so it loses nothing |
| Generate.IndentJoin | pyblitz/generator/generate.py:288-289 | indenting joined lines indents each line and the separators |
| Generate.Indent | pyblitz/generator/generate.py:288-289 | definition: every newline followed by `n` levels of indentation; the lemmas above state its values |
| Generate.Ancestors | pyblitz/generator/generate.py:292-295 | the chain of parents from the root down to the endpoint's parent |
| Generate.ClassNamesSpec | pyblitz/generator/generate.py:297-306 | the ancestors' class names succeed iff each succeeds, one name per ancestor |
| Generate.AbsoluteParentRefStr | pyblitz/generator/generate.py:291-307 | the upward loop as a method equals `ParentRef` |
| Generate.ParentRefNames | pyblitz/generator/generate.py:291-307 | `"None"` for a root; with non-empty names, the ancestors' class names joined by dots, root first |
| Generate.ParentRefFails | pyblitz/generator/generate.py:297-306 | a failing class name on the way up is the reference's error |
| Generate.DottedCons | pyblitz/generator/generate.py:297-306 | a name goes in front with a dot, or stands alone while the text is still empty |
| Generate.ParentRef | pyblitz/generator/generate.py:291-307 | definition: the ancestors' class names, root first, joined by dots, `"None"` for a root; `AbsoluteParentRefStr` is proved to return it and `ParentRefNames`/`ParentRefFails` state its values |
| Generate.MethodCodeShape | pyblitz/generator/generate.py:212-223 | `get` and `delete` use the no-data template, other verbs the full one, each named by the upper-cased verb |
| Generate.MethodCode | pyblitz/generator/generate.py:214-222 | definition: the template the verb selects, formatted with the upper-cased verb and the description; `MethodCodeShape` states its shape |
| Generate.MethodsCodeConcat | pyblitz/generator/generate.py:212-223 | the methods' code is each method's code after a method separator, in order |
| Generate.GenEndpointsAppend | pyblitz/generator/generate.py:196-201 | no endpoints give `""`; one gives a class separator and its code; the code of a concatenation is the concatenation of the codes, and errors propagate |
| Generate.GenEndpoints | pyblitz/generator/generate.py:196-201 | definition: `_classSep` and the code of each endpoint, in order, the first failure raised; `GenEndpointsAppend` states how it composes |
| Generate.GenEndpointAndChildren | pyblitz/generator/generate.py:203-207 | definition, corrected: a variable segment (`IsVariable`) gives the variable class, any other the fixed one |
| Generate.GenFixedEndpointAndChildren | pyblitz/generator/generate.py:209-242 | definition: the fixed template with class name, parent reference, url, methods and children; from a variable endpoint the `_hardened` class; `FixedEndpointShape` and `HardenedShape` state its shape |
| Generate.GenVariableEndpointAndChildren | pyblitz/generator/generate.py:244-253 | definition: the variable template holding the hardened class two levels in; `VariableEndpointShape` and `VariableRootFails` state its shape and error |
| Generate.FixedEndpointShape | pyblitz/generator/generate.py:225-232 | a fixed endpoint is `class <className>(FixedEndpoint)` whose `url` returns its quoted path |
| Generate.HardenedShape | pyblitz/generator/generate.py:233-242 | the hardened class exists only below a parent; it is named `<className>_hardened` and its url is built from the parent's path |
| Generate.VariableEndpointShape | pyblitz/generator/generate.py:244-253 | a variable endpoint is `class <className>(VariableEndpoint)` holding its hardened class indented two levels |
| Generate.VariableRootFails | pyblitz/generator/generate.py:235 | a variable root endpoint raises AttributeError (`None.getPath`) |
| Generate.GenEndpointAndChildrenAsWritten | pyblitz/generator/generate.py:203-207 | as written, every endpoint raises AttributeError |
| Generate.IsVariableFinding | pyblitz/generator/generate.py:204 | on the tree with the single endpoint `/users`, the code as written fails, and the corrected code emits the fixed class |
| Generate.PropLinesIndex | pyblitz/generator/generate.py:282-286 | the property template gives two lines per property: the assignment, then the docstring |
| Generate.GenProp | pyblitz/generator/generate.py:282-286 | definition: the property template with the property's name and description; `PropLinesIndex` states its lines |
| Generate.PropDefsLines | pyblitz/generator/generate.py:263-267 | the `__init__` body holds two lines per property, each after the first indented two levels |
| Generate.NameSetIsKeys | pyblitz/generator/generate.py:269-272 | the set of property names is the key set of the property dict |
| Generate.SetReprNames | pyblitz/generator/generate.py:269-278 | the emitted `_propNames` is `set()` iff there are no names, and holds Python's `repr` of every name |
| Reprs.Repr | pyblitz/generator/generate.py:269-278 | `repr` of a name starts and ends with the quote it chooses: double quotes iff the name has a single quote and no double quote |
| Reprs.ReprRoundTrip | pyblitz/generator/generate.py:269-278 | reading the repr's text back as a string literal gives the name, so escaping loses nothing |
| Reprs.ReprPlain | pyblitz/generator/generate.py:269-278 | a name without quotes, backslashes or control characters is shown in single quotes unchanged |
| Reprs.ReprSwitchesQuotes | pyblitz/generator/generate.py:269-278 | a name with a single quote and no double quote, backslash or control character is shown in double quotes unchanged |
| Reprs.ReprBackslash | pyblitz/generator/generate.py:269-278 | a backslash in a name is doubled |
| Generate.GenSchemaModelShape | pyblitz/generator/generate.py:262-280 | the schema class is `class <name>(Schema)`, holds `_propNames = <set>` and `__init__` with the property definitions |
| Generate.GenSchemaModel | pyblitz/generator/generate.py:262-280 | definition: the schema template with name, description, the name set's text and the indented property definitions; `GenSchemaModelShape` and `PropNamesListed` state its shape |
| Generate.PropNamesListed | pyblitz/generator/generate.py:269-272 | `_propNames` is `set()` iff the schema has no properties, and holds the `repr` of each property's name |
| Generate.GenSchemaConcat | pyblitz/generator/generate.py:255-260 | the schema code is each model's class after a class separator, in order |
| Generate.GenSchema | pyblitz/generator/generate.py:255-260 | definition: `_classSep` and each model's class, in order; `GenSchemaConcat` states its shape |
| Generate.RegisterLinesIndex | pyblitz/generator/generate.py:181-185 | one `registerServer("<name>", "<url>")` line per server, in order |
| Generate.WriteServersLines | pyblitz/generator/generate.py:180-186 | the servers' text, split at newlines, is the register lines followed by the class separator's empty lines |
| Generate.WriteServers | pyblitz/generator/generate.py:180-186 | definition: the register lines joined by newlines, then `_classSep`; `RegisterLinesIndex` and `WriteServersLines` state its lines |
| SchemaRuntime.SchemaObject.constructor | pyblitz/generator/generate.py:141-142 | every property starts as `NoProp` |
| SchemaRuntime.AllNoProp | pyblitz/generator/generate.py:159-162 | the initial values: each property name maps to `NoProp` |
| SchemaRuntime.SerialDict | pyblitz/generator/generate.py:144-151 | `serialize` has exactly the properties that are not `NoProp`, with their values |
| SchemaRuntime.SchemaObject.Serialize | pyblitz/generator/generate.py:144-151 | definition: the properties whose value is not `NoProp`; `SerialDict` states its entries |
| SchemaRuntime.FreshSerializesEmpty | pyblitz/generator/generate.py:141-151 | a fresh instance serializes to `{}` |
| SchemaRuntime.NullIsSerialized | pyblitz/generator/generate.py:149 | a property set to `null` is serialized, unlike `NoProp` |
| SchemaRuntime.FirstUnknown | pyblitz/generator/generate.py:154-155 | the position of the first key that is not a declared property |
| SchemaRuntime.AssignLookup | pyblitz/generator/generate.py:153-156 | after loading distinct keys, each key holds its loaded value and any other property keeps its own |
| SchemaRuntime.SchemaObject.LoadJsonDict | pyblitz/generator/generate.py:153-156 | the loop equals `LoadSpec`; on failure the keys before the unknown one are loaded |
| SchemaRuntime.LoadSpec | pyblitz/generator/generate.py:153-156 | definition: AttributeError for a non-dict, AssertionError at the first undeclared key, else every entry assigned in order; `LoadJsonDict` is proved to do exactly this |
| SchemaRuntime.UnknownKeyFails | pyblitz/generator/generate.py:155 | an undeclared key fails the assert |
| SchemaRuntime.LoadSerializeRoundTrip | pyblitz/generator/generate.py:144-156 | loading a dict into a fresh instance succeeds iff every key is declared; `serialize` then gives back exactly that dict's entries |
| SchemaRuntime.SchemaObject.FromResponse | pyblitz/generator/generate.py:120-129 | a fresh instance loaded as `FromResponseSpec` says |
| SchemaRuntime.FromResponseCases | pyblitz/generator/generate.py:123-128 | a body of the form `{"data": x}` is unwrapped; other dicts are loaded whole; non-dicts raise AttributeError |
| SchemaRuntime.FromResponseSpec | pyblitz/generator/generate.py:120-128 | definition: `{"data": x}` unwrapped, then a fresh instance loaded; `FromResponse` is proved to do exactly this and `FromResponseCases` states its cases |
| Responses.Range | pyblitz/http/responses.py:83 | `range(start, stop, step)`: starts at start, moves by step and stays on the start side of stop; empty exactly when Python's is |
| Responses.RangeStrict | pyblitz/http/responses.py:83 | a range is strictly monotone, so it repeats no index |
| Responses.SliceIndices | pyblitz/http/responses.py:63 | list slicing fails with ValueError iff the step is 0; otherwise it picks valid positions |
| Responses.FullSlice | pyblitz/http/responses.py:63 | `slice(None)` picks every position in order |
| Responses.SlotOf | pyblitz/http/responses.py:60 | where a subscript reads: the dict entry, the list element or the slice's elements that its value comes from |
| Responses.PyGet | pyblitz/http/responses.py:16-17 | Python subscripting: dict lookup, negative indices from the end with IndexError out of range, TypeError on scalars |
| Responses.PyLen | pyblitz/http/responses.py:80 | `len` is defined, and non-negative, exactly on lists, dicts and strings |
| Responses.ReadStep | pyblitz/http/responses.py:60-61 | definition: `currJsonItem[itemKey]` as a cursor into the body; a list slice, which copies, is not modelled |
| Responses.FanItems | pyblitz/http/responses.py:64 | definition: what `for nextJsonItem in currJsonItem[itemKey]` visits: list elements, dict keys or characters, each with its cursor |
| Responses.WriteAt | pyblitz/http/responses.py:74-84 | definition: the value under the key replaced by `fromSerialized` of it; TypeError for a string or a slice |
| Responses.Final | pyblitz/http/responses.py:73-88 | definition: the last descriptor: `object` or an int index writes, a slice writes each index of its range, a str key under `array` raises KeyError, an unknown kind ValueError (as written: the loop's kind, or UnboundLocalError) |
| Responses.Walk | pyblitz/http/responses.py:58-70 | definition: the descriptor loop: `object` steps down, `array` fans out over the items, an unknown kind raises ValueError |
| Responses.FanOut | pyblitz/http/responses.py:64-68 | definition: the recursive call for each item in order (as written, a `None` item restarts at the root) |
| Responses.Replay | pyblitz/http/responses.py:26-88 | definition: IndexError for an empty path, else `Walk`; `ReplayShift`, `ObjectPathReplay` and `ReplayErrors` state its values |
| Responses.ApplyAll | pyblitz/http/responses.py:13-14 | definition: the corrected replay of each descriptor list in order, the first failure raised |
| Responses.Transformed | pyblitz/http/responses.py:11-14 | definition: `ApplyAll` over the lists registered for the status code, none when it has none; `OwnCodeOnly` states this |
| Responses.Response.constructor | pyblitz/http/responses.py:6-9 | stores the status and the body; the transformed body starts as a copy |
| Responses.Response.GetItem | pyblitz/http/responses.py:16-17 | `__getitem__` subscripts the transformed body |
| Responses.Response.Transform | pyblitz/http/responses.py:23-24 | applies the function to the untransformed body |
| Responses.Response.TransformSchema | pyblitz/http/responses.py:26-88 | fails as the corrected `Replay` fails; otherwise the transformed body becomes the corrected `Replay` of the old one (the as-written differences are under Left out) |
| Responses.Response.TransformLast | pyblitz/http/responses.py:73-88 | the last-descriptor branch as a method equals the corrected `Final` |
| Responses.NewResponse | pyblitz/http/responses.py:6-14 | the response exists iff `Transformed` (the corrected replay of each registered list) succeeds, and then holds its result |
| ResponseProperties.ReplayShift | pyblitz/http/responses.py:59-67 | replaying from a subtree is replaying that subtree alone and writing it back |
| ResponseProperties.FanOutElems | pyblitz/http/responses.py:61-67 | an `array` descriptor over a list replays the rest of the path on every element, in order |
| ResponseProperties.ArrayStep | pyblitz/http/responses.py:61-67 | an `array` step by key, index or `slice(None)` replaces that list by its elements' replays |
| ResponseProperties.FinalObjectStep | pyblitz/http/responses.py:74-75 | a last `object` descriptor inflates the value under the key; KeyError when it is missing |
| ResponseProperties.FinalIndexStep | pyblitz/http/responses.py:77-78 | a last int index inflates that element, counting negative indices from the end; IndexError out of range |
| ResponseProperties.WriteEachListOk | pyblitz/http/responses.py:83-84 | the slice loop succeeds iff every index is in Python's range for the list |
| ResponseProperties.WriteEachListInflates | pyblitz/http/responses.py:83-84 | over distinct in-range indices, the loop inflates exactly those elements |
| ResponseProperties.FinalSliceStep | pyblitz/http/responses.py:79-84 | a last slice fails iff step 0 (ValueError) or an index is out of range; with in-range indices it inflates exactly the selected elements |
| ResponseProperties.WalkObjects | pyblitz/http/responses.py:59-60 | `object` steps succeed iff their keys exist along the way |
| ResponseProperties.ObjectPathReplay | pyblitz/http/responses.py:55-75 | a path of `object` descriptors succeeds iff the keys exist; it inflates the value there and leaves every part of the body apart from that path as it was |
| ResponseProperties.ReplayErrors | pyblitz/http/responses.py:59-86 | an empty path raises IndexError; an unknown kind before the last raises ValueError; a last `array` step with a str key raises KeyError |
| ResponseProperties.FinalUnknownKind | pyblitz/http/responses.py:87-88 | corrected: a last descriptor of unknown kind raises ValueError naming that kind |
| ResponseProperties.FinalUnknownKindAsWritten | pyblitz/http/responses.py:87-88 | as written: the message names the next-to-last kind, and a one-descriptor path raises UnboundLocalError |
| ResponseProperties.OwnCodeOnly | pyblitz/http/responses.py:11-14 | only the lists registered for the response's own code apply; an unregistered code leaves the body as received |
| ResponseProperties.NullItemAsWritten | pyblitz/http/responses.py:55-63 | as written, a `null` list item sends the rest of the path to the body's root |
| ResponseProperties.NullItemCorrected | pyblitz/http/responses.py:55-63 | corrected, a `null` list item is subscripted like any value and raises TypeError |
| JsonPaths.GetSetSame | pyblitz/http/responses.py:75 | a write through a reference reads back |
| JsonPaths.GetSetApart | pyblitz/http/responses.py:75 | a write leaves the parts of the body apart from its path unchanged |
| JsonPaths.SetSetSame | pyblitz/http/responses.py:83-84 | of two writes at one place, the second wins |
| Json.Subscript | pyblitz/generator/parser.py:292 | `v[k]` succeeds iff `v` is a dict holding the key, giving its value; KeyError for a missing key, TypeError for a non-dict |
| Json.Get | pyblitz/generator/parser.py:330-334 | `v.get(k)` succeeds iff `v` is a dict, giving the lookup (None when absent); AttributeError otherwise |
| Json.GetOr | pyblitz/generator/parser.py:301-302 | `v.get(k, default)` succeeds iff `v` is a dict, giving the value or the default; AttributeError otherwise |
| Json.Truthy | pyblitz/generator/parser.py:294 | definition: Python truthiness: `null`, `false`, `0`, and empty strings, lists and dicts are falsy |
| Json.PyStr | pyblitz/generator/parser.py:368 | `str()` in an f-string is defined exactly on scalars, and a string is itself |
| Json.LookupDistinct | pyblitz/http/responses.py:8-9 | in a dict without repeated keys, as `json.loads` returns, looking up the key of an entry finds that entry |
| Json.UpdateDistinct | pyblitz/http/responses.py:75-84 | item assignment keeps a dict's keys distinct |
| Dicts.Dict.Put | pyblitz/generator/parser.py:256-258 | `d[k] = v`: the map gains or replaces the value; a new key is appended to the key order, an existing key keeps its place |

## Left out

- I/O is not modelled:
  - the generator's output file and the file writes;
  - `writeEndpoints` and `writeSchema`, which only add fixed text and a class separator around `_genEndpoints` and `_genSchema`;
  - the imports text;
  - the network, the request helpers and the throttler.
  pyblitz/generator/files.py, pyblitz/http/network.py, pyblitz/http/requests.py and pyblitz/http/throttler.py are not part of this model.
- `json.loads` and the `requests.Response` object are not modelled. A response is its status code and its decoded body, and the `assert type(response) is requests.Response` check is left out.
- Parsing JSON text is left out. The specification document and the response bodies are given as decoded `Json` values.
- `Parser.__new__` is left out, along with its check that subclasses call `__init__`. The abstract base classes are left out too: an ABC has nothing to model beyond its subclass.
- The package `__init__.py` files are left out. They only re-export.
- `schemaClass.fromSerialized` is a call into emitted code. It is modelled as the opaque value `Inflated(schemaClass, raw)`.
- The order of a Python `set`'s repr is not modelled. The generator takes the display order of `_propNames` as a parameter: any order of the names.
- The iteration order of `serialize`'s dict comprehension over that set is left out. The serialized dict is a map.
- Upper-casing handles ASCII letters only. Other characters are kept as they are.
- RecursionError is modelled through a `fuel` bound. The response scan and the descriptor replay have no bound in the source. In the model, `fuel` stands in for Python's recursion limit, and running out of it is RecursionError. The depth at which Python would really stop is left out.
- Some cases are `NotModelled` errors, because the model cannot follow references into them:
  - an `object` descriptor whose key is a slice of a list, which makes a copy that shares the list's elements;
  - a replay item that an earlier replay of the same loop has already replaced;
  - a server whose `description` or `url` is not a string;
  - the `str()` of a dict or list.
- Partial effects of a failed step are left out. When a scan, a parse or a load raises part-way, the model says which error is raised. It does not say what was recorded before the error, except in `SchemaRuntime.SchemaObject.LoadJsonDict`.
- Scanner.RecordResponseSchema: this models the evidently intended `method.addSchemaToResponseJson`, not the misspelt call. The rest of the model uses this version.
- Generate.GenEndpointAndChildren: `endpoint.isVariable` is not defined in the source. It is modelled as "the segment starts with `{`", the test `className` uses to strip braces.
- Responses.Response.TransformSchema: this runs the corrected replay (`Replay(false)`, whose last step is `Final(false)`). It differs from the code as written in two cases:
  - a `null` list item: as written, body `{"xs": [null], "v": 1}` with path `[('array', 'xs'), ('object', 'v')]` restarts at the root and inflates the root's `v`; the model raises TypeError for subscripting `None`;
  - an unknown kind in a one-descriptor path such as `[('map', 'k')]`: as written, the error message reads the unset loop variable and UnboundLocalError is raised; the model raises ValueError.
- Responses.Response.TransformLast: this runs the corrected `Final(false)`. For a one-descriptor path of unknown kind such as `[('map', 'k')]` it raises ValueError, where the code as written raises UnboundLocalError. A `null` item never reaches it, so the other difference does not apply.
- Responses.NewResponse: the constructor applies each registered path with the corrected replay (`Replay(false)`), so it differs from the code as written exactly as `Responses.Response.TransformSchema` does: TypeError instead of a restart at the root for a `null` list item, and ValueError instead of UnboundLocalError for `[('map', 'k')]`.
- Responses.SlotOf: it follows Python 3.11 and earlier, where a slice is not hashable, so subscripting a dict by a slice raises TypeError. From Python 3.12 a slice is hashable and the lookup raises KeyError instead.
- Json.JNum: numbers are integers only. JSON floats cannot be represented, and so their truthiness (`0.0` is falsy) and their `str()` are not modelled.
- Strs.ParseInt: Python's `int()` also accepts surrounding whitespace, `_` between digits and non-ASCII decimal digits. The model accepts only an optional sign followed by ASCII digits, and refuses the rest with ValueError.
- Reprs.Repr: only ASCII is modelled. Python writes a non-printable non-ASCII character as `\x..`, `\u....` or `\U........`; the model writes every non-ASCII character as itself.
- Generate.SetReprNames: the names are shown with `Reprs.Repr`, so a name with a non-printable non-ASCII character is shown as Python would not show it.
- ResponseProperties.NullItemAsWritten: the `null` item behaviour of the code as written is shown by this example only. The general properties are proved about the corrected replay.

## Findings

| source | as written | input that shows it | evidently intended | confidence | as-written member | corrected member |
|---|---|---|---|---|---|---|
| pyblitz/generator/parser.py:88 | `method._addSchemaToResponseJson(...)` is called, but `Method` defines only `addSchemaToResponseJson`, so AttributeError is raised | any response whose body has a `$ref` into `#/components/schemas/`, with a numeric status code | call `method.addSchemaToResponseJson(responseCodeInt, ...)` | not executed | Scanner.RecordResponseSchemaAsWritten | Scanner.RecordResponseSchema |
| pyblitz/generator/generate.py:204 | `endpoint.isVariable` is read, but `Parser.Endpoint` has no such attribute, so AttributeError is raised | a specification with the single path `/users` | a variable endpoint is one whose segment is `{...}` | not executed | Generate.GenEndpointAndChildrenAsWritten | Generate.GenEndpointAndChildren |
| pyblitz/http/responses.py:55-56 | `if startJsonItem is None` also holds for a `null` list item passed down by the `array` loop, so the rest of the path is replayed from the body's root | body `{"xs": [null], "v": 1}` with path `[('array', 'xs'), ('object', 'v')]` inflates the root's `v` | only the omitted argument means "start at the root" | not executed | ResponseProperties.NullItemAsWritten | ResponseProperties.NullItemCorrected |
| pyblitz/http/responses.py:88 | the error message formats `itemType`, the loop variable, instead of `lastItemType` | path `[('map', 'k')]`: the loop never ran, so UnboundLocalError is raised instead of ValueError | report `lastItemType` | not executed | ResponseProperties.FinalUnknownKindAsWritten | ResponseProperties.FinalUnknownKind |
