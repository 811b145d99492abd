# qs-core in Dafny

A model of `parse_query` from `src/index.js`, the query-string compiler of qs-core, with
proofs about it. `parse_query` takes the parsed key/value pairs of an HTTP query string
(`{'price>': '', 'name!': 'x|y', sort: 'price|-1', page_no: '2'}`) and returns an object
with two parts:

- `query`: for each field, a mapping from operator (`eq ne bt gt gte lte lt regex`) to its
  coerced value or values;
- `pagination`: `sort`, `page_no` and `page_size`.

Any further keys of the caller's `cfg` are copied into the result. Every rejected or
auto-corrected input leaves a diagnostic string in the caller's `messages` array.

The stages keep the source's structure, one module per stage:

| module | what it models |
|---|---|
| `JsValues`, `JsStrings` | The slice of JavaScript semantics the source relies on. Values are `undefined`, `null`, integers, `NaN`, strings, arrays and objects. It covers truthiness, `typeof`, `String()`, `Number()`, `isNaN`, `Math.max`/`Math.min`, `<=`, `trim`, `split`, `includes`, and property get/set on objects kept as ordered entry lists. |
| `Operators` | The operator table and the eight-slot per-field accumulator. |
| `Variables` | Schema lookups and `validate_name_op`. |
| `Tokenizer` | `get_name_value_op`: infix keys (`a<>b`, `a>b`, `a<b`) and suffix keys (`a!`, `a<`, `a>`, `a$`). |
| `Transform` | `default_transfn` and `transform_value`. |
| `Defaults` | `get_default_values`. |
| `Resolve` | `get_query_values`: dedupe and clearing of redundant bounds. |
| `Sort` | `parse_sort_array` and `get_sort_values`. |
| `Compose` | `get_matrix_query`, `get_query`, `get_pagination` and `convert_array_to_object`. |
| `Pipeline` | `build_matrix` and `parse_query` itself. |

Where the source updates state, the model does too:

- `name_values` and `matrix` are instances of the class `State.Fields`. Its methods reassign an
  ordered name list and a map to accumulators.
- `messages` is a `State.Log` that only grows.
- The loops of the source are `while` loops in methods. Each method is proved equal to a
  specification function, and the properties are proved about those functions.

## Model

| member | source | states |
|---|---|---|
| JsStrings.TrimFacts | src/index.js:57 | `trim` removes white space only at the two ends: its result is a slice `s[i..j]` with only white space before `i` and after `j`, and it neither starts nor ends with white space |
| JsStrings.TrimIdempotent | src/index.js:351 | trimming twice is trimming once |
| JsStrings.JoinSplit | src/index.js:344 | joining the pieces of `split(sep)` with `sep` gives back the original string |
| JsStrings.SplitSingle | src/index.js:55 | `split` gives exactly one piece iff the separator does not occur |
| JsStrings.SplitTwo | src/index.js:55-57 | with two pieces, the key is first piece + separator + second piece, and neither piece contains the separator |
| JsStrings.ParseIntToString | src/index.js:316-317 | `Number(String(n))` gives back `n` for every integer |
| JsValues.MathMax | src/index.js:373 | `Math.max` is NaN iff some argument is not a number; otherwise it is one of the arguments and bounds all of them from above |
| JsValues.MathMin | src/index.js:371 | `Math.min` is NaN iff some argument is not a number; otherwise it is one of the arguments and bounds all of them from below |
| JsValues.PropFirst | src/index.js:113 | a property read gives the value of the first entry with that key, and `undefined` when no entry has it |
| JsValues.SetPropGet | src/index.js:117 | after `obj[key] = v`, reading `key` gives `v` and every other key reads as before |
| JsValues.SetPropKeys | src/index.js:117 | assigning an existing key keeps the key order; a new key is appended last |
| Operators.Index | src/index.js:7 | `operators.indexOf(op)` is a position of `op` in the eight-entry operator table |
| Operators.OpNamed | src/index.js:190-191 | an operator name is recognised iff it is the name of some operator, and the right one |
| Operators.OpNamedName | src/index.js:190 | every operator's own name is recognised as that operator |
| Variables.TemplateLookup | src/index.js:15 | a template lookup succeeds iff the template has an entry for the name, and then gives the descriptor of the first such entry |
| Variables.EffectiveLookup | src/index.js:14-16 | a caller's `get_variables` is used as given; without it a template gives a lookup reading the template's entries; with neither there is no lookup |
| Variables.ValidateNameOp | src/index.js:78-108 | Each rejection case gives its own message: the empty name, a name the schema does not know, a read-only name, and `pagination key takes = operator only` for a non-`eq` operator on a page key the schema knows. Without a schema every non-empty name is accepted as `{}`. An unknown page key gets the built-in descriptor. Any writable schema entry under an allowed operator is accepted as itself. |
| State.Put | src/index.js:359 | storing an accumulator under a name sets that name alone, and appends the name only if it is new |
| State.Fields.Set | src/index.js:195 | the table after the assignment is the table before it with that one name stored |
| State.Log.Push | src/index.js:80 | a message is appended and earlier messages are kept |
| Tokenizer.InfixOp | src/index.js:45-54 | the infix operator read from a key is one of `bt`, `gt`, `lt` |
| Tokenizer.SuffixForm | src/index.js:59-75 | With a truthy value, the key is the name plus the operator's suffix character, and `eq` is chosen iff the key ends in none of `! < > $`. The value is kept, except that `'null'` becomes `null`. |
| Tokenizer.InfixOperator | src/index.js:43-54 | With a falsy value, `<>` gives `bt`. Otherwise `>` gives `gt`, and `eq` is chosen iff the key contains neither `<` nor `>`. |
| Tokenizer.InfixSplit | src/index.js:55-58 | The name differs from the key iff the split produced exactly two pieces. The key is then name + marker + rest, the value is the trimmed rest, and neither part contains the marker. |
| Tokenizer.InfixRoundTrip | src/index.js:40-76 | tokenizing `name + marker + text` with a falsy value gives back the name, the operator and the trimmed text |
| Tokenizer.SuffixRoundTrip | src/index.js:59-75 | tokenizing `name + suffix` with a truthy value gives back the name, the operator and the value |
| Transform.DefaultCoerceIdempotent | src/index.js:315-323 | applying `default_transfn` twice is applying it once |
| Transform.CoerceEmpty | src/index.js:355-357 | coercion yields no values iff the input is the empty array |
| Transform.CoercePlainArray | src/index.js:330-342 | an array without `|` in its strings is coerced element by element |
| Transform.PipeCount | src/index.js:343-348 | a non-regex string gives one value per `|`-separated piece |
| Transform.PipeInArrayAgrees | src/index.js:330-348 | a one-string array and the bare string coerce to the same values |
| Transform.DefaultCoerceFixed | src/index.js:315-354 | every value coerced with `default_transfn` is a fixed point of it |
| Transform.ApplyAllTrimmedDefault | src/index.js:335-348 | for `default_transfn`, trimming the pieces first changes nothing |
| Transform.FalsyBoundReplaced | src/index.js:366-368 | a bound slot holding a falsy value (0, '', `null`, NaN) is treated as empty, so a single new value replaces it |
| Transform.ListCollectsAll | src/index.js:383-388 | repeated list values are all collected, in order |
| Transform.RunningMax | src/index.js:366-381 | over any number of batches of non-zero numbers, `gt`/`gte` keeps their maximum |
| Transform.RunningMin | src/index.js:366-381 | over any number of batches of non-zero numbers, `lt`/`lte` keeps their minimum |
| Transform.MaxFirst | src/index.js:367-375 | the first batch into an empty `gt`/`gte` slot leaves its maximum |
| Transform.MinFirst | src/index.js:367-375 | the first batch into an empty `lt`/`lte` slot leaves its minimum |
| Transform.AddValues | src/index.js:358-389 | adding values changes only the given field's slot for the given operator, and records a new field name last |
| Transform.CoercePieces | src/index.js:335-338 | the loop coerces each `|` piece in order |
| Transform.CoerceArray | src/index.js:330-342 | the loop coerces each array element, splitting strings at `|` |
| Transform.CoerceValue | src/index.js:330-354 | the three-way coercion of an array, a piped string or a single value |
| Transform.TransformValue | src/index.js:325-391 | the result is `false` iff the value is the empty array, and the table gains exactly the coerced values |
| Defaults.DefaultOpOf | src/index.js:182-185 | the default operator is `default_op` when truthy, and always truthy |
| Defaults.StoredDefault | src/index.js:196-229 | bound operators store a scalar, list operators a list; refusal only for an object-typed default under a list operator |
| Defaults.DefaultValuesFrame | src/index.js:181-232 | A call leaves other fields alone and writes at most one message. A failure writes exactly one. A page key is written only under `eq`. |
| Defaults.DefaultReplaces | src/index.js:195-230 | a stored default replaces the field with a fresh accumulator: the default operator's slot holds the stored default, every other slot is unset, and the messages are the stored default's |
| Defaults.RefusedShapeWipes | src/index.js:204-224 | an object inside a list default, or an object default outside `sort`, leaves the field fresh and empty, with the matching message |
| Defaults.RefusedOpKeeps | src/index.js:186-194 | a non-`eq` operator on a page key, or an unknown operator, fails and leaves the table untouched |
| Defaults.ListDefaultKept | src/index.js:204-214 | a list default of non-objects is stored as given, with no message |
| Defaults.ScalarDefaultFirst | src/index.js:196-199 | an array default under a bound operator stores its first element, with the `default[0]` message |
| Defaults.SortObjectFlattened | src/index.js:216-220 | an object default for `sort` is stored as its flattened key/value list |
| Defaults.StoreDefault | src/index.js:196-229 | the method computes the stored slot and messages of the specification |
| Defaults.StoreInto | src/index.js:195-231 | the method updates the table and log as the specification says |
| Defaults.GetDefaultValues | src/index.js:181-232 | the method's table, log and result are those of the specification |
| Resolve.DedupeSpec | src/index.js:237-241 | `[...new Set(xs)]` has no duplicates and the same members as `xs` |
| Resolve.DedupeFirstOccurrences | src/index.js:237-238 | `[...new Set(xs)]` keeps exactly the first occurrence of each item, in the order of those first occurrences |
| Resolve.DedupeShrinks | src/index.js:237-241 | deduplication shortens the list iff it had a duplicate |
| Resolve.DedupeDistinct | src/index.js:237-241 | a list without duplicates is kept as it is |
| Resolve.DedupeIdempotent | src/index.js:237-241 | deduplicating twice is deduplicating once |
| Resolve.ResolvedSteps | src/index.js:235-253 | Resolution dedupes `eq`/`ne`. It nulls `gt` when `gt <= gte`, nulls `lt` when `lte <= lt`, and leaves the other slots unchanged. |
| Resolve.ResolvedMessages | src/index.js:239-251 | one message per deduped list and per cleared bound, in the source's order |
| Resolve.ResolvedSlots | src/index.js:235-253 | resolved `eq`/`ne` lists are duplicate-free with the same members; cleared bounds become `null` |
| Resolve.NoRedundantBounds | src/index.js:243-252 | after resolution neither bound pair still overlaps |
| Resolve.BoundClearedWhenOverlapping | src/index.js:244-252 | a bound is cleared iff its pair overlapped |
| Resolve.AlwaysHasValue | src/index.js:254-265 | a resolved field always has a non-null slot, so it always reaches the matrix |
| Resolve.DedupeStep | src/index.js:236-242 | the method dedupes one list slot as the specification says |
| Resolve.ClearStep | src/index.js:243-252 | the method clears one redundant bound as the specification says |
| Resolve.ResolveTurn | src/index.js:235-253 | one loop turn is one specification step |
| Resolve.ResolveField | src/index.js:235-253 | the loop computes the resolved accumulator and messages |
| Resolve.FindValue | src/index.js:254-260 | the search answers whether a non-null slot exists |
| Resolve.GetQueryValues | src/index.js:234-266 | the resolved accumulator is written to both tables, with its messages |
| Sort.PermissivePairs | src/index.js:268-304 | Without a schema and name transform, the result alternates field and direction. Its fields are exactly the non-numeric tokens, in order. |
| Sort.PermissiveSortSpec | src/index.js:268-304 | Without a schema and name transform, the result is every field in order, each followed by the first 1 or -1 written after it and before the next field, else by 1. Every other number gives one `skipped, unexpected` message, in order. |
| Sort.ParsedDirected | src/index.js:268-304 | every non-direction entry of the result (a field) is immediately followed by a direction, 1 or -1 |
| Sort.StrictOnlyKnown | src/index.js:287-294 | with a schema and transform, every field in the result is one the schema knows |
| Sort.StrictRefusedField | src/index.js:284-294 | in strict mode a field the schema does not know settles a pending direction with 1, adds nothing else, keeps the parser expecting a direction if it was, and logs `skipped, sort by field not allowed` |
| Sort.StrictRefusedFieldKeepsDirection | src/index.js:284-294 | an example of the above: the sort values `a`, `b`, `-1` with only `a` known parse as `a, 1, -1` |
| Sort.NaNWord | src/index.js:272 | a one-character non-numeric word is NaN, so it is read as a field |
| Sort.SortAccumulator | src/index.js:309 | the sort row is a well-shaped accumulator |
| Sort.ParseSortArray | src/index.js:268-304 | the loop produces the specification's result and messages |
| Sort.GetSortValues | src/index.js:306-313 | a non-empty parse is stored as the sort row; an empty one leaves the matrix alone and logs "no value for sort" |
| Compose.OperatorObjectProp | src/index.js:114-119 | a field's row holds exactly its truthy slots under their operator names |
| Compose.MatrixQueryProp | src/index.js:110-125 | the matrix query has a row exactly for each field with some truthy slot, and every row is non-empty |
| Compose.GetQueryProp | src/index.js:127-136 | the query is the matrix query without the pagination keys, and nothing else changed |
| Compose.RoundTrip | src/index.js:436-442 | converting the flattened entries of an object with distinct keys gives the object back |
| Compose.SortObject | src/index.js:436-442 | converting a directed sort list maps every field to a direction and nothing else |
| Compose.ConvertUntouched | src/index.js:436-442 | a key that no pair sets keeps the value it had |
| Compose.ConvertLastPair | src/index.js:436-442 | later pairs win: a key reads the partner of the last pair that sets it |
| Compose.PermissiveSortEntry | src/index.js:436-442 | converting the permissive sort list maps the last field of each name to the direction that follows it |
| Compose.ConvertWithoutLength | src/index.js:436-442 | a value without `length` converts to the empty object |
| Compose.PaginationProp | src/index.js:393-434 | each pagination key holds what its entry rule gives, and no other key is set |
| Compose.PageKeyFallback | src/index.js:417-422 | with some page key present, a missing one takes `cfg`'s value or the default 1 |
| Compose.PageKeyLast | src/index.js:428-431 | a page key with `eq` values takes the last one |
| Compose.NoPageKeyNoPage | src/index.js:406-423 | without any page key, neither `page_no` nor `page_size` is set |
| Compose.SortPagination | src/index.js:412-427 | `sort` comes from the request's `eq` list, else from `cfg.sort`, else is absent |
| Compose.GetPagination | src/index.js:393-434 | the loop computes the specification's pagination object |
| Pipeline.CollectedFromAccepted | src/index.js:21-28 | every collected field comes from a query key whose transformed name was accepted; at most one message per key |
| Pipeline.CollectQuery | src/index.js:21-28 | the query loop builds the table and log of the specification |
| Pipeline.DefaultsKeepPresent | src/index.js:141-143 | a field the query supplied is never touched by template defaults |
| Pipeline.UndefaultedStaysAbsent | src/index.js:144-155 | an absent field with no template default, or a page key held by `cfg`, stays absent |
| Pipeline.DefaultApplied | src/index.js:144-159 | an absent field with a template default and no `cfg` override goes through `get_default_values` |
| Pipeline.AddTemplateDefaults | src/index.js:139-160 | the template loop adds exactly the defaults of the specification, with their messages |
| Pipeline.MatrixFoldEntry | src/index.js:161-168 | every field ends in the matrix as its resolved accumulator, or as its parsed sort row (absent if the parse was empty) |
| Pipeline.BuiltMatrixEntry | src/index.js:138-170 | a field absent after defaults is absent from the matrix; every other field is there as resolved or sort-parsed |
| Pipeline.FillField | src/index.js:163-167 | one matrix step dispatches to the sort parser or to resolution, as specified |
| Pipeline.FillMatrix | src/index.js:161-169 | the matrix loop computes the specified matrix and messages |
| Pipeline.BuildMatrix | src/index.js:138-170 | `build_matrix` computes the specified tables and messages |
| Pipeline.SpreadProp | src/index.js:32 | spreading `cfg` lets its keys override and keeps every other key |
| Pipeline.AssembleProp | src/index.js:32-36 | The result holds the pagination object under `pagination`. Each `cfg` key keeps its value. `query` holds the filtered matrix query unless `cfg` has its own. |
| Pipeline.QueryOfMatrix | src/index.js:30-31 | the query holds a field's operator row iff the field is in the matrix, not a pagination key, and has a truthy slot |
| Pipeline.SortRowPagination | src/index.js:309 | a stored sort row reappears in the pagination as its converted object |
| Pipeline.PermissiveSortPagination | src/index.js:268-309 | Without a schema, the pagination's sort object is the pairing of the permissive sort list. It holds nothing but directions and maps each requested field to one. The last field of each name gets the first 1 or -1 written after it (before the next field), else 1. |
| Pipeline.PairedObject | src/index.js:436-442 | converting a paired list maps each field to a direction |
| Pipeline.ParsedQueryField | src/index.js:12-38 | `result.query` is the filtered matrix query, with no pagination key in it; each field holding a truthy slot appears with its resolved operator row |
| Pipeline.AlwaysPaginated | src/index.js:33-36 | every result carries the pagination object |
| Pipeline.ParseQuery | src/index.js:12-38 | `parse_query` returns the specified result and appends the specified messages |

## Left out

- Numbers are integers. `Number()` reads optionally signed decimal integers, with the empty or blank string and `null` as 0. It does not read fractions, exponents, hex or `Infinity`, which all give `NaN` in the model; `-0` reads as 0, since the model has no negative zero. Booleans are not values of the model. Strings are sequences of characters, not UTF-16 code units.
- Object identity is not modelled. The source's `matrix[name]` shares the array held in `name_values`; the model stores equal values in both tables.
- `new Set` deduplication follows SameValueZero on primitives, with `NaN` equal to itself. Every array or object item is taken to be a distinct allocation, so the same reference listed twice is not merged as it would be in JavaScript.
- Compose.ConvertArrayToObject: only arrays and strings have a `length`. An array-like object with its own `length` property converts to `{}`.
- Objects are ordered entry lists. The special `__proto__` key and the integer-first key order of `for...in` are not modelled. Keys keep insertion order.
- Inherited properties are not modelled: a read finds only an object's own entries. In JavaScript `name_values[name]` (line 141), `variables_template[x]` (line 15) and `opts.cfg[name]` (lines 148 and 414) also find `Object.prototype` members, so a field named `constructor` or `toString` reads as a function there and as `undefined` in the model.
- Template entries are all descriptor records. A JavaScript template may hold other values: a `null` entry with a `default` check throws a TypeError at line 145, and a primitive entry such as `0` is falsy and so reads as an unknown name at lines 88-89. The model does not represent such entries.
- Pipeline.WithDefaults: the template is a list of (name, descriptor) pairs whose names are assumed distinct, as the keys of a JavaScript object are. A repeated name is visited once per entry; the second visit is skipped when the first stored values.
- Pipeline.SpreadProp and Pipeline.AssembleProp require distinct `cfg` keys, as every JavaScript object has.
- Pipeline.ParsedQueryField also requires that `cfg` has no `query` key; with one, `cfg.query` replaces the query, as Pipeline.AssembleProp states.
- `messages` is always an array, modelled as `State.Log`. An absent `cfg` is passed as the empty object.
- A custom `transfn`, `get_variables` and `transform_name` are Dafny function values. The `cfg` argument the source passes them is taken as captured by the function.
- Transform.RunningMax, Transform.RunningMin, Transform.MaxFirst and Transform.MinFirst: these lemmas are stated only for values that are non-zero numbers. A zero makes the slot falsy, and the next value then replaces the bound rather than being compared with it; Transform.FalsyBoundReplaced states that case.
- The `sort_default` flag and "pagination only when some pagination input exists" are not modelled. The code never sets `sort_default`. `has_sort_key` is always set, so `get_pagination` never returns `null` and `result.pagination` is always attached. The model follows the code (Pipeline.AlwaysPaginated).
- The "skipped, due no value for" message of `get_query_values` cannot occur: a resolved slot is never `null` in every position. The method marks that branch unreachable, and Resolve.AlwaysHasValue proves why.
- `page_no_default` (line 9) is declared but never used by the source; a missing page key falls back to `page_size_default` for both keys, as modelled.
