# TypeScript declarations from the indoor-map model structs

The indoor-map REST API keeps its data model in package `model`: maps, buildings, floors, rooms, their indents and sensors, and the navigation graph of map nodes and edges. The package also contains a small code generator, `ToTsx`. It walks a fixed list of these structs and prints one TypeScript `export type` declaration for each, so that a web client can share the model's shape.

The generator works in three steps:

- **Extracting a struct.** `extractStruct` reads a struct's fields in declaration order and drops those tagged `json:"-"`. Each remaining field becomes a `"name,type"` record. The name is the json tag when there is one, otherwise the Go identifier. The type is the text Go prints for the field's type.
- **Generating a declaration.** `generateTsxType` splits each record on `,` and translates the type with `convertGoTypeToTsxType`. The block it builds has a header line, one `\tname: type` line per record, and a closing brace.
- **Translating a type.**
  - A qualified type, one containing a dot, has its slice markers replaced by a single trailing `[]`. Each lower-case package qualifier is then deleted: `[]model.Building` becomes `Building[]` and `gorm.DeletedAt` becomes `DeletedAt`.
  - Any other type loses its `*`s and must be `int`, `float64`, `string` or `bool`. Anything else panics.

`ToTsx` prints each block followed by a blank line. A panic ends the run.

The Dafny model has one module per step:

- `GoStd`: the Go library behaviour the code relies on.
  - `strings.Contains`, `strings.ReplaceAll` and `strings.Split`.
  - The regular-expression deletion of `[a-z]*\.`, written as the left-to-right scan `DeleteQualifiers` and proved equal to a per-character reference `KeptChars` (`GoStd.DeleteQualifiersIsKeptChars`).
  - The two panics (an unknown primitive type, and a record without a comma).
- `Reflect`: what reflection supplies. A field type is a `GoType` value, and `TypeString` is the text `reflect.Type.String()` prints for it. A struct is its name plus its fields, each with its json tag.
- `Translator`: `convertGoTypeToTsxType` as a function on strings. Its structural reference is `TranslateTyped` on `GoType`, and the two agree on every well-formed type.
- `Extractor`: `extractStruct` as a method with a loop, specified by the function `Kept`/`Records`.
- `Emitter`: `generateTsxType` as a method with a string accumulator, specified by `Declaration`. A panic is an `Err` result.
- `Driver`: `ToTsx`'s loop over an arbitrary list of structs, as the method `Run`, specified by `RunSpec`. Its lemmas cover the output and the first panic.
- `Models`: the thirteen struct tables of `pkg/model/datatypes.go` and the allow-list.
- `Generator`: `ToTsx` itself. It is proved to print every allow-listed struct without a panic, with concrete facts about particular structs.

Three behaviours of the code that are easy to misread, which the model follows:

- The `*` of a pointer is kept inside a qualified slice type: `[]*model.PairPoint2f` becomes `*PairPoint2f[]`.
- `Floor.Sensors`' tag `json:"sensors"gorm:"..."` has no space before `gorm`. Go's tag lookup still finds `json:"sensors"`, so the emitted name is `sensors`.
- `Auth0User` has no json tags at all. Were it generated, every field would keep its Go name.

## Model

| member | source | states |
|---|---|---|
| Translator.ConvertGoTypeToTsxType | pkg/model/datatypes.go:184-204 | A type containing a dot always translates, to a name without any dot. An unqualified type that translates becomes one of `number`, `string`, `boolean`. A failure happens only for an unqualified type, and its panic carries the type with every `*` removed. |
| Translator.PrimitiveTsType | pkg/model/datatypes.go:195-203 | The switch: `int` and `float64` give `number`, `string` gives `string`, `bool` gives `boolean`, and any other type panics naming that type. |
| Translator.UnqualifiedTranslation | pkg/model/datatypes.go:193-203 | For a type without a dot, each direction of the table holds once the `*`s are removed: `number` exactly for `int`/`float64`, `string` exactly for `string`, `boolean` exactly for `bool`, and a panic exactly for every other bare type. |
| Translator.PointerIgnored | pkg/model/datatypes.go:193 | For an unqualified type, `*T` translates exactly as `T` does. |
| Translator.ConvertMatchesTyped | pkg/model/datatypes.go:184-204 | On every well-formed Go type, the string algorithm applied to the printed type equals the structural translation. The structural translation: a package type keeps its pointer stars and name, plus one `[]` if any slice is present. A predeclared type under a slice panics. Otherwise the primitive table decides. |
| Translator.QualifiedTranslation | pkg/model/datatypes.go:185-191 | `pkg.Name` translates to `Name` (e.g. `model.Point2f`, `gorm.DeletedAt`). |
| Translator.SliceTranslation | pkg/model/datatypes.go:187-191 | `[]pkg.Name` translates to `Name[]` (e.g. `[]model.Building`). |
| Translator.SliceOfPointerTranslation | pkg/model/datatypes.go:185-191 | `[]*pkg.Name` translates to `*Name[]`: the qualified branch does not strip `*`. |
| Translator.SliceOfBasicFails | pkg/model/datatypes.go:193-203 | `[]name` for a predeclared name panics with `[]name`: a slice of a primitive has no translation. |
| Translator.DigitPackageKeepsHead | pkg/model/datatypes.go:186-191 | A package name with a digit keeps its head: `v2.Foo` translates to `v2Foo`, since the deletion takes only the lower-case run directly before the dot. |
| Translator.UnderscorePackageKeepsHead | pkg/model/datatypes.go:186-191 | A package name with an underscore keeps what precedes its last lower-case run: `my_pkg.T` translates to `my_T`. |
| GoStd.Contains | pkg/model/datatypes.go:185-187 | `strings.Contains(s, sub)` holds exactly when `sub` occurs at some position of `s`. |
| GoStd.ReplaceAll | pkg/model/datatypes.go:188-193 | `strings.ReplaceAll`: each occurrence of the pattern, found left to right without overlap, is replaced. What it does to `"*"` and to the brackets of a printed type is stated by `GoStd.RemoveCharSpec` and `Translator.BracketsRemoved`. |
| GoStd.DeleteQualifiers | pkg/model/datatypes.go:186-191 | `re.ReplaceAllString(t, "")` for `[a-z]*\.`, as a left-to-right scan. Which characters it deletes is stated by `GoStd.DeleteQualifiersIsKeptChars`. |
| GoStd.DeleteQualifiersIsKeptChars | pkg/model/datatypes.go:186-191 | The left-to-right regex scan deletes exactly the characters that are a dot, or a lower-case letter whose run of lower-case letters ends at a dot. |
| GoStd.DeleteQualifiersNoDot | pkg/model/datatypes.go:191 | No dot survives the deletion. |
| GoStd.DeleteQualifiersNoMatch | pkg/model/datatypes.go:191 | A string without a dot is unchanged by the deletion. |
| GoStd.DeleteQualifiersQualifier | pkg/model/datatypes.go:186-191 | A lower-case package name followed by a dot is deleted along with the dot. |
| GoStd.ReplaceAllAbsent | pkg/model/datatypes.go:188 | Replacing a pattern whose first character does not occur leaves the string unchanged. |
| GoStd.RemoveCharSpec | pkg/model/datatypes.go:193 | Removing every `*` is dropping exactly the `*`s: the result is the input with each `*` left out, so no `*` remains and every other character stays, in order and as often as it occurred. |
| GoStd.Split | pkg/model/datatypes.go:154 | `strings.Split(s, sep)` returns at least one piece, and no piece holds the separator. |
| GoStd.JoinSplit | pkg/model/datatypes.go:154 | `strings.Split` loses nothing: joining its pieces with the separator restores the string. |
| GoStd.SplitPair | pkg/model/datatypes.go:154 | `a + "," + b` splits into exactly `[a, b]` when neither holds a comma. |
| Reflect.TypeString | pkg/model/datatypes.go:179 | The text `%v` prints for a field type: the basic name, `pkg.Name`, `*` before the element, or `[]` before the element. |
| Reflect.TypeStringPlain | pkg/model/datatypes.go:179 | The printed form of a well-formed type has no comma and no line break. |
| Extractor.Skipped | pkg/model/datatypes.go:174 | A field is skipped exactly when its json tag is `-`. |
| Extractor.EmittedName | pkg/model/datatypes.go:170-177 | A field is emitted under its json tag when the tag is non-empty, and under its Go name otherwise. |
| Extractor.Record | pkg/model/datatypes.go:179 | A field's record is its emitted name, a comma, and its printed type. |
| Extractor.ExtractStruct | pkg/model/datatypes.go:162-182 | The method returns the struct's name and exactly one record per field not tagged `json:"-"`, in order. The record count is the field count minus the skipped fields. |
| Extractor.KeptCount | pkg/model/datatypes.go:169-180 | The number of emitted fields is the number of declared fields minus those tagged `json:"-"`. |
| Extractor.KeptExactly | pkg/model/datatypes.go:174-175 | A field is emitted if and only if it is declared and not tagged `json:"-"`. |
| Extractor.KeptAll | pkg/model/datatypes.go:169-180 | A struct without `json:"-"` fields emits all its fields, in order. |
| Extractor.KeptPrefix | pkg/model/datatypes.go:169-180 | What a prefix of the fields emits is a prefix of what the whole struct emits. |
| Extractor.KeptOrder | pkg/model/datatypes.go:169-180 | A non-skipped field at declaration position j is emitted at the position equal to the number of fields emitted before it. |
| Extractor.SkippedFieldIgnored | pkg/model/datatypes.go:174-175 | Inserting a `json:"-"` field anywhere, whatever its type, changes nothing that is emitted. |
| Extractor.RecordRoundTrip | pkg/model/datatypes.go:154-155 | A record splits back on `,` into the emitted name and the printed type, when neither holds a comma. |
| Emitter.Header | pkg/model/datatypes.go:151 | The first line of a block: `export type `, the struct name, ` = {` and a line break. |
| Emitter.FieldLine | pkg/model/datatypes.go:156 | A field's line: a tab, its name, `: `, its TypeScript type and a line break. |
| Emitter.Render | pkg/model/datatypes.go:151-158 | A whole block: the header, the field lines in order, and `}` without a line break. |
| Emitter.ParseRecord | pkg/model/datatypes.go:154-156 | A record is split on `,`. With fewer than two pieces it panics (index out of range); otherwise it is the first piece with the translation of the second, or that translation's panic. |
| Emitter.GenerateTsxType | pkg/model/datatypes.go:150-160 | The method's result is the declaration of the records: the rendered block, or the panic of the first record that fails. |
| Emitter.TranslateRecordsSpec | pkg/model/datatypes.go:153-157 | The records translate if and only if each one does, and then there is one field per record, each that record's own translation, in order. |
| Emitter.FirstFailure | pkg/model/datatypes.go:153-157 | The panic reported is that of the first record that fails. |
| Emitter.FailureIsFinal | pkg/model/datatypes.go:153-157 | Once a prefix of the records has panicked, later records change nothing. |
| Emitter.RenderLines | pkg/model/datatypes.go:150-159 | A block whose names and types hold no line break consists of exactly these lines: the header line, then one `\tname: type` line per field in order, then `}`. |
| Driver.DeclarationOf | pkg/model/datatypes.go:143-144 | One struct's outcome: its records, as extracted, passed to the declaration generator; either the block or the panic. |
| Driver.Printed | pkg/model/datatypes.go:145 | The output of `fmt.Printf("%v\n\n", block)` over the blocks: each block followed by a blank line, in order. |
| Driver.Run | pkg/model/datatypes.go:142-146 | The loop's printed output and its panic are those of `RunSpec` on the list. |
| Driver.RunCompletes | pkg/model/datatypes.go:142-146 | A run ends without a panic if and only if every struct's declaration succeeds. It then prints every block in list order, each followed by a blank line. |
| Driver.RunStopsAtFirstFailure | pkg/model/datatypes.go:142-146 | When struct k is the first to panic, the run ends with its panic. The output is exactly the blocks of the structs before k, and nothing of k or later. |
| Driver.PanicIsFinal | pkg/model/datatypes.go:142-146 | After a panic, later structs change neither the output nor the panic. |
| Driver.OutputGrows | pkg/model/datatypes.go:145 | Printing only appends: the output after any prefix of the list is a prefix of the final output. |
| Driver.FieldReadsBack | pkg/model/datatypes.go:154-156 | The record of a field with a well-formed, translatable type and a comma-free name comes back as that name with its structural translation. |
| Driver.FieldPanics | pkg/model/datatypes.go:155 | The record of a field with a well-formed, untranslatable type panics with that type's panic. |
| Driver.DeclarationOfGood | pkg/model/datatypes.go:143-144 | A struct whose emitted fields all translate yields the block that lists exactly those fields, in order, with their emitted names and translations. |
| Driver.DeclarationOfPanics | pkg/model/datatypes.go:143-144 | When emitted field k is the first without a translation, the struct's outcome is that field's panic. |
| Driver.MembersTranslate | pkg/model/datatypes.go:169-180 | It is enough to know that every declared field not tagged `json:"-"` translates. |
| Driver.TranslatingStructsRun | pkg/model/datatypes.go:142-146 | If every struct of a list has only translatable emitted fields, the run prints one block per struct, in list order, and does not panic. |
| Models.PairPoint2f | pkg/model/datatypes.go:13-16 | PairPoint2f: `First` and `Second`, both `model.Point2f`, tagged `fst` and `snd`. |
| Models.Point2f | pkg/model/datatypes.go:18-21 | Point2f: `X` and `Y`, both `*float64`, tagged `x` and `y`. |
| Models.Pair2f | pkg/model/datatypes.go:23-26 | Pair2f: `First` and `Second`, both `model.Point2f`, tagged `first` and `second`. |
| Models.MapNode | pkg/model/datatypes.go:28-35 | MapNode's six fields in order: `Id`, `MapId`, `Location`, `RootNode`, `FloorIndex` (`*int`) and `BiDirectional` (tag `bidirectional`). |
| Models.NodeEdge | pkg/model/datatypes.go:37-44 | NodeEdge's six fields in order: four `int` ids, then `Node1` and `Node2` (`*model.MapNode`, tagged `json:"-"`). |
| Models.Auth0User | pkg/model/datatypes.go:46-50 | Auth0User's three fields, none of them with a json tag: `Id`, `Authid` and `Maps` (`[]model.Map`). |
| Models.Map | pkg/model/datatypes.go:52-62 | Map's nine fields in order, with `Users` tagged `json:"-"` and the untagged `Deleted` of type `gorm.DeletedAt`. |
| Models.Building | pkg/model/datatypes.go:64-70 | Building's five fields in order, each with its Go name, printed type and json tag. |
| Models.Floor | pkg/model/datatypes.go:72-80 | Floor's seven fields in order; `Sensors` carries the json tag `sensors`. |
| Models.Sensor | pkg/model/datatypes.go:82-87 | Sensor's four fields in order, each with its Go name, printed type and json tag. |
| Models.Indent | pkg/model/datatypes.go:89-96 | Indent's six fields in order, including the `*string` wall keys. |
| Models.Entrance | pkg/model/datatypes.go:98-102 | Entrance's three fields: `Id`, `Start` and `End`. |
| Models.Room | pkg/model/datatypes.go:104-115 | Room's ten fields in order, including `Walls` (`[]*model.PairPoint2f`) and `Entrances` (`[]model.Entrance`). |
| Models.AllowList | pkg/model/datatypes.go:130-140 | The nine structs `ToTsx` generates, in its order: Point2f, Map, Building, Floor, Room, Indent, Sensor, MapNode, NodeEdge. |
| Generator.ToTsx | pkg/model/datatypes.go:129-148 | `ToTsx` never panics: every allow-listed struct translates. It prints the nine blocks in allow-list order (Point2f, Map, Building, Floor, Room, Indent, Sensor, MapNode, NodeEdge), each followed by a blank line. |
| Generator.AllowListTranslates | pkg/model/datatypes.go:130-140 | Every emitted field of every struct on the allow-list has a translation. |
| Generator.ModelTypesOk | pkg/model/datatypes.go:185-191 | A struct of package `model`, a slice of it and a slice of pointers to it all translate. |
| Generator.Point2fTranslates | pkg/model/datatypes.go:18-21 | All of Point2f's emitted fields translate. |
| Generator.MapTranslates | pkg/model/datatypes.go:52-62 | All of Map's emitted fields translate, including the untagged `gorm.DeletedAt`. |
| Generator.BuildingTranslates | pkg/model/datatypes.go:64-70 | All of Building's emitted fields translate. |
| Generator.FloorTranslates | pkg/model/datatypes.go:72-80 | All of Floor's emitted fields translate. |
| Generator.RoomTranslates | pkg/model/datatypes.go:104-115 | All of Room's emitted fields translate, including the slice of pointers `Walls`. |
| Generator.IndentTranslates | pkg/model/datatypes.go:89-96 | All of Indent's emitted fields translate. |
| Generator.SensorTranslates | pkg/model/datatypes.go:82-87 | All of Sensor's emitted fields translate. |
| Generator.MapNodeTranslates | pkg/model/datatypes.go:28-35 | All of MapNode's emitted fields translate. |
| Generator.NodeEdgeTranslates | pkg/model/datatypes.go:37-44 | All of NodeEdge's emitted fields translate. |
| Generator.NodeEdgeDropsNodeLinks | pkg/model/datatypes.go:37-44 | NodeEdge emits 4 of its 6 fields: neither `json:"-"` link to a MapNode appears. |
| Generator.MapDropsUsers | pkg/model/datatypes.go:52-62 | Map does not emit `Users`, which is tagged `json:"-"`, but does emit the untagged `Deleted`. |
| Generator.MapDeletedKeepsGoName | pkg/model/datatypes.go:61 | `Map.Deleted` has no json tag, so it keeps its Go name. Its type `gorm.DeletedAt` becomes `DeletedAt`. |
| Generator.RoomWallsKeepStar | pkg/model/datatypes.go:113 | `Room.Walls` is emitted as `walls: *PairPoint2f[]`. |
| Generator.Point2fLines | pkg/model/datatypes.go:18-21 | Point2f emits `x` and `y`, in that order, both as `number`. |
| Generator.Point2fBlock | pkg/model/datatypes.go:150-159 | Point2f's block is its header, the line for `x`, the line for `y`, and `}`. |
| Generator.Point2fText | pkg/model/datatypes.go:151-158 | Character for character, that block is `export type Point2f = {\n\tx: number\n\ty: number\n}`. |
| Generator.UnlistedNeverEmitted | pkg/model/datatypes.go:130-140 | No allow-listed struct is PairPoint2f, Pair2f, Entrance or Auth0User, so none of them is ever declared, although Room is listed and its `Walls` and `Entrances` fields have types `[]*model.PairPoint2f` and `[]model.Entrance`. |

## Left out

- Reflection: a struct's fields, their printed types and their json tags are explicit tables (`Models`). These were transcribed from the declarations at `pkg/model/datatypes.go:13-115`, not read at run time.
- Go kinds beyond those the models use are not modelled: maps, arrays, channels, functions, interfaces and anonymous structs. Package names holding digits, upper-case letters or underscores are also out of `WellFormed`, which asks for lower-case letters only. For such names the string algorithm does not give the structural result at all, because the deletion takes only the lower-case run directly before the dot: `v2.Foo` becomes `v2Foo` and `my_pkg.T` becomes `my_T`. The packages the models use are `model` and `gorm`.
- `GoStd.ReplaceAll` requires a non-empty pattern. The code only ever uses `"[]"` and `"*"`.
- `fmt.Printf` to standard output is the returned `out` string of `Driver.Run` and `Generator.ToTsx`.
- A Go panic is an `Err` value of `Panic`. The message text `"No Translation for type: "` is not modelled, only the type it names. Stack unwinding and recovery are not modelled.
- The regexp engine: only the deletion rule of `[a-z]*\.` is modelled.
- `Room.AfterFind` (`pkg/model/datatypes.go:117-123`): a gorm hook that calls polygon helpers not in this model and writes to standard output.
- `PointsEqual` and `NewPoint2f` (`pkg/model/datatypes.go:125-127`, `206-211`): floating-point comparisons through pointers.
- gorm tags: the generator ignores them, and they are not recorded in the tables.
- `pkg/rest/handlers/buildingHandler.go`: HTTP routing and persistence, outside the generator.
- Generator.Point2fBlock: states the block as `Header`/`FieldLine` pieces. The literal text is a separate lemma, `Generator.Point2fText`, chained by equality.
- Generator.NodeEdgeDropsNodeLinks: states the count and the absence of the two links, not the exact list of the four emitted fields. Together with `Extractor.KeptOrder`, the count fixes that list.
