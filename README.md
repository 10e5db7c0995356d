# parquet_derive: `#[derive(Deserialize)]`, modelled in Dafny

`parquet_derive` is a procedural macro. It generates three things for a Rust
struct:
- a parquet schema binder (`parse`);
- a reader builder (`reader`);
- a composite record reader (`read`, `advance_columns`, `has_next`,
  `current_def_level`, `current_rep_level`).

This project models what the macro decides and what the generated code does. The
token plumbing is not modelled. Each piece is stated over values, or as a class
where the code updates state in place:

- **Attributes** (`attributes.dfy`): how a field's external column name is found.
  - `get_parquet_meta_items` and `get_lit_str` are functions.
  - The nested `for` loops of `new_impl`, with their mutable `rename`, are the
    method `ResolveRename`. It is proved equal to the reference function
    `FieldRename`.
- **Derive** (`derive.dfy`):
  - the entry point's dispatch on structs, enums and unions;
  - `new_impl`'s collection of the external names, where the first error wins;
  - the field list the generated code is built from;
  - `unraw`.
- **Types** (`types.dfy`):
  - physical schema nodes;
  - value types (leaf or struct);
  - the schema descriptors `parse` produces;
  - the errors.
- **Binding** (`binding.dfy`): the generated `parse`.
  - The node must be a required group and not the root.
  - Its children are indexed by name, and a later duplicate replaces an earlier one.
  - The fields are bound in declaration order, and the first failure is the result.
- **Compose** (`compose.dfy`): the generated `reader`. `PathStack` is the shared
  `&mut Vec<String>`. The method `BuildFields` pushes each field's external name,
  builds the field's sub-reader (recursing into struct fields), and pops. It is
  proved equal to the function `ComposeFields`, and the path is proved restored.
- **Runtime** (`runtime.dfy`): the generated reader struct, as the class
  `RecordReader` with a `seq` of sub-readers.
  - Its `Read` and `AdvanceColumns` loops are proved equal to value-level
    reference functions that stop at the first error.
  - The three queries delegate to the first field.

Leaf types (`i64`, `String`, …) implement `Deserialize` outside the macro. They are
parameters of the model:
- `Binding.LeafParse` binds a leaf type to a node.
- `Runtime.ColumnOps` holds the leaf column readers' `read`, `advance`, `has_next`
  and level queries.

## Model

| member | source | states |
|---|---|---|
| Attributes.ParquetMetaItems | rust/parquet/parquet_derive/src/lib.rs:233-245 | yields items exactly for an attribute whose path is the single segment `parquet` and whose meta is a list, and then the items are that list's |
| Attributes.LitStr | rust/parquet/parquet_derive/src/lib.rs:247-263 | succeeds exactly on a string literal, returning its value; any other literal is the "not a string" error for that key |
| Attributes.MetaItems | rust/parquet/parquet_derive/src/lib.rs:85 | defines the items of all parquet attributes of a field, in order; its properties are `ForeignAttributesIgnored` and `MetaItemsAppend` |
| Attributes.Step | rust/parquet/parquet_derive/src/lib.rs:87-111 | defines one item's effect: it succeeds exactly for a string `rename` while no rename has been found, and then the rename is that string; a non-string `rename` value gives `NotAString("rename")` (checked before the duplicate test), a second string `rename` gives `DuplicateRename`, any other key gives `UnknownAttribute` naming that key, and a bare literal gives `UnexpectedLiteral`; its properties in sequence are `ScanAccepts`, `ScanRejects` and `NonStringBeforeDuplicate` |
| Attributes.Scan | rust/parquet/parquet_derive/src/lib.rs:86-112 | defines the scan of the items in order with the first error kept; its properties are `ScanAccepts` and `ScanErrSticky` |
| Attributes.FieldRename | rust/parquet/parquet_derive/src/lib.rs:84-116 | defines a field's external name: a success is either the single `rename = "s"` item or, with no items, the identifier; with no items it is the identifier or the `unwrap` abort; its full characterisation is `FieldRenameResolves` |
| Attributes.ScanItems | rust/parquet/parquet_derive/src/lib.rs:86-112 | the inner loop over one attribute's items returns exactly the scan of the items so far followed by these items |
| Attributes.ResolveRename | rust/parquet/parquet_derive/src/lib.rs:84-116 | the loop over every parquet attribute and every item returns exactly the reference function `FieldRename` (first bad item's error; else the rename, else the identifier, else the `unwrap` abort) |
| Attributes.ScanAccepts | rust/parquet/parquet_derive/src/lib.rs:86-112 | the item scan yields "no rename" exactly for no items, and rename `s` exactly for the single item `rename = "s"`; every other item list is an error |
| Attributes.FieldRenameResolves | rust/parquet/parquet_derive/src/lib.rs:84-116 | a field's external name is `s` iff its parquet items are exactly `rename = "s"`, or it has none and its identifier is `s` |
| Attributes.ScanRejects | rust/parquet/parquet_derive/src/lib.rs:90-109 | a second string `rename` fails with `DuplicateRename`, a lone item with any key but `rename` fails with `UnknownAttribute` naming that key, and a lone bare literal fails with `UnexpectedLiteral` |
| Attributes.NonStringBeforeDuplicate | rust/parquet/parquet_derive/src/lib.rs:89-96 | a second `rename` with a non-string value reports the non-string error, not the duplicate: the value is checked first |
| Attributes.ForeignAttributesIgnored | rust/parquet/parquet_derive/src/lib.rs:85 | an attribute that is not a `parquet` list adds no items |
| Attributes.ScanErrSticky | rust/parquet/parquet_derive/src/lib.rs:86-112 | once an item has failed, later items leave the error unchanged (the early `return`) |
| Derive.Derive | rust/parquet/parquet_derive/src/lib.rs:36-68 | defines the dispatch: only a struct can derive, and its record keeps the struct's name; its properties are `DeriveStruct` and `EnumsAndUnionsRejected` |
| Derive.NewImpl | rust/parquet/parquet_derive/src/lib.rs:70-127 | defines `new_impl`: a derived record keeps the struct's name and has one descriptor per field; its properties are `DeriveStruct` and `RenameExample` |
| Derive.Renames | rust/parquet/parquet_derive/src/lib.rs:81-118 | defines the external names of the fields as `Collect` of each field's `FieldRename`: a success has one name per field; its properties are `RenamesOk` and `RenamesFirstError` |
| Derive.Collect | rust/parquet/parquet_derive/src/lib.rs:81-118 | defines `collect::<Result<Vec<_>, _>>()` over the fields for any per-field resolution: a success has one name per field; its properties are `CollectOk` and `CollectFirstError` |
| Derive.Describe | rust/parquet/parquet_derive/src/lib.rs:122-130 | defines the field list: it exists iff every field has an identifier (otherwise the `unwrap` abort), and then lists, in order, each field's identifier, external name and type |
| Derive.RenamesOk | rust/parquet/parquet_derive/src/lib.rs:81-118 | collecting the names succeeds iff every field's name resolves, and then the i-th name is the i-th field's |
| Derive.RenamesFirstError | rust/parquet/parquet_derive/src/lib.rs:81-118 | when collecting fails, the error is the first failing field's (`collect` into `Result` stops there) |
| Derive.CollectOk | rust/parquet/parquet_derive/src/lib.rs:81-118 | for any per-field resolution, collecting succeeds iff every field resolves, and then the i-th name is the i-th field's |
| Derive.CollectFirstError | rust/parquet/parquet_derive/src/lib.rs:81-118 | for any per-field resolution, when field k is the first that fails, collecting fails with its error |
| Derive.DeriveStruct | rust/parquet/parquet_derive/src/lib.rs:36-54 | a named, unit or tuple struct derives iff each field has an identifier and a resolvable name; the result keeps the struct name and, per field in order, its identifier, external name and type |
| Derive.TupleStructRejected | rust/parquet/parquet_derive/src/lib.rs:52 | a well-formed tuple struct (positional fields have no identifier) with fields never derives |
| Derive.EnumsAndUnionsRejected | rust/parquet/parquet_derive/src/lib.rs:41-42 | enums (with or without variants) and unions abort |
| Derive.RenameExample | rust/parquet/parquet_derive/src/lib.rs:88-97 | `#[parquet(rename = "cnt")] count` is described as field `count` with external name `cnt` |
| Derive.Unraw | rust/parquet/parquet_derive/src/lib.rs:283-285 | the result is a suffix of the identifier that does not itself start with `r#` |
| Derive.UnrawRemovesPrefixes | rust/parquet/parquet_derive/src/lib.rs:283-285 | what is removed is exactly k whole `r#` prefixes, for some k |
| Derive.UnrawIdempotent | rust/parquet/parquet_derive/src/lib.rs:283-285 | a second `unraw` changes nothing |
| Binding.Parse | rust/parquet/parquet_derive/src/lib.rs:209-218 | defines `parse`: a struct fails with the "Struct X" error unless the node is bindable, and a bound struct carries the node's own name and a record descriptor; a bound leaf carries the leaf parse's name and its tag; its properties are `ParseRecordOk`, `ParseMissingField`, `ParseNestedError` and `ParseConforms` |
| Binding.BindField | rust/parquet/parquet_derive/src/lib.rs:213 | defines one field's bind: a missing external name gives `MissingField(struct, external name)`, and a success means the child exists |
| Binding.ParseFields | rust/parquet/parquet_derive/src/lib.rs:212-214 | defines the struct literal's fields in order: a success has one descriptor per field; its properties are `ParseFieldsOk` and `ParseFieldsFirstError` |
| Binding.ChildIndex | rust/parquet/parquet_derive/src/lib.rs:211 | the index's keys are exactly the children's names |
| Binding.ChildIndexLast | rust/parquet/parquet_derive/src/lib.rs:211 | a name maps to the last child of that name |
| Binding.ParseShapeMismatch | rust/parquet/parquet_derive/src/lib.rs:210-217 | a struct bound to a leaf, the schema root, or a non-required group fails with the "Struct X" error |
| Binding.ParseRecordOk | rust/parquet/parquet_derive/src/lib.rs:210-215 | a successful bind means the node was a bindable group; it returns the node's own name, and one descriptor per field, bound from the child named by that field's external name |
| Binding.ParseMissingField | rust/parquet/parquet_derive/src/lib.rs:213 | the first field whose external name names no child fails the bind with the struct's name and that external name |
| Binding.ParseNestedError | rust/parquet/parquet_derive/src/lib.rs:213 | a field's own bind error is the struct's error, unchanged |
| Binding.ParseFieldsOk | rust/parquet/parquet_derive/src/lib.rs:212-214 | the fields bind iff each field binds, and then the descriptors are the fields' own, in order |
| Binding.ParseFieldsFirstError | rust/parquet/parquet_derive/src/lib.rs:213 | the first field in declaration order that fails decides the error |
| Binding.ParseConforms | rust/parquet/parquet_derive/src/lib.rs:209-218 | a descriptor produced by binding has the shape of its value type |
| Binding.PointExample | rust/parquet/parquet_derive/src/lib.rs:209-218 | `Point { id, name }` binds to a matching required group; without the `id` child it is missing `id` |
| Compose.PathStack.Push | rust/parquet/parquet_derive/src/lib.rs:221 | the path gains the segment at its end |
| Compose.PathStack.Pop | rust/parquet/parquet_derive/src/lib.rs:223 | the last segment is removed and returned |
| Compose.ComposeField | rust/parquet/parquet_derive/src/lib.rs:221-223 | defines one field's sub-reader: a leaf reader exactly for a leaf type, else one sub-reader per nested field; its property is `ComposeFieldColumns` |
| Compose.ComposeFields | rust/parquet/parquet_derive/src/lib.rs:220-225 | defines the sub-readers of all fields, one per field in order; its properties are `ComposeFieldsColumns` and `ComposedQueries` |
| Compose.BuildFields | rust/parquet/parquet_derive/src/lib.rs:220-224 | the push/build/pop loop returns exactly `ComposeFields` of the path it started with, and leaves the path as it found it |
| Compose.Reader | rust/parquet/parquet_derive/src/lib.rs:219-226 | a fresh reader over the composed sub-readers and the leaf column operations; the path is restored |
| Compose.ComposeFieldsColumns | rust/parquet/parquet_derive/src/lib.rs:221-222 | every column under the i-th sub-reader lies below the parent path plus the i-th external name, and carries the parent's definition and repetition levels unchanged |
| Compose.ComposedQueries | rust/parquet/parquet_derive/src/lib.rs:186-203 | a composed reader's queries answer from its first-field column, which lies under the first field's external name with the inherited levels; when the first-field path ends in an empty struct, `has_next` is true and both level queries abort |
| Runtime.ReadSub | rust/parquet/parquet_derive/src/lib.rs:177-181 | defines `read` of a (nested) reader: the reader keeps its shape, and a successful value is a struct with one value per field exactly for a struct reader; its properties are `ReadFieldsOk` and `ReadFieldsErr` |
| Runtime.ReadFields | rust/parquet/parquet_derive/src/lib.rs:178-180 | defines the reads of the fields in order: one new state per field, and one value per field on success; its properties are `ReadFieldsOk`, `ReadFieldsErr` and `ReadFieldsErrSticky` |
| Runtime.AdvanceSub | rust/parquet/parquet_derive/src/lib.rs:182-185 | defines `advance_columns` of a (nested) reader: the reader keeps its shape; its properties are `AdvanceFieldsOk` and `AdvanceFieldsErr` |
| Runtime.AdvanceFields | rust/parquet/parquet_derive/src/lib.rs:183-184 | defines the advances of the fields in order, one new state per field; its properties are `AdvanceFieldsOk`, `AdvanceFieldsErr` and `AdvanceFieldsErrSticky` |
| Runtime.HasNextSub | rust/parquet/parquet_derive/src/lib.rs:186-191 | `has_next` of a (nested) reader is what its first-field column answers, whatever the other fields hold, and true when the first-field path ends in an empty struct |
| Runtime.DefLevelSub | rust/parquet/parquet_derive/src/lib.rs:192-197 | `current_def_level` of a (nested) reader is its first-field column's definition level, whatever the other fields hold, and the empty-group abort when the first-field path ends in an empty struct |
| Runtime.RepLevelSub | rust/parquet/parquet_derive/src/lib.rs:198-203 | `current_rep_level` of a (nested) reader is its first-field column's repetition level, whatever the other fields hold, and the empty-group abort when the first-field path ends in an empty struct |
| Runtime.RecordReader.Read | rust/parquet/parquet_derive/src/lib.rs:177-181 | the loop over the fields returns, and leaves the fields in, exactly what the value-level `read` gives |
| Runtime.RecordReader.AdvanceColumns | rust/parquet/parquet_derive/src/lib.rs:182-185 | the loop over the fields returns, and leaves the fields in, exactly what the value-level `advance_columns` gives |
| Runtime.ReadFieldsOk | rust/parquet/parquet_derive/src/lib.rs:177-181 | a successful read gives one value per field, each the value its own sub-reader reads |
| Runtime.ReadFieldsErr | rust/parquet/parquet_derive/src/lib.rs:177-181 | a failed read is some field k's error; the fields before k read successfully, and the fields after k are untouched |
| Runtime.AdvanceFieldsOk | rust/parquet/parquet_derive/src/lib.rs:182-185 | a successful advance advanced every field |
| Runtime.AdvanceFieldsErr | rust/parquet/parquet_derive/src/lib.rs:182-185 | a failed advance is some field k's error; the earlier fields stay advanced and the later ones are untouched |
| Runtime.ReadFieldsErrSticky | rust/parquet/parquet_derive/src/lib.rs:178-180 | after a failed read of a prefix, further fields are kept as they are and the error stands |
| Runtime.AdvanceFieldsErrSticky | rust/parquet/parquet_derive/src/lib.rs:183-184 | after a failed advance of a prefix, further fields are kept as they are and the error stands |
| Runtime.RecordReader.HasNext | rust/parquet/parquet_derive/src/lib.rs:186-191 | true with no fields, and otherwise the first field's `has_next` |
| Runtime.RecordReader.CurrentDefLevel | rust/parquet/parquet_derive/src/lib.rs:192-197 | aborts with no fields, and is otherwise the first field's definition level |
| Runtime.RecordReader.CurrentRepLevel | rust/parquet/parquet_derive/src/lib.rs:198-203 | aborts with no fields, and is otherwise the first field's repetition level |

## Left out

- Token generation (`quote!`, `syn` parsing, `wrap_in_const`) is not modelled. Nor are the generated `XSchema`/`XReader` names. The model keeps what the generated code does, not its text.
- `DisplaySchema::fmt` and `fmt_type` (lib.rs lines 159-170) only format output, and their bodies are commented out.
- Leaf types' `parse` and `reader` live in the parquet crate, which is not part of this model. They are the parameters `Binding.LeafParse` and `Runtime.ColumnOps`.
- A leaf's sub-reader is modelled as opening the column at the current path with the levels handed down (`Compose.ComposeField`). Nothing more of the leaf `reader` is modelled.
- A leaf's schema descriptor is reduced to its value type's tag.
- The `paths` registry (`HashMap<ColumnPath, …>`) and `batch_size` are only passed through by the derived code. They are left out.
- Definition and repetition levels are `i16` in the source and `int` here. The derived code only passes them on and never does arithmetic on them.
- Error messages are kept where the model needs them (the two empty-group panics, the enum and union panics, the `unwrap` panic). The `syn::Error` spans and wording are reduced to the `DeriveError` constructors.
- Panics are modelled as error values: `DeriveError.Abort` at derive time and `ParquetError.Panic` at read time. The `unwrap` of `syn::parse` on the macro input is not modelled, because the input is taken as already parsed.
- Three behaviours of the code are easy to miss, and the model follows the code:
  - A missing field is reported with the struct's name and the field's external name; its declared name is not reported.
  - Enums with variants reach `unimplemented!()`, which is modelled as an abort.
  - A tuple struct reaches `new_impl` like a named one, but a positional field panics on its missing identifier. A positional field with a `rename` resolves its name, and the later `field.ident.unwrap()` then panics. Either way the derive aborts.
- `new_impl`'s `named` flag is never read by the code and is not modelled.
- Whether repeated `read`s eventually make `has_next` false depends entirely on the leaf column readers. It is not a property of the derived code, so it is not stated.
