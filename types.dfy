/** The entities the derived code works on: nodes of the physical (file) schema
    tree, the value types a record field may have, the schema descriptors that
    binding produces, and the errors it reports. */
module Types {

  /** Repetition of a physical node. */
  datatype Repetition = Required | Optional | Repeated

  /** A node of the physical schema tree: a primitive column, or a group of named
      children. `isSchema` marks the root of the tree, which has no repetition of
      its own in the file format; `repetition` is not consulted for it. */
  datatype PhysType =
    | Primitive(name: string, repetition: Repetition, physical: string)
    | Group(name: string, repetition: Repetition, children: seq<PhysType>, isSchema: bool)

  /** Names a leaf value type (`i64`, `String`, ...) whose binding and reading live
      outside the derived code. */
  datatype LeafTag = LeafTag(rustType: string)

  /** The value type of a record field: a leaf type, or a record type that itself
      derives the binding (its fields already carry their resolved external names). */
  datatype ValueType =
    | Leaf(tag: LeafTag)
    | Record(name: string, fields: seq<FieldDesc>)

  /** A declared field: its identifier, the name it is looked up by in the physical
      schema (its `rename`, else its identifier), and its value type. */
  datatype FieldDesc = FieldDesc(name: string, external: string, ty: ValueType)

  /** The descriptor binding produces: the leaf type for a leaf, and for a record one
      sub-descriptor per declared field, in declaration order. */
  datatype Schema =
    | LeafSchema(tag: LeafTag)
    | RecordSchema(fields: seq<Schema>)

  /** `ParquetError` as the derived code raises it. Binding errors carry the struct
      name and the missing external name; `ColumnError` is the general error a leaf
      type or a column reader reports (the leaf operations are parameters here and
      may return any `ParquetError`, so no member of this model builds one);
      `Panic` stands for an abort of the derived code. */
  datatype ParquetError =
    | StructShape(structName: string)
    | MissingField(structName: string, field: string)
    | ColumnError(msg: string)
    | Panic(msg: string)

  /** A descriptor has the shape of a value type: what the Rust type system
      guarantees for `<T as Deserialize>::Schema`. */
  predicate Conforms(ty: ValueType, s: Schema)
    decreases ty
  {
    match ty
    case Leaf(tag) => s == LeafSchema(tag)
    case Record(_, fields) => s.RecordSchema? && FieldsConform(fields, s.fields)
  }

  /** One conforming sub-descriptor per field, in order. */
  predicate FieldsConform(fields: seq<FieldDesc>, schemas: seq<Schema>)
    decreases fields
  {
    |fields| == |schemas| &&
    forall i :: 0 <= i < |fields| ==> Conforms(fields[i].ty, schemas[i])
  }
}
