/** The generated `Deserialize::parse` of a derived struct: bind the struct's fields
    to the children of a physical group node, by external name, and produce the
    schema descriptor (rust/parquet/parquet_derive/src/lib.rs lines 209-218). */
module Binding {
  import opened Wrappers
  import opened Types

  /** `parse` of a leaf value type, which lives outside the derived code: the name
      it reports for the node, or its error. */
  type LeafParse = (LeafTag, PhysType) -> Result<string, ParquetError>

  /** The children of a group indexed by name; collecting into the map lets a later
      child with the same name replace an earlier one. */
  function ChildIndex(children: seq<PhysType>): (idx: map<string, PhysType>)
    ensures idx.Keys == set c | c in children :: c.name
  {
    if children == [] then map[]
    else
      var last := children[|children| - 1];
      ChildIndex(children[..|children| - 1])[last.name := last]
  }

  /** The only physical nodes a struct binds to: groups, not the schema root, with
      required repetition. */
  predicate Bindable(node: PhysType) {
    node.Group? && !node.isSchema && node.repetition == Required
  }

  /** `parse` of a value type against a physical node: the node's name and the
      descriptor. */
  function Parse(leaf: LeafParse, ty: ValueType, node: PhysType): (r: Result<(string, Schema), ParquetError>)
    ensures ty.Record? && !Bindable(node) ==> r == Err(StructShape(ty.name))
    ensures r.Ok? && ty.Record? ==> Bindable(node) && r.value.0 == node.name && r.value.1.RecordSchema?
    ensures r.Ok? && ty.Leaf? ==> r.value.1 == LeafSchema(ty.tag) && leaf(ty.tag, node) == Ok(r.value.0)
    decreases ty
  {
    match ty
    case Leaf(tag) =>
      (match leaf(tag, node)
       case Ok(name) => Ok((name, LeafSchema(tag)))
       case Err(e) => Err(e))
    case Record(structName, fields) =>
      if Bindable(node) then
        match ParseFields(leaf, structName, fields, ChildIndex(node.children))
        case Ok(schemas) => Ok((node.name, RecordSchema(schemas)))
        case Err(e) => Err(e)
      else
        Err(StructShape(structName))
  }

  /** One field of struct `structName`: look its external name up among the
      children, bind its value type to that child, keep the descriptor. */
  function BindField(leaf: LeafParse, structName: string, f: FieldDesc, idx: map<string, PhysType>)
    : (r: Result<Schema, ParquetError>)
    ensures f.external !in idx ==> r == Err(MissingField(structName, f.external))
    ensures r.Ok? ==> f.external in idx
    decreases f
  {
    if f.external !in idx then Err(MissingField(structName, f.external))
    else
      match Parse(leaf, f.ty, idx[f.external])
      case Ok(p) => Ok(p.1)
      case Err(e) => Err(e)
  }

  /** All fields in declaration order; the first failing field decides the error. */
  function ParseFields(leaf: LeafParse, structName: string, fields: seq<FieldDesc>, idx: map<string, PhysType>)
    : (r: Result<seq<Schema>, ParquetError>)
    ensures r.Ok? ==> |r.value| == |fields|
    decreases fields
  {
    if fields == [] then Ok([])
    else
      match ParseFields(leaf, structName, fields[..|fields| - 1], idx)
      case Err(e) => Err(e)
      case Ok(schemas) =>
        match BindField(leaf, structName, fields[|fields| - 1], idx)
        case Err(e) => Err(e)
        case Ok(s) => Ok(schemas + [s])
  }

  /** A name in the index maps to the last child of that name, at position j. */
  lemma {:induction false} ChildIndexLast(children: seq<PhysType>, name: string) returns (j: nat)
    requires name in ChildIndex(children)
    ensures j < |children| && ChildIndex(children)[name] == children[j] && children[j].name == name
    ensures forall k :: j < k < |children| ==> children[k].name != name
    decreases |children|
  {
    var n := |children| - 1;
    var prefix := children[..n];
    var idx := ChildIndex(children);
    assert idx == ChildIndex(prefix)[children[n].name := children[n]];
    if children[n].name == name {
      j := n;
    } else {
      assert name in ChildIndex(prefix) && idx[name] == ChildIndex(prefix)[name];
      j := ChildIndexLast(prefix, name);
      forall k | j < k < |children|
        ensures children[k].name != name
      {
        if k < n {
          assert prefix[k] == children[k];
        }
      }
    }
  }

  /** The fields bind exactly when each of them binds, and then the descriptors are
      the fields' own, in order. */
  lemma {:induction false} ParseFieldsOk(leaf: LeafParse, structName: string, fields: seq<FieldDesc>, idx: map<string, PhysType>)
    ensures ParseFields(leaf, structName, fields, idx).Ok? <==>
              forall i :: 0 <= i < |fields| ==> BindField(leaf, structName, fields[i], idx).Ok?
    ensures ParseFields(leaf, structName, fields, idx).Ok? ==>
              var schemas := ParseFields(leaf, structName, fields, idx).value;
              |schemas| == |fields| &&
              forall i :: 0 <= i < |fields| ==> BindField(leaf, structName, fields[i], idx) == Ok(schemas[i])
    decreases |fields|
  {
    if fields != [] {
      var n := |fields| - 1;
      ParseFieldsOk(leaf, structName, fields[..n], idx);
      assert forall i :: 0 <= i < n ==> fields[..n][i] == fields[i];
    }
  }

  /** The first field in declaration order that does not bind decides the error. */
  lemma {:induction false} ParseFieldsFirstError(leaf: LeafParse, structName: string, fields: seq<FieldDesc>,
                                                 idx: map<string, PhysType>, k: nat)
    requires k < |fields|
    requires forall i :: 0 <= i < k ==> BindField(leaf, structName, fields[i], idx).Ok?
    requires BindField(leaf, structName, fields[k], idx).Err?
    ensures ParseFields(leaf, structName, fields, idx) == Err(BindField(leaf, structName, fields[k], idx).error)
    decreases |fields|
  {
    var n := |fields| - 1;
    if k < n {
      ParseFieldsFirstError(leaf, structName, fields[..n], idx, k);
    } else {
      ParseFieldsOk(leaf, structName, fields[..n], idx);
    }
  }

  /** A struct does not bind to a leaf, to the schema root, or to an optional or
      repeated group: it reports the struct's name. */
  lemma ParseShapeMismatch(leaf: LeafParse, structName: string, fields: seq<FieldDesc>, node: PhysType)
    requires !Bindable(node)
    ensures Parse(leaf, Record(structName, fields), node) == Err(StructShape(structName))
  {
  }

  /** A successful bind: the node is a bindable group, the result carries the node's
      own name, and there is one descriptor per field, bound from the child whose
      name is the field's external name (the last such child). */
  lemma ParseRecordOk(leaf: LeafParse, structName: string, fields: seq<FieldDesc>, node: PhysType)
    requires Parse(leaf, Record(structName, fields), node).Ok?
    ensures Bindable(node)
    ensures var (name, schema) := Parse(leaf, Record(structName, fields), node).value;
            var idx := ChildIndex(node.children);
            name == node.name && schema.RecordSchema? && |schema.fields| == |fields| &&
            forall i :: 0 <= i < |fields| ==>
              fields[i].external in idx && idx[fields[i].external].name == fields[i].external &&
              Parse(leaf, fields[i].ty, idx[fields[i].external]).Ok? &&
              Parse(leaf, fields[i].ty, idx[fields[i].external]).value.1 == schema.fields[i]
  {
    var idx := ChildIndex(node.children);
    ParseFieldsOk(leaf, structName, fields, idx);
    forall i | 0 <= i < |fields| && fields[i].external in idx
      ensures idx[fields[i].external].name == fields[i].external
    {
      var _ := ChildIndexLast(node.children, fields[i].external);
    }
  }

  /** A field whose external name names no child, with every earlier field bound,
      fails the whole bind with the struct's name and that external name. */
  lemma ParseMissingField(leaf: LeafParse, structName: string, fields: seq<FieldDesc>, node: PhysType, k: nat)
    requires Bindable(node) && k < |fields|
    requires forall i :: 0 <= i < k ==> BindField(leaf, structName, fields[i], ChildIndex(node.children)).Ok?
    requires forall c :: c in node.children ==> c.name != fields[k].external
    ensures Parse(leaf, Record(structName, fields), node) == Err(MissingField(structName, fields[k].external))
  {
    ParseFieldsFirstError(leaf, structName, fields, ChildIndex(node.children), k);
  }

  /** A failed bind of a field's value type is the error of the whole struct. */
  lemma ParseNestedError(leaf: LeafParse, structName: string, fields: seq<FieldDesc>, node: PhysType, k: nat)
    requires Bindable(node) && k < |fields|
    requires forall i :: 0 <= i < k ==> BindField(leaf, structName, fields[i], ChildIndex(node.children)).Ok?
    requires fields[k].external in ChildIndex(node.children)
    requires Parse(leaf, fields[k].ty, ChildIndex(node.children)[fields[k].external]).Err?
    ensures Parse(leaf, Record(structName, fields), node)
         == Err(Parse(leaf, fields[k].ty, ChildIndex(node.children)[fields[k].external]).error)
  {
    ParseFieldsFirstError(leaf, structName, fields, ChildIndex(node.children), k);
  }

  /** A descriptor produced by binding has the shape of its value type, so a reader
      can be built from it. */
  lemma {:induction false} ParseConforms(leaf: LeafParse, ty: ValueType, node: PhysType)
    requires Parse(leaf, ty, node).Ok?
    ensures Conforms(ty, Parse(leaf, ty, node).value.1)
    decreases ty, 1
  {
    match ty
    case Leaf(_) =>
    case Record(structName, fields) =>
      ParseFieldsConform(leaf, structName, fields, ChildIndex(node.children));
  }

  /** The descriptors of successfully bound fields conform to the fields' types. */
  lemma {:induction false} ParseFieldsConform(leaf: LeafParse, structName: string, fields: seq<FieldDesc>,
                                              idx: map<string, PhysType>)
    requires ParseFields(leaf, structName, fields, idx).Ok?
    ensures FieldsConform(fields, ParseFields(leaf, structName, fields, idx).value)
    decreases fields, 0
  {
    var schemas := ParseFields(leaf, structName, fields, idx).value;
    ParseFieldsOk(leaf, structName, fields, idx);
    forall i | 0 <= i < |fields|
      ensures Conforms(fields[i].ty, schemas[i])
    {
      assert fields[i] in fields;
      ParseConforms(leaf, fields[i].ty, idx[fields[i].external]);
    }
  }

  /** The struct `Point { id, name }` against the required group
      `Point { required int64 id; required binary name; }` yields two leaf
      descriptors; without the `id` child it is missing `id`. */
  lemma PointExample(leaf: LeafParse, i64: LeafTag, str: LeafTag)
    requires leaf(i64, Primitive("id", Required, "INT64")) == Ok("id")
    requires leaf(str, Primitive("name", Required, "BYTE_ARRAY")) == Ok("name")
    ensures var ty := Record("Point", [FieldDesc("id", "id", Leaf(i64)), FieldDesc("name", "name", Leaf(str))]);
            Parse(leaf, ty, Group("Point", Required, [Primitive("id", Required, "INT64"),
                                                      Primitive("name", Required, "BYTE_ARRAY")], false))
              == Ok(("Point", RecordSchema([LeafSchema(i64), LeafSchema(str)]))) &&
            Parse(leaf, ty, Group("Point", Required, [Primitive("name", Required, "BYTE_ARRAY")], false))
              == Err(MissingField("Point", "id"))
  {
    var fields := [FieldDesc("id", "id", Leaf(i64)), FieldDesc("name", "name", Leaf(str))];
    var children := [Primitive("id", Required, "INT64"), Primitive("name", Required, "BYTE_ARRAY")];
    var idx := ChildIndex(children);
    assert children[..1][..0] == [] && children[..1] == [children[0]];
    assert idx == map["id" := children[0], "name" := children[1]];
    ParseFieldsOk(leaf, "Point", fields, idx);
    var schemas := ParseFields(leaf, "Point", fields, idx).value;
    assert schemas == [LeafSchema(i64), LeafSchema(str)];
    var node2 := Group("Point", Required, [Primitive("name", Required, "BYTE_ARRAY")], false);
    ParseMissingField(leaf, "Point", fields, node2, 0);
  }
}
