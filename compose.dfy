/** The generated `Deserialize::reader` of a derived struct: build one sub-reader
    per field while the shared column path names that field, then pop it again
    (rust/parquet/parquet_derive/src/lib.rs lines 219-226). */
module Compose {
  import opened Wrappers
  import opened Types
  import opened Runtime

  /** The column path shared by the whole build (`&mut Vec<String>`). */
  class PathStack {
    var segments: seq<string>

    method Push(s: string)
      modifies this
      ensures segments == old(segments) + [s]
    {
      segments := segments + [s];
    }

    /** `pop().unwrap()`: the caller has pushed before, so there is a segment. */
    method Pop() returns (s: string)
      requires segments != []
      modifies this
      ensures segments == old(segments)[..|old(segments)| - 1]
      ensures s == old(segments)[|old(segments)| - 1]
    {
      s := segments[|segments| - 1];
      segments := segments[..|segments| - 1];
    }
  }

  /** The sub-reader of one field under column path `prefix`: a leaf type opens the
      column at `prefix` extended by the field's external name; a struct builds its
      own fields there. The levels are handed down as they are. */
  function ComposeField(f: FieldDesc, s: Schema, prefix: seq<string>, def: int, rep: int): (r: SubReader)
    requires Conforms(f.ty, s)
    ensures r.LeafReader? <==> f.ty.Leaf?
    ensures r.GroupReader? ==> |r.fields| == |f.ty.fields|
    decreases f
  {
    match f.ty
    case Leaf(tag) => LeafReader(Column(prefix + [f.external], tag, def, rep, 0))
    case Record(_, fields) => GroupReader(ComposeFields(fields, s.fields, prefix + [f.external], def, rep))
  }

  /** The sub-readers of all fields, in declaration order. */
  function ComposeFields(fields: seq<FieldDesc>, schemas: seq<Schema>, prefix: seq<string>, def: int, rep: int)
    : (rs: seq<SubReader>)
    requires FieldsConform(fields, schemas)
    ensures |rs| == |fields|
    decreases fields
  {
    if fields == [] then []
    else
      var n := |fields| - 1;
      assert FieldsConform(fields[..n], schemas[..n]);
      ComposeFields(fields[..n], schemas[..n], prefix, def, rep) + [ComposeField(fields[n], schemas[n], prefix, def, rep)]
  }

  /** The body of `reader` for the fields of one struct: push the field's external
      name, build its sub-reader (recursing into a struct field), pop. */
  method BuildFields(fields: seq<FieldDesc>, schemas: seq<Schema>, path: PathStack, def: int, rep: int)
    returns (rs: seq<SubReader>)
    requires FieldsConform(fields, schemas)
    modifies path
    ensures path.segments == old(path.segments)
    ensures rs == ComposeFields(fields, schemas, old(path.segments), def, rep)
    decreases fields
  {
    rs := [];
    var i := 0;
    while i < |fields|
      invariant 0 <= i <= |fields|
      invariant path.segments == old(path.segments)
      invariant FieldsConform(fields[..i], schemas[..i])
      invariant rs == ComposeFields(fields[..i], schemas[..i], old(path.segments), def, rep)
    {
      var f := fields[i];
      path.Push(f.external);
      var sub: SubReader;
      match f.ty {
        case Leaf(tag) =>
          sub := LeafReader(Column(path.segments, tag, def, rep, 0));
        case Record(_, nested) =>
          assert f in fields;
          var subs := BuildFields(nested, schemas[i].fields, path, def, rep);
          sub := GroupReader(subs);
      }
      var _ := path.Pop();
      assert (old(path.segments) + [f.external])[..|old(path.segments)|] == old(path.segments);
      assert fields[..i + 1][..i] == fields[..i] && schemas[..i + 1][..i] == schemas[..i];
      rs := rs + [sub];
      i := i + 1;
    }
    assert fields[..i] == fields && schemas[..i] == schemas;
  }

  /** `reader` of a derived struct: its reader, with the path as it was. */
  method Reader(ops: ColumnOps, ty: ValueType, schema: Schema, path: PathStack, def: int, rep: int)
    returns (r: RecordReader)
    requires ty.Record? && Conforms(ty, schema)
    modifies path
    ensures fresh(r) && r.ops == ops
    ensures r.fields == ComposeFields(ty.fields, schema.fields, old(path.segments), def, rep)
    ensures path.segments == old(path.segments)
  {
    var subs := BuildFields(ty.fields, schema.fields, path, def, rep);
    r := new RecordReader(ops, subs);
  }

  /** Every column under a field's sub-reader sits below the parent path extended by
      the field's external name, and was opened with the parent's levels. */
  lemma {:induction false} ComposeFieldColumns(f: FieldDesc, s: Schema, prefix: seq<string>, def: int, rep: int)
    requires Conforms(f.ty, s)
    ensures forall c :: c in Columns(ComposeField(f, s, prefix, def, rep)) ==>
              prefix + [f.external] <= c.path && c.defLevel == def && c.repLevel == rep
    decreases f, 1
  {
    match f.ty
    case Leaf(_) =>
    case Record(_, fields) =>
      var p := prefix + [f.external];
      var rs := ComposeFields(fields, s.fields, p, def, rep);
      ComposeFieldsColumns(fields, s.fields, p, def, rep);
      forall c | c in ColumnsOf(rs)
        ensures p <= c.path && c.defLevel == def && c.repLevel == rep
      {
        var i := ColumnsOfMember(rs, c);
        assert p + [fields[i].external] <= c.path;
      }
  }

  /** Every column under the i-th sub-reader sits below the parent path extended by
      the i-th field's external name, and was opened with the parent's levels. */
  lemma {:induction false} ComposeFieldsColumns(fields: seq<FieldDesc>, schemas: seq<Schema>, prefix: seq<string>,
                                                def: int, rep: int)
    requires FieldsConform(fields, schemas)
    ensures var rs := ComposeFields(fields, schemas, prefix, def, rep);
            forall i, c :: 0 <= i < |fields| && c in Columns(rs[i]) ==>
              prefix + [fields[i].external] <= c.path && c.defLevel == def && c.repLevel == rep
    decreases fields, 0
  {
    var rs := ComposeFields(fields, schemas, prefix, def, rep);
    forall i | 0 <= i < |fields|
      ensures forall c :: c in Columns(rs[i]) ==>
                prefix + [fields[i].external] <= c.path && c.defLevel == def && c.repLevel == rep
    {
      ComposeFieldsAt(fields, schemas, prefix, def, rep, i);
      assert fields[i] in fields;
      ComposeFieldColumns(fields[i], schemas[i], prefix, def, rep);
    }
  }

  /** The i-th composed sub-reader is the i-th field's. */
  lemma {:induction false} ComposeFieldsAt(fields: seq<FieldDesc>, schemas: seq<Schema>, prefix: seq<string>,
                                           def: int, rep: int, i: nat)
    requires FieldsConform(fields, schemas) && i < |fields|
    ensures ComposeFields(fields, schemas, prefix, def, rep)[i] == ComposeField(fields[i], schemas[i], prefix, def, rep)
    decreases |fields|
  {
    var n := |fields| - 1;
    if i < n {
      assert FieldsConform(fields[..n], schemas[..n]);
      ComposeFieldsAt(fields[..n], schemas[..n], prefix, def, rep, i);
    }
  }

  /** The queries of a composed reader answer from its first-field column, which lies
      under the first field's external name and carries the levels handed down;
      when the first-field path ends in an empty struct, `has_next` is true and the
      level queries abort. */
  lemma ComposedQueries(ops: ColumnOps, fields: seq<FieldDesc>, schemas: seq<Schema>, prefix: seq<string>,
                        def: int, rep: int)
    requires FieldsConform(fields, schemas)
    ensures var g := GroupReader(ComposeFields(fields, schemas, prefix, def, rep));
            match FirstColumn(g)
            case None =>
              HasNextSub(ops, g) && DefLevelSub(ops, g).Err? && RepLevelSub(ops, g).Err?
            case Some(c) =>
              fields != [] && prefix + [fields[0].external] <= c.path && c.defLevel == def && c.repLevel == rep &&
              HasNextSub(ops, g) == ops.hasNext(c) &&
              DefLevelSub(ops, g) == Ok(ops.defLevel(c)) && RepLevelSub(ops, g) == Ok(ops.repLevel(c))
  {
    var rs := ComposeFields(fields, schemas, prefix, def, rep);
    var g := GroupReader(rs);
    if FirstColumn(g).Some? {
      FirstColumnIsAColumn(rs[0]);
      ComposeFieldsColumns(fields, schemas, prefix, def, rep);
    }
  }
}
